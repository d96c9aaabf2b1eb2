/**
 The terminal (vt/terminal.h) as a value: cursor, margins, modes, tab stops and the parser of escape
 sequences. Every operation keeps Ready: the cursor on the screen, the margins a region of at least
 one row inside it, the rows sound and the window in step.
 */
module TerminalModel {
  import opened Rows
  import opened Damage
  import opened Screens
  import opened ScreenShape
  import opened ScreenSteps

  datatype Parser =
    | Default
    | Escape
    | EscapeSharp
    | DesignateG0
    | DeviceControl
    | DeviceControlEscape
    | OperatingSystem
    | OperatingSystemEscape
    | Csi
    | CsiParameter
    | CsiDigit

  datatype Kind = Primary | Secondary | Private

  const PARAMETERS := 16

  /** The widths of characters, and which of them are controls. */
  datatype Config = Config(w: Widths, isControl: char -> bool)

  ghost predicate ConfigOk(cfg: Config) {
    && WidthsOk(cfg.w)
    && (forall c :: c < ' ' ==> cfg.isControl(c))
    && (forall c :: ' ' <= c <= '~' ==> !cfg.isControl(c))
  }

  /** The parameters that are complete, and the one being read. */
  datatype Terminal = Terminal(
    hosted: Hosted,
    insert: bool,
    origin: bool,
    wraparound: bool,
    applicationCursor: bool,
    applicationKeypad: bool,
    tabs: seq<bool>,
    begin: nat,
    size: nat,
    parser: Parser,
    kind: Kind,
    parameters: seq<int>,
    digits: int)
  {
    function X(): nat { hosted.screen.x }
    function Y(): nat { hosted.screen.y }
    function Width(): nat { hosted.screen.width }
    function Height(): nat { hosted.screen.height }
  }

  /** The margins enclose at least one row of the screen. */
  ghost predicate MarginsOk(t: Terminal) {
    t.size >= 1 && t.begin + t.size <= t.Height()
  }

  ghost predicate CursorOk(t: Terminal) {
    t.Y() < t.Height() && (t.origin ==> t.begin <= t.Y() < t.begin + t.size)
  }

  ghost predicate Ready(w: Widths, t: Terminal) {
    && WidthsOk(w) && Steady(w, t.hosted)
    && MarginsOk(t) && CursorOk(t) && t.Width() > 0 && |t.tabs| >= t.Width()
  }

  /** What the parser knows is the same. */
  predicate SameParser(t: Terminal, r: Terminal) {
    r.parser == t.parser && r.kind == t.kind && r.parameters == t.parameters && r.digits == t.digits
  }

  function MoveCursor(t: Terminal, x: nat, y: nat): Terminal {
    t.(hosted := At(t.hosted, x, y))
  }

  lemma CursorIsReady(w: Widths, t: Terminal, x: nat, y: nat)
    requires Ready(w, t) && y < t.Height() && (t.origin ==> t.begin <= y < t.begin + t.size)
    ensures Ready(w, MoveCursor(t, x, y))
  {
    hide Steady;
    AtIsSteady(w, t.hosted, x, y);
  }

  /** f_parameter. */
  function Parameter(t: Terminal, i: nat, default: int): (r: int)
    ensures r >= default
  {
    if |t.parameters| < i + 1 || t.parameters[i] < default then default else t.parameters[i]
  }

  function Bottom(t: Terminal): nat {
    if t.origin then t.begin + t.size else t.Height()
  }

  // Scrolling.

  /** f_scroll, with the cursor already below the region. */
  function ScrollStep(w: Widths, t: Terminal, y: nat): (r: Hosted)
    requires Ready(w, t)
    ensures Steady(w, r) && SameSize(t.hosted.screen, r.screen)
  {
    hide Steady;
    var h := At(t.hosted, t.X(), y);
    AtIsSteady(w, t.hosted, t.X(), y);
    if t.hosted.screen.onAlternate || t.begin > 0 || t.size < t.Height() then
      ScrollUpIsSteady(w, h, t.begin, t.size, 1);
      ScrollUp(h, t.begin, t.size, 1)
    else
      ScrollLogIsSteady(w, h);
      ScrollLog(h)
  }

  function Index(w: Widths, t: Terminal): (r: Terminal)
    requires Ready(w, t)
    ensures Ready(w, r) && SameParser(t, r)
  {
    hide Steady;
    if t.Y() + 1 == t.begin + t.size then
      var h := ScrollStep(w, t, t.Y() + 1);
      AtIsSteady(w, h, h.screen.x, t.Y());
      t.(hosted := At(h, h.screen.x, t.Y()))
    else if t.Y() + 1 >= t.Height() then
      CursorIsReady(w, t, t.X(), t.Height() - 1);
      MoveCursor(t, t.X(), t.Height() - 1)
    else
      CursorIsReady(w, t, t.X(), t.Y() + 1);
      MoveCursor(t, t.X(), t.Y() + 1)
  }

  function ReverseIndex(w: Widths, t: Terminal): (r: Terminal)
    requires Ready(w, t)
    ensures Ready(w, r)
  {
    hide Steady;
    if t.Y() == t.begin then
      ScrollDownIsSteady(w, t.hosted, t.begin, t.size, 1);
      t.(hosted := ScrollDown(t.hosted, t.begin, t.size, 1))
    else if t.Y() > 0 then
      CursorIsReady(w, t, t.X(), t.Y() - 1);
      MoveCursor(t, t.X(), t.Y() - 1)
    else t
  }

  function NextLine(w: Widths, t: Terminal): (r: Terminal)
    requires Ready(w, t)
    ensures Ready(w, r) && SameParser(t, r)
  {
    CursorIsReady(w, t, 0, t.Y());
    Index(w, MoveCursor(t, 0, t.Y()))
  }

  function ScrollRegionUp(w: Widths, t: Terminal, y: nat, n: nat, k: nat): (r: Terminal)
    requires Ready(w, t) && y + n <= t.Height()
    ensures Ready(w, r) && SamePlace(t.hosted, r.hosted) && r == t.(hosted := r.hosted)
  {
    hide Steady;
    ScrollUpIsSteady(w, t.hosted, y, n, k);
    t.(hosted := ScrollUp(t.hosted, y, n, k))
  }

  function ScrollRegionDown(w: Widths, t: Terminal, y: nat, n: nat, k: nat): (r: Terminal)
    requires Ready(w, t) && y + n <= t.Height()
    ensures Ready(w, r) && SamePlace(t.hosted, r.hosted) && r == t.(hosted := r.hosted)
  {
    hide Steady;
    ScrollDownIsSteady(w, t.hosted, y, n, k);
    t.(hosted := ScrollDown(t.hosted, y, n, k))
  }

  function InsertLine(w: Widths, t: Terminal): (r: Terminal)
    requires Ready(w, t)
    ensures Ready(w, r)
  {
    hide Steady;
    var bottom := t.begin + t.size;
    if t.Y() < t.begin || t.Y() >= bottom then t
    else
      var r := ScrollRegionDown(w, t, t.Y(), bottom - t.Y(), Parameter(t, 0, 1));
      CursorIsReady(w, r, 0, r.Y());
      MoveCursor(r, 0, r.Y())
  }

  function DeleteLine(w: Widths, t: Terminal): (r: Terminal)
    requires Ready(w, t)
    ensures Ready(w, r)
  {
    hide Steady;
    var bottom := t.begin + t.size;
    if t.Y() < t.begin || t.Y() >= bottom then t
    else
      var r := ScrollRegionUp(w, t, t.Y(), bottom - t.Y(), Parameter(t, 0, 1));
      CursorIsReady(w, r, 0, r.Y());
      MoveCursor(r, 0, r.Y())
  }

  // Cursor motion.

  function Motion(w: Widths, t: Terminal, x: nat, y: nat): (r: Terminal)
    requires Ready(w, t) && y < t.Height() && (t.origin ==> t.begin <= y < t.begin + t.size)
    ensures Ready(w, r) && r == MoveCursor(t, x, y)
  {
    CursorIsReady(w, t, x, y);
    MoveCursor(t, x, y)
  }

  function InWidth(t: Terminal, x: nat): nat
    requires t.Width() > 0
  {
    if x >= t.Width() then t.Width() - 1 else x
  }

  function BackSpace(w: Widths, t: Terminal): (r: Terminal)
    requires Ready(w, t)
    ensures Ready(w, r) && SameParser(t, r)
  {
    hide Steady;
    var x := InWidth(t, t.X());
    Motion(w, t, if x > 0 then x - 1 else x, t.Y())
  }

  function CarriageReturn(w: Widths, t: Terminal): (r: Terminal)
    requires Ready(w, t)
    ensures Ready(w, r) && SameParser(t, r)
  {
    hide Steady;
    Motion(w, t, 0, t.Y())
  }

  function UpTo(t: Terminal): nat
    requires t.origin ==> t.begin <= t.Y()
  {
    var top := if t.origin then t.begin else 0;
    var p := Parameter(t, 0, 1);
    if p > t.Y() - top then top else t.Y() - p
  }

  function DownTo(t: Terminal): nat
    requires Bottom(t) > 0
  {
    var y := t.Y() + Parameter(t, 0, 1);
    if y >= Bottom(t) then Bottom(t) - 1 else y
  }

  function CursorUp(w: Widths, t: Terminal): (r: Terminal)
    requires Ready(w, t)
    ensures Ready(w, r)
  {
    hide Steady;
    Motion(w, t, t.X(), UpTo(t))
  }

  function CursorDown(w: Widths, t: Terminal): (r: Terminal)
    requires Ready(w, t)
    ensures Ready(w, r)
  {
    hide Steady;
    Motion(w, t, t.X(), DownTo(t))
  }

  function CursorForward(w: Widths, t: Terminal): (r: Terminal)
    requires Ready(w, t)
    ensures Ready(w, r)
  {
    hide Steady;
    Motion(w, t, InWidth(t, t.X() + Parameter(t, 0, 1)), t.Y())
  }

  function CursorBackward(w: Widths, t: Terminal): (r: Terminal)
    requires Ready(w, t)
    ensures Ready(w, r)
  {
    hide Steady;
    var p := Parameter(t, 0, 1);
    Motion(w, t, if p > t.X() then 0 else t.X() - p, t.Y())
  }

  function CursorColumn(w: Widths, t: Terminal, i: nat): (r: Terminal)
    requires Ready(w, t)
    ensures Ready(w, r)
  {
    hide Steady;
    Motion(w, t, InWidth(t, Parameter(t, i, 1) - 1), t.Y())
  }

  function CursorRow(w: Widths, t: Terminal): (r: Terminal)
    requires Ready(w, t)
    ensures Ready(w, r)
  {
    hide Steady;
    var y := Parameter(t, 0, 1) - 1 + (if t.origin then t.begin else 0);
    Motion(w, t, t.X(), if y >= Bottom(t) then Bottom(t) - 1 else y)
  }

  function RestoreSaved(w: Widths, t: Terminal): (r: Terminal)
    requires Ready(w, t)
    ensures Ready(w, r) && SameParser(t, r)
  {
    hide Steady;
    SaveCursorIsSteady(w, t.hosted);
    var h := RestoreCursor(t.hosted);
    var y := if h.screen.y >= Bottom(t) then Bottom(t) - 1 else h.screen.y;
    var y' := if t.origin && y < t.begin then t.begin else y;
    AtIsSteady(w, h, InWidth(t, h.screen.x), y');
    t.(hosted := At(h, InWidth(t, h.screen.x), y'))
  }

  // Tab stops.

  /** The next stop behind column x, or the last column. */
  function NextStop(tabs: seq<bool>, x: nat, width: nat): (r: nat)
    requires 0 < width <= |tabs|
    ensures r < width
    ensures r <= x ==> r == width - 1
    ensures forall i :: x < i < r ==> !tabs[i]
    ensures r < width - 1 ==> tabs[r]
    decreases width - x
  {
    if x + 1 >= width then width - 1
    else if tabs[x + 1] then x + 1
    else NextStop(tabs, x + 1, width)
  }

  function TabForward(w: Widths, t: Terminal): (r: Terminal)
    requires Ready(w, t)
    ensures Ready(w, r) && SameParser(t, r)
  {
    hide Steady;
    Motion(w, t, NextStop(t.tabs, t.X(), t.Width()), t.Y())
  }

  function TabSet(t: Terminal, on: bool): Terminal
    requires |t.tabs| >= t.Width()
  {
    if t.X() < t.Width() then t.(tabs := t.tabs[t.X() := on]) else t
  }

  function TabClear(t: Terminal): Terminal
    requires |t.tabs| >= t.Width()
  {
    var p := Parameter(t, 0, 0);
    if p == 0 then TabSet(t, false) else if p == 3 then t.(tabs := seq(|t.tabs|, _ => false)) else t
  }

  // Editing.

  function EraseRange(w: Widths, t: Terminal, x: nat, n: int, shift: bool): (r: Terminal)
    requires Ready(w, t) && (x < t.Width() ==> n >= 0)
    ensures Ready(w, r) && SamePlace(t.hosted, r.hosted) && r == t.(hosted := r.hosted)
  {
    hide Steady;
    EraseCellsIsSteady(w, t.hosted, x, t.Y(), n, shift);
    t.(hosted := EraseCells(t.hosted, x, t.Y(), n, shift))
  }

  function EraseLines(w: Widths, t: Terminal, y: nat, n: nat): (r: Terminal)
    requires Ready(w, t) && y + n <= t.Height()
    ensures Ready(w, r) && SamePlace(t.hosted, r.hosted) && r == t.(hosted := r.hosted)
  {
    hide Steady;
    EraseRowsIsSteady(w, t.hosted, y, n);
    t.(hosted := EraseRows(t.hosted, y, n))
  }

  /** The display from the cursor on. */
  function EraseBelow(w: Widths, t: Terminal): (r: Terminal)
    requires Ready(w, t)
    ensures Ready(w, r)
  {
    hide Steady;
    EraseLines(w, EraseRange(w, t, t.X(), t.Width() - t.X(), false), t.Y() + 1, t.Height() - t.Y() - 1)
  }

  /** The display up to the cursor. */
  function EraseAbove(w: Widths, t: Terminal): (r: Terminal)
    requires Ready(w, t)
    ensures Ready(w, r)
  {
    hide Steady;
    EraseRange(w, EraseLines(w, t, 0, t.Y()), 0, t.X() + 1, false)
  }

  function EraseDisplay(w: Widths, t: Terminal): (r: Terminal)
    requires Ready(w, t)
    ensures Ready(w, r)
  {
    hide Steady;
    var p := Parameter(t, 0, 0);
    if p == 0 then EraseBelow(w, t)
    else if p == 1 then EraseAbove(w, t)
    else if p == 2 then EraseLines(w, t, 0, t.Height())
    else t
  }

  function EraseLine(w: Widths, t: Terminal): (r: Terminal)
    requires Ready(w, t)
    ensures Ready(w, r)
  {
    hide Steady;
    var p := Parameter(t, 0, 0);
    if p == 0 then EraseRange(w, t, t.X(), t.Width() - t.X(), false)
    else if p == 1 then EraseRange(w, t, 0, t.X() + 1, false)
    else if p == 2 then EraseLines(w, t, t.Y(), 1)
    else t
  }

  function EraseCharacter(w: Widths, t: Terminal): (r: Terminal)
    requires Ready(w, t)
    ensures Ready(w, r)
  {
    hide Steady;
    var p := Parameter(t, 0, 1);
    EraseRange(w, t, t.X(), if t.X() + p > t.Width() then t.Width() - t.X() else p, false)
  }

  function DeleteCharacter(w: Widths, t: Terminal): (r: Terminal)
    requires Ready(w, t)
    ensures Ready(w, r)
  {
    hide Steady;
    EraseRange(w, t, t.X(), Parameter(t, 0, 1), true)
  }

  function InsertCharacter(w: Widths, t: Terminal): (r: Terminal)
    requires Ready(w, t)
    ensures Ready(w, r)
  {
    hide Steady;
    InsertCellsIsSteady(w, t.hosted, t.X(), t.Y(), Parameter(t, 0, 1));
    t.(hosted := InsertCells(t.hosted, t.X(), t.Y(), Parameter(t, 0, 1)))
  }

  /** A character that does not fit marks the row as wrapped and goes to the next. */
  function WrapLine(w: Widths, t: Terminal): (r: Terminal)
    requires Ready(w, t)
    ensures Ready(w, r) && SameParser(t, r)
  {
    hide Steady;
    WrapIsSteady(w, t.hosted, t.Y());
    NextLine(w, t.(hosted := Wrap(t.hosted, t.Y())))
  }

  function PutHere(w: Widths, t: Terminal, c: char): (r: Terminal)
    requires Ready(w, t) && c != NUL
    ensures Ready(w, r) && SameParser(t, r)
  {
    hide Steady;
    PutCellIsSteady(w, t.hosted, t.X(), t.Y(), Cell(c, t.hosted.screen.attribute), t.insert);
    var h := PutCell(t.hosted, t.X(), t.Y(), Cell(c, t.hosted.screen.attribute), w(c), t.insert);
    AtIsSteady(w, h, t.X() + w(c), t.Y());
    t.(hosted := At(h, t.X() + w(c), t.Y()))
  }

  function PutCharacter(w: Widths, t: Terminal, c: char): (r: Terminal)
    requires Ready(w, t) && c != NUL
    ensures Ready(w, r) && SameParser(t, r)
  {
    PutHere(w, if t.wraparound && t.X() + w(c) > t.Width() then WrapLine(w, t) else t, c)
  }

  /** The screen alignment pattern: row by row, from column x of row y on. */
  function Align(w: Widths, t: Terminal, x: nat, y: nat): (r: Terminal)
    requires Ready(w, t) && y <= t.Height()
    ensures Ready(w, r) && SameParser(t, r)
    decreases t.Height() - y, t.Width() - x
  {
    hide Steady;
    if y == t.Height() then t
    else if x >= t.Width() then Align(w, t, 0, y + 1)
    else
      PutCellIsSteady(w, t.hosted, x, y, Cell('E', t.hosted.screen.attribute), false);
      Align(w, t.(hosted := PutCell(t.hosted, x, y, Cell('E', t.hosted.screen.attribute), w('E'), false)), x + 1, y)
  }

  // Modes and margins.

  /** What scroll region a request asks for: its first row and the row behind its last. */
  function RegionBegin(t: Terminal): int {
    var p := Parameter(t, 0, 1) - 1;
    if p < t.Height() - 2 then p else t.Height() - 2
  }

  function RegionEnd(t: Terminal): int {
    var p := Parameter(t, 1, -1);
    var end := if p < 0 then t.Height() else p;
    if end > RegionBegin(t) + 2 then end else RegionBegin(t) + 2
  }

  ghost predicate RegionFits(t: Terminal) {
    t.Height() >= 2 && Parameter(t, 1, -1) <= t.Height()
  }

  /** The margins of a request are a region of the screen exactly when they are not asked to be below it. */
  lemma RegionIsInsideIff(t: Terminal)
    requires t.Height() > 0
    ensures 0 <= RegionBegin(t) < RegionEnd(t) <= t.Height() <==> RegionFits(t)
  {
  }

  /** A bottom margin below the screen is taken as it is. */
  lemma RegionBelowScreen(t: Terminal)
    requires t.Height() == 24 && t.parameters == [1, 30]
    ensures RegionBegin(t) == 0 && RegionEnd(t) == 30
  {
    assert Parameter(t, 0, 1) == 1 && Parameter(t, 1, -1) == 30;
  }

  function SetRegion(w: Widths, t: Terminal): (r: Terminal)
    requires Ready(w, t) && RegionFits(t)
    ensures Ready(w, r)
  {
    hide Steady;
    RegionIsInsideIff(t);
    var y := if t.origin then RegionBegin(t) else 0;
    AtIsSteady(w, t.hosted, 0, y);
    t.(begin := RegionBegin(t), size := RegionEnd(t) - RegionBegin(t), hosted := At(t.hosted, 0, y))
  }

  function WholeRegion(t: Terminal): Terminal {
    t.(begin := 0, size := t.Height())
  }

  lemma WholeRegionIsReady(w: Widths, t: Terminal)
    requires Ready(w, t)
    ensures Ready(w, WholeRegion(t))
  {
    hide Steady;
  }

  function EraseAll(w: Widths, t: Terminal): (r: Terminal)
    requires Ready(w, t)
    ensures Ready(w, r) && SameParser(t, r) && r == EraseLines(w, t, 0, t.Height())
  {
    EraseLines(w, t, 0, t.Height())
  }

  function SetAlternate(w: Widths, t: Terminal, on: bool): (r: Terminal)
    requires Ready(w, t)
    ensures Ready(w, r) && SameParser(t, r)
  {
    hide Steady;
    AlternateIsSteady(w, t.hosted, on);
    t.(hosted := Alternate(t.hosted, on))
  }

  function Save(w: Widths, t: Terminal): (r: Terminal)
    requires Ready(w, t)
    ensures Ready(w, r) && SameParser(t, r)
  {
    hide Steady;
    SaveCursorIsSteady(w, t.hosted);
    t.(hosted := SaveCursor(t.hosted))
  }

  /** The cursor to the top left corner, with the margins off. */
  function Home(w: Widths, t: Terminal): (r: Terminal)
    requires Ready(w, t)
    ensures Ready(w, r) && SameParser(t, r)
  {
    WholeRegionIsReady(w, t);
    Motion(w, WholeRegion(t), 0, 0)
  }

  function OriginMode(w: Widths, t: Terminal, on: bool): (r: Terminal)
    requires Ready(w, t)
    ensures Ready(w, r) && SameParser(t, r)
  {
    hide Steady;
    var y := if on then t.begin else 0;
    AtIsSteady(w, t.hosted, 0, y);
    t.(origin := on, hosted := At(t.hosted, 0, y))
  }

  /** To the other screen and back: the cursor is saved before and restored behind. */
  function SwitchScreen(w: Widths, t: Terminal, on: bool): (r: Terminal)
    requires Ready(w, t)
    ensures Ready(w, r) && SameParser(t, r)
  {
    hide Steady;
    if on then Home(w, EraseAll(w, SetAlternate(w, Save(w, t), true)))
    else
      var r := RestoreSaved(w, SetAlternate(w, t, false));
      WholeRegionIsReady(w, r);
      WholeRegion(r)
  }

  function PrivateMode(w: Widths, t: Terminal, p: int, on: bool): (r: Terminal)
    requires Ready(w, t)
    ensures Ready(w, r) && SameParser(t, r)
  {
    hide Steady;
    if p == 1 then t.(applicationCursor := on)
    else if p == 3 then EraseAll(w, Home(w, t))
    else if p == 6 then OriginMode(w, t, on)
    else if p == 7 then t.(wraparound := on)
    else if p == 1049 then SwitchScreen(w, t, on)
    else t
  }

  function Modes(w: Widths, t: Terminal, ps: seq<int>, on: bool): (r: Terminal)
    requires Ready(w, t)
    ensures Ready(w, r)
    decreases |ps|
  {
    if ps == [] then t
    else
      match t.kind
      case Primary =>
        assert Ready(w, t.(insert := on)) by { hide Steady; }
        Modes(w, if ps[0] == 4 then t.(insert := on) else t, ps[1..], on)
      case Secondary => t
      case Private => Modes(w, PrivateMode(w, t, ps[0], on), ps[1..], on)
  }

  // Attributes.

  function SetAttribute(a: Attribute, p: int): Attribute {
    if p == -1 || p == 0 then PLAIN
    else if p == 1 then a.(bold := true)
    else if p == 2 then a.(faint := true)
    else if p == 4 then a.(underlined := true)
    else if p == 5 then a.(blink := true)
    else if p == 7 then a.(inverse := true)
    else if p == 22 then a.(bold := false, faint := false)
    else if p == 24 then a.(underlined := false)
    else if p == 25 then a.(blink := false)
    else if p == 27 then a.(inverse := false)
    else if 30 <= p <= 37 then a.(foreground := p - 28)
    else if p == 39 then a.(foreground := 0)
    else if 40 <= p <= 47 then a.(background := p - 38)
    else if p == 49 then a.(background := 1)
    else a
  }

  function SetAttributes(a: Attribute, ps: seq<int>): Attribute
    decreases |ps|
  {
    if ps == [] then a else SetAttributes(SetAttribute(a, ps[0]), ps[1..])
  }

  /** Without parameters, as with the single parameter -1, which is then there. */
  function Attributes(w: Widths, t: Terminal): (r: Terminal)
    requires Ready(w, t)
    ensures Ready(w, r)
  {
    hide Steady;
    var ps := if t.parameters == [] then [-1] else t.parameters;
    var a := SetAttributes(t.hosted.screen.attribute, ps);
    AttributeIsSteady(w, t.hosted, a);
    t.(hosted := WithAttribute(t.hosted, a), parameters := ps)
  }

  // The parser.

  /** The final character of a control sequence. */
  function Sequence(w: Widths, t: Terminal, c: char): (r: Terminal)
    requires Ready(w, t) && (c == 'r' ==> RegionFits(t))
    ensures Ready(w, r)
  {
    hide Steady;
    match c
    case '@' => InsertCharacter(w, t)
    case 'A' => CursorUp(w, t)
    case 'B' => CursorDown(w, t)
    case 'C' => CursorForward(w, t)
    case 'D' => CursorBackward(w, t)
    case 'E' => CarriageReturn(w, CursorDown(w, t))
    case 'F' => CarriageReturn(w, CursorUp(w, t))
    case 'G' => CursorColumn(w, t, 0)
    case 'H' => CursorColumn(w, CursorRow(w, t), 1)
    case 'J' => EraseDisplay(w, t)
    case 'K' => EraseLine(w, t)
    case 'L' => InsertLine(w, t)
    case 'M' => DeleteLine(w, t)
    case 'P' => DeleteCharacter(w, t)
    case 'S' => ScrollRegionUp(w, t, t.begin, t.size, Parameter(t, 0, 1))
    case 'T' => ScrollRegionDown(w, t, t.begin, t.size, Parameter(t, 0, 1))
    case 'X' => EraseCharacter(w, t)
    case 'd' => CursorRow(w, t)
    case 'f' => CursorColumn(w, CursorRow(w, t), 1)
    case 'g' => TabClear(t)
    case 'h' => Modes(w, t, t.parameters, true)
    case 'l' => Modes(w, t, t.parameters, false)
    case 'm' => if t.kind == Primary then Attributes(w, t) else t
    case 'r' => SetRegion(w, t)
    case _ => t
  }

  const ESC: char := 27 as char
  const BEL: char := 7 as char
  const BS: char := 8 as char
  const HT: char := 9 as char
  const LF: char := 10 as char
  const VT: char := 11 as char
  const FF: char := 12 as char
  const CR: char := 13 as char

  function Control(w: Widths, t: Terminal, c: char): (r: Terminal)
    requires Ready(w, t)
    ensures Ready(w, r)
  {
    hide Steady;
    if c == BS then BackSpace(w, t)
    else if c == HT then TabForward(w, t)
    else if c == LF || c == VT || c == FF then Index(w, t)
    else if c == CR then CarriageReturn(w, t)
    else if c == ESC then t.(parser := Escape)
    else t
  }

  predicate IsDigit(c: char) {
    '0' <= c <= '9'
  }

  /** The parser as a whole: every state but Default takes its characters here. */
  function EscapeKey(w: Widths, t: Terminal, c: char): (r: Terminal)
    requires Ready(w, t)
    ensures Ready(w, r) && r.parser != CsiDigit
  {
    hide Steady;
    match c
    case '#' => t.(parser := EscapeSharp)
    case '(' => t.(parser := DesignateG0)
    case 'P' => t.(parser := DeviceControl)
    case '[' => t.(kind := Primary, parameters := [], parser := Csi)
    case ']' => t.(parser := OperatingSystem)
    case '7' => Save(w, t).(parser := Default)
    case '8' => RestoreSaved(w, t).(parser := Default)
    case '=' => t.(applicationKeypad := true, parser := Default)
    case '>' => t.(applicationKeypad := false, parser := Default)
    case 'D' => Index(w, t).(parser := Default)
    case 'E' => NextLine(w, t).(parser := Default)
    case 'H' => TabSet(t, true).(parser := Default)
    case 'M' => ReverseIndex(w, t).(parser := Default)
    case _ => t.(parser := Default)
  }

  function SharpKey(w: Widths, t: Terminal, c: char): (r: Terminal)
    requires Ready(w, t)
    ensures Ready(w, r)
  {
    hide Steady;
    (if c == '8' then Align(w, t, 0, 0) else t).(parser := Default)
  }

  function Final(w: Widths, t: Terminal, c: char): (r: Terminal)
    requires Ready(w, t) && (c == 'r' ==> RegionFits(t))
    ensures Ready(w, r)
  {
    hide Steady;
    Sequence(w, t, c).(parser := Default)
  }

  /** The parameters as the final character would find them. */
  function Delivered(t: Terminal): Terminal {
    if t.parser == CsiDigit then t.(parameters := t.parameters + [t.digits]) else t
  }

  /** Whether a character is the final one of a control sequence. */
  predicate IsFinal(cfg: Config, t: Terminal, c: char) {
    !cfg.isControl(c) && !IsDigit(c) && c != ';'
    && (t.parser == CsiParameter || t.parser == CsiDigit || (t.parser == Csi && c != '>' && c != '?'))
  }

  /** What the terminal can take: no more than sixteen parameters, and margins inside the screen. */
  ghost predicate Accepts(cfg: Config, t: Terminal, c: char) {
    && ((t.parser == Csi || t.parser == CsiParameter) && !cfg.isControl(c) && (IsDigit(c) || c == ';') ==>
          |t.parameters| < PARAMETERS)
    && (IsFinal(cfg, t, c) && c == 'r' ==> RegionFits(Delivered(t)))
  }

  function CsiKey(cfg: Config, t: Terminal, c: char): (r: Terminal)
    requires Ready(cfg.w, t) && !cfg.isControl(c) && (IsFinal(cfg, t, c) && c == 'r' ==> RegionFits(Delivered(t)))
    requires t.parser == Csi || t.parser == CsiParameter || t.parser == CsiDigit
    ensures Ready(cfg.w, r)
  {
    hide Steady;
    if IsDigit(c) then
      var d := c as int - '0' as int;
      t.(digits := if t.parser == CsiDigit then t.digits * 10 + d else d, parser := CsiDigit)
    else if c == ';' then
      t.(parameters := t.parameters + [if t.parser == CsiDigit then t.digits else -1], parser := CsiParameter)
    else if t.parser == Csi && c == '>' then t.(kind := Secondary, parser := CsiParameter)
    else if t.parser == Csi && c == '?' then t.(kind := Private, parser := CsiParameter)
    else Final(cfg.w, Delivered(t), c)
  }

  /** Device and operating system controls are read to their end and dropped. */
  function Skip(t: Terminal, c: char): Terminal {
    match t.parser
    case DeviceControl => if c == ESC then t.(parser := DeviceControlEscape) else t
    case DeviceControlEscape => t.(parser := if c == '\\' then Default else DeviceControl)
    case OperatingSystem =>
      if c == BEL then t.(parser := Default) else if c == ESC then t.(parser := OperatingSystemEscape) else t
    case OperatingSystemEscape => t.(parser := if c == '\\' then Default else OperatingSystem)
    case _ => t
  }

  /** Inside a device or operating system control every character is text to be skipped. */
  predicate Skips(t: Terminal) {
    t.parser == DeviceControl || t.parser == DeviceControlEscape || t.parser == OperatingSystem
    || t.parser == OperatingSystemEscape
  }

  lemma SkipIsReady(w: Widths, t: Terminal, c: char)
    requires Ready(w, t)
    ensures Ready(w, Skip(t, c))
  {
    hide Steady;
  }

  /** A character that is not a control. */
  function Key(cfg: Config, t: Terminal, c: char): (r: Terminal)
    requires ConfigOk(cfg) && Ready(cfg.w, t) && Accepts(cfg, t, c) && !Skips(t) && !cfg.isControl(c)
    ensures Ready(cfg.w, r)
  {
    hide Steady;
    if t.parser == Default then PutCharacter(cfg.w, t, c)
    else if t.parser == Escape then EscapeKey(cfg.w, t, c)
    else if t.parser == EscapeSharp then SharpKey(cfg.w, t, c)
    else if t.parser == DesignateG0 then t.(parser := Default)
    else CsiKey(cfg, t, c)
  }

  /** operator(): one character. */
  function Feed(cfg: Config, t: Terminal, c: char): (r: Terminal)
    requires ConfigOk(cfg) && Ready(cfg.w, t) && Accepts(cfg, t, c)
    ensures Ready(cfg.w, r)
  {
    hide Ready;
    if Skips(t) then
      SkipIsReady(cfg.w, t, c);
      Skip(t, c)
    else if cfg.isControl(c) then Control(cfg.w, t, c)
    else Key(cfg, t, c)
  }
}
