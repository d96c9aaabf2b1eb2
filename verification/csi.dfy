/**
 Control sequences as they are written and read (vt/terminal.h, the CSI states): printing any list of
 parameters in decimal and feeding it to the parser hands the same list to the final character
 (section 5.4 of ECMA-48).
 */
module ControlSequences {
  import opened Rows
  import opened Screens
  import opened ScreenSteps
  import opened TerminalModel
  import opened TerminalRuns
  import opened TerminalEffects

  function Digit(d: nat): char
    requires d < 10
  {
    '0' + d as char
  }

  function Decimal(n: nat): (r: string)
    ensures r != ""
  {
    if n < 10 then [Digit(n)] else Decimal(n / 10) + [Digit(n % 10)]
  }

  /** An omitted parameter is -1 and printed as nothing. */
  function Field(p: int): string {
    if p < 0 then "" else Decimal(p)
  }

  function Printed(ps: seq<int>): string
    decreases |ps|
  {
    if ps == [] then ""
    else if |ps| == 1 then Field(ps[0])
    else Field(ps[0]) + ";" + Printed(ps[1..])
  }

  /** Parameters as they can be written: the last one is not omitted. */
  predicate Writable(ps: seq<int>) {
    (forall i :: 0 <= i < |ps| ==> ps[i] >= -1) && (ps != [] ==> ps[|ps| - 1] >= 0)
  }

  predicate BeforeParameter(t: Terminal) {
    t.parser == Csi || t.parser == CsiParameter
  }

  // Feeding one text after another.

  lemma {:induction false} FeedTwo(cfg: Config, t: Terminal, a: string, b: string)
    requires ConfigOk(cfg) && Ready(cfg.w, t) && AcceptsAll(cfg, t, a) && AcceptsAll(cfg, FeedAll(cfg, t, a), b)
    ensures AcceptsAll(cfg, t, a + b) && FeedAll(cfg, t, a + b) == FeedAll(cfg, FeedAll(cfg, t, a), b)
    decreases |a|
  {
    hide Ready, Accepts, Feed;
    if a == "" {
      assert a + b == b;
    } else {
      FeedTwo(cfg, Feed(cfg, t, a[0]), a[1..], b);
      assert (a + b)[0] == a[0] && (a + b)[1..] == a[1..] + b;
    }
  }

  lemma FeedOne(cfg: Config, t: Terminal, c: char)
    requires ConfigOk(cfg) && Ready(cfg.w, t) && Accepts(cfg, t, c)
    ensures AcceptsAll(cfg, t, [c]) && FeedAll(cfg, t, [c]) == Feed(cfg, t, c)
  {
    hide Ready, Accepts, Feed;
    assert [c][1..] == "";
    assert AcceptsAll(cfg, Feed(cfg, t, c), "");
  }

  // Parameters.

  lemma FeedDigit(cfg: Config, t: Terminal, d: nat)
    requires ConfigOk(cfg) && Ready(cfg.w, t) && d < 10
    requires (BeforeParameter(t) && |t.parameters| < PARAMETERS) || t.parser == CsiDigit
    ensures Accepts(cfg, t, Digit(d))
    ensures Feed(cfg, t, Digit(d))
         == t.(digits := if t.parser == CsiDigit then t.digits * 10 + d else d, parser := CsiDigit)
  {
    hide Ready;
    assert IsDigit(Digit(d)) && !cfg.isControl(Digit(d));
  }

  lemma FeedSemicolon(cfg: Config, t: Terminal)
    requires ConfigOk(cfg) && Ready(cfg.w, t)
    requires (BeforeParameter(t) && |t.parameters| < PARAMETERS) || t.parser == CsiDigit
    ensures Accepts(cfg, t, ';')
    ensures Feed(cfg, t, ';')
         == t.(parameters := t.parameters + [if t.parser == CsiDigit then t.digits else -1], parser := CsiParameter)
  {
    hide Ready;
    assert !IsDigit(';') && !cfg.isControl(';');
  }

  lemma {:induction false} FeedDecimal(cfg: Config, t: Terminal, n: nat)
    requires ConfigOk(cfg) && Ready(cfg.w, t) && BeforeParameter(t) && |t.parameters| < PARAMETERS
    ensures AcceptsAll(cfg, t, Decimal(n)) && FeedAll(cfg, t, Decimal(n)) == t.(digits := n, parser := CsiDigit)
  {
    hide Ready, Accepts, Feed, AcceptsAll, FeedAll;
    if n < 10 {
      FeedDigit(cfg, t, n);
      FeedOne(cfg, t, Digit(n));
    } else {
      FeedDecimal(cfg, t, n / 10);
      var u := FeedAll(cfg, t, Decimal(n / 10));
      FeedDigit(cfg, u, n % 10);
      FeedOne(cfg, u, Digit(n % 10));
      FeedTwo(cfg, t, Decimal(n / 10), [Digit(n % 10)]);
    }
  }

  /** One parameter and the semicolon behind it. */
  lemma FeedField(cfg: Config, t: Terminal, p: int)
    requires ConfigOk(cfg) && Ready(cfg.w, t) && BeforeParameter(t) && |t.parameters| < PARAMETERS && p >= -1
    ensures AcceptsAll(cfg, t, Field(p) + ";")
    ensures FeedAll(cfg, t, Field(p) + ";")
         == t.(parameters := t.parameters + [p], parser := CsiParameter, digits := if p < 0 then t.digits else p)
  {
    hide Ready, Accepts, Feed, AcceptsAll, FeedAll, Decimal;
    if p < 0 {
      FeedSemicolon(cfg, t);
      FeedOne(cfg, t, ';');
      assert Field(p) + ";" == ";";
    } else {
      FeedDecimal(cfg, t, p);
      var u := FeedAll(cfg, t, Decimal(p));
      FeedSemicolon(cfg, u);
      FeedOne(cfg, u, ';');
      FeedTwo(cfg, t, Decimal(p), ";");
    }
  }

  /** All parameters: those before the last are complete, the last is being read. */
  lemma {:induction false} FeedParameters(cfg: Config, t: Terminal, ps: seq<int>)
    requires ConfigOk(cfg) && Ready(cfg.w, t) && BeforeParameter(t)
    requires ps != [] && Writable(ps) && |t.parameters| + |ps| <= PARAMETERS
    ensures AcceptsAll(cfg, t, Printed(ps))
    ensures var n := |ps| - 1;
            FeedAll(cfg, t, Printed(ps))
            == t.(parameters := t.parameters + ps[..n], digits := ps[n], parser := CsiDigit)
    decreases |ps|
  {
    hide Ready, Accepts, Feed, AcceptsAll, FeedAll, Decimal, Field;
    var n := |ps| - 1;
    if n == 0 {
      assert Field(ps[0]) == Decimal(ps[0]) by { FieldIs(ps[0]); }
      FeedDecimal(cfg, t, ps[0]);
      assert t.parameters + ps[..0] == t.parameters;
    } else {
      FeedField(cfg, t, ps[0]);
      var u := FeedAll(cfg, t, Field(ps[0]) + ";");
      FeedParameters(cfg, u, ps[1..]);
      FeedTwo(cfg, t, Field(ps[0]) + ";", Printed(ps[1..]));
      assert t.parameters + [ps[0]] + ps[1..][..n - 1] == t.parameters + ps[..n];
    }
  }

  lemma FieldIs(p: int)
    ensures p >= 0 ==> Field(p) == Decimal(p)
  {
  }

  /** The parser has read a whole list of parameters. */
  lemma ParametersAreDelivered(cfg: Config, t: Terminal, ps: seq<int>)
    requires ConfigOk(cfg) && Ready(cfg.w, t) && BeforeParameter(t) && t.parameters == []
    requires Writable(ps) && |ps| <= PARAMETERS
    ensures AcceptsAll(cfg, t, Printed(ps))
    ensures var u := FeedAll(cfg, t, Printed(ps));
            && Delivered(u).parameters == ps
            && u.(parameters := [], digits := t.digits, parser := t.parser) == t
            && (u.parser == CsiDigit || u == t)
  {
    hide Ready, Accepts, Feed, Decimal, Field;
    if ps != [] {
      FeedParameters(cfg, t, ps);
      assert [] + ps[..|ps| - 1] + [ps[|ps| - 1]] == ps;
    }
  }

  /** The mark of a secondary or private control sequence. */
  function Mark(kind: Kind): string {
    match kind
    case Primary => ""
    case Secondary => ">"
    case Private => "?"
  }

  /** A control sequence as a program writes it. */
  function Written(kind: Kind, ps: seq<int>, final: char): string {
    [ESC, '['] + Mark(kind) + Printed(ps) + [final]
  }

  predicate IsFinalCharacter(c: char) {
    '@' <= c <= '~'
  }

  lemma Introduced(cfg: Config, t: Terminal, kind: Kind)
    requires ConfigOk(cfg) && Ready(cfg.w, t) && t.parser == Default
    ensures var intro := [ESC, '['] + Mark(kind);
            && AcceptsAll(cfg, t, intro)
            && FeedAll(cfg, t, intro)
               == t.(kind := kind, parameters := [], parser := if kind == Primary then Csi else CsiParameter)
  {
    hide Ready, AcceptsAll, FeedAll;
    FeedOne(cfg, t, ESC);
    var u := Feed(cfg, t, ESC);
    FeedOne(cfg, u, '[');
    FeedTwo(cfg, t, [ESC], ['[']);
    assert [ESC] + ['['] == [ESC, '['];
    var v := Feed(cfg, u, '[');
    if kind == Primary {
      assert [ESC, '['] + "" == [ESC, '['];
    } else {
      FeedOne(cfg, v, Mark(kind)[0]);
      FeedTwo(cfg, t, [ESC, '['], Mark(kind));
    }
  }

  /** What the final character finds. */
  function Reads(t: Terminal, kind: Kind, ps: seq<int>): Terminal {
    t.(kind := kind, parameters := ps,
       parser := if ps != [] then CsiDigit else if kind == Primary then Csi else CsiParameter,
       digits := if ps != [] then ps[|ps| - 1] else t.digits)
  }

  /** The whole sequence does what its final character does with exactly the parameters written. */
  lemma SequenceIsDelivered(cfg: Config, t: Terminal, kind: Kind, ps: seq<int>, final: char)
    requires ConfigOk(cfg) && Ready(cfg.w, t) && t.parser == Default
    requires Writable(ps) && |ps| <= PARAMETERS && IsFinalCharacter(final)
    requires final == 'r' ==> RegionFits(Reads(t, kind, ps))
    ensures Ready(cfg.w, Reads(t, kind, ps)) && AcceptsAll(cfg, t, Written(kind, ps, final))
    ensures FeedAll(cfg, t, Written(kind, ps, final))
         == Sequence(cfg.w, Reads(t, kind, ps), final).(parser := Default)
  {
    hide Ready, Accepts, Feed, AcceptsAll, FeedAll, Decimal, Printed, Sequence;
    var intro, u := [ESC, '['] + Mark(kind), Reads(t, kind, ps);
    Introduced(cfg, t, kind);
    var t1 := FeedAll(cfg, t, intro);
    ParametersAreDelivered(cfg, t1, ps);
    var t2 := FeedAll(cfg, t1, Printed(ps));
    FeedTwo(cfg, t, intro, Printed(ps));
    assert Delivered(t2) == u;
    FinalStep(cfg, t2, u, final);
    FeedOne(cfg, t2, final);
    FeedTwo(cfg, t, intro + Printed(ps), [final]);
  }

  lemma FinalStep(cfg: Config, t: Terminal, u: Terminal, final: char)
    requires ConfigOk(cfg) && Ready(cfg.w, t) && IsFinalCharacter(final) && u == Delivered(t)
    requires BeforeParameter(t) || t.parser == CsiDigit
    requires final == 'r' ==> RegionFits(u)
    ensures Ready(cfg.w, u) && Accepts(cfg, t, final)
      && Feed(cfg, t, final) == Sequence(cfg.w, u, final).(parser := Default)
  {
    FinalIsFinal(cfg, t, final);
    FinalIs(cfg, t, final);
    hide *;
    KeyIsFed(cfg, t, final);
  }

  lemma FinalIsFinal(cfg: Config, t: Terminal, final: char)
    requires ConfigOk(cfg) && IsFinalCharacter(final) && (final == 'r' ==> RegionFits(Delivered(t)))
    requires BeforeParameter(t) || t.parser == CsiDigit
    ensures !cfg.isControl(final) && IsFinal(cfg, t, final) && Accepts(cfg, t, final) && !Skips(t)
    ensures t.parser == Csi || t.parser == CsiParameter || t.parser == CsiDigit
    ensures t.parser != Default
  {
    hide RegionFits;
    assert !cfg.isControl(final) && !IsDigit(final) && final != ';' && final != '>' && final != '?';
  }

  /** The screen with other cells in a row of the screen in use. */
  function WithCells(s: Screen, y: nat, cells: seq<Cell>): Screen
    requires y < |s.Rows()|
  {
    s.WithRows(s.Rows()[y := s.Rows()[y].(cells := cells)])
  }

  lemma CellsTwice(s: Screen, y: nat, a: seq<Cell>, b: seq<Cell>)
    requires y < |s.Rows()|
    ensures var t := WithCells(s, y, a);
            && |t.Rows()| == |s.Rows()| && t.Rows()[y].cells == a && t.x == s.x && t.y == s.y && t.width == s.width
            && WithCells(t, y, b) == WithCells(s, y, b)
    ensures WithCells(s, y, s.Rows()[y].cells) == s
  {
    assert s.Rows()[y := s.Rows()[y].(cells := a)][y := s.Rows()[y].(cells := b)]
      == s.Rows()[y := s.Rows()[y].(cells := b)];
    assert s.Rows()[y := s.Rows()[y]] == s.Rows();
  }

  /** CSI n @ and then CSI n P, as the parser takes them, leave the row up to what was pushed out. */
  lemma InsertThenDelete(cfg: Config, t: Terminal, n: nat)
    requires ConfigOk(cfg) && Ready(cfg.w, t) && t.parser == Default && t.X() < t.Width() && n > 0
    ensures var keys := Written(Primary, [n], '@') + Written(Primary, [n], 'P');
            && AcceptsAll(cfg, t, keys) && t.Y() < |t.hosted.screen.Rows()| && Led(t.hosted.screen.Rows()[t.Y()].cells)
            && FeedAll(cfg, t, keys).hosted.screen
               == WithCells(t.hosted.screen, t.Y(),
                    Fitted(Opened(t.hosted.screen.Rows()[t.Y()].cells, t.X()),
                      if t.X() + n >= t.Width() then t.X() else t.Width() - n))
  {
    hide Ready, AcceptsAll, FeedAll, Written, Sequence, WithCells, InsertBlanks, Erase;
    var w := cfg.w;
    var u := Reads(t, Primary, [n]);
    SequenceIsDelivered(cfg, t, Primary, [n], '@');
    InsertIs(w, u);
    var t1 := Sequence(w, u, '@').(parser := Default);
    var v := Reads(t1, Primary, [n]);
    SequenceIsDelivered(cfg, t1, Primary, [n], 'P');
    DeleteIs(w, v);
    FeedTwo(cfg, t, Written(Primary, [n], '@'), Written(Primary, [n], 'P'));
    var s := t.hosted.screen;
    var row := s.Rows()[s.y].cells;
    var inserted := InsertBlanks(row, s.x, n, s.width);
    CellsTwice(s, s.y, inserted, Erase(inserted, s.x, n, true));
    DeleteUndoesInsert(row, s.x, n, s.width);
  }

  lemma InsertIs(w: Widths, t: Terminal)
    requires Ready(w, t) && |t.parameters| == 1 && t.parameters[0] > 0
    ensures var s, r := t.hosted.screen, Sequence(w, t, '@');
            && s.y < |s.Rows()| && LineLed(s.Rows()[s.y], s.width)
            && r.hosted.screen == WithCells(s, s.y, InsertBlanks(s.Rows()[s.y].cells, s.x, t.parameters[0], s.width))
            && r == t.(hosted := r.hosted)
  {
    hide Steady, InsertBlanks;
    InsertCellsIsSteady(w, t.hosted, t.X(), t.Y(), t.parameters[0]);
    var s := t.hosted.screen;
    CellsTwice(s, s.y, [], []);
    if s.x >= s.width { InsertNothing(s.Rows()[s.y].cells, s.x, t.parameters[0], s.width); }
  }

  lemma InsertNothing(s: seq<Cell>, x: nat, n: nat, width: nat)
    requires Led(s) && |s| <= width
    ensures x >= width ==> InsertBlanks(s, x, n, width) == s
    ensures x >= |s| ==> Erase(s, x, n, true) == s
  {
  }

  lemma DeleteIs(w: Widths, t: Terminal)
    requires Ready(w, t) && |t.parameters| == 1 && t.parameters[0] > 0
    ensures var s, r := t.hosted.screen, Sequence(w, t, 'P');
            && s.y < |s.Rows()| && LineLed(s.Rows()[s.y], s.width)
            && r.hosted.screen == WithCells(s, s.y, Erase(s.Rows()[s.y].cells, s.x, t.parameters[0], true))
            && r == t.(hosted := r.hosted)
  {
    hide Steady, Erase;
    EraseCellsIsSteady(w, t.hosted, t.X(), t.Y(), t.parameters[0], true);
    var s := t.hosted.screen;
    CellsTwice(s, s.y, [], []);
    InsertNothing(s.Rows()[s.y].cells, s.x, t.parameters[0], s.width);
  }
}
