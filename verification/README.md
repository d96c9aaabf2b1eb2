# Models of xade's terminal and kana-kanji input

This project models the three stateful cores of the repository and proves what they are for.

- **The input engine** (`im/engine.cc`, with the host's copy of the preedit in `im/main.cc`). The
  engine never sends the whole preedit: it sends splices. A value model (`EngineModel`) says what
  the user composes: levels of nested registrations, a pending romaji path, candidates. The class
  `EngineClass.Engine` keeps what the program keeps, one shared buffer, offsets per level, and the
  copy the host splices, and every method is proved to lead from the display of one value to the
  display of the next. Whatever is typed, the host shows exactly what the engine means.
- **The dictionary** (`im/basic_dictionary.cc`). A file whose lines first descend and then ascend is
  searched by halving byte offsets; the private file is written with escapes and read by a lexer;
  a choice moves to the front of its list. `DictionaryFile`, `DictionaryText`, `DictionaryStore` and
  `Dictionaries` go from bytes to answers, `DictionaryRoundTrip` from the maps to a file and back;
  `Learning` runs the engine over this dictionary.
- **The terminal** (`vt/buffer.h`, `vt/terminal.h`, the part of `vt/window.cc` that does not draw
  glyphs). Rows are arrays of cells edited in place (`RowArrays.Row`, against the functions of
  `Rows`); a fixed pool of row objects circulates between the log and two screens
  (`Buffers.Buffer`, against `Screens`); the escape sequence parser drives it
  (`Terminals.Terminal`, against `TerminalModel`); and the window moves pixels instead of drawing
  (`Windows.Window`, against `Damage` and `Drawing`). `TerminalRuns` states over whole runs that the
  lines held valid are the lines a full redraw would draw, `TerminalHistory` that the log is the last
  rows pushed, and `Sessions` carries such runs out on the objects.

What the functions of the models compute is said a second time, in terms of what a user or a program
sees. `EngineKeys` says for every key which kana it gives, where they go, what is sent and what is
learned; `SequenceEffects`, `RegionEffects`, `ModeEffects` and `EscapeEffects` say for every control
sequence as it is written, every escape and every character where the cursor lands, which columns and
rows change and how; `RowEffects` says so of one row, column by column.

## How a class and its model fit together

Where the source updates fields, arrays and lists in place, so do the classes here. Each of their
methods promises that the value the object stands for afterwards is the value of one model operation
on the value it stood for before. The operations are functions in `EngineModel`, `DictionaryStore`,
`Rows`, `Screens`, `Damage` and `TerminalModel`; what they change, and what the source promises, is
proved about them as lemmas, and so holds of the objects. In the table a class method's row therefore says which operation
it carries out, and the rows of the lemmas say what that operation is good for.

## Where the code does less than it seems to

- Saving and loading the private dictionary gives the same dictionary back if and only if it is clean
  and its okurigana are plain (`DictionaryRoundTrip.SaveThenLoad`). Clean: no space in a key, no newline
  anywhere, and no okuri-ari key that begins with a semicolon. Such a key is written at the start of a
  line, where the loader takes a semicolon for the end of the okuri-ari part;
  `DictionaryRoundTrip.SemicolonEntryIsLost` is what is learned for one and lost. Plain: none of `/`,
  `;`, `\` and newline in an okurigana, which is written as it is, though a name with an escape is read;
  `DictionaryRoundTrip.SlashOkuriIsLost` is a file that loads and does not survive being saved.
- The okuri-ari half of a dictionary file is searched up to an offset inside the separator line, so the
  key `;;` of that line is found there as well (`DictionaryFile.File.SeekKey`). It does no harm: the
  line has no texts (`Dictionaries.Shape.ItemsFound`).
- A scroll region is not clamped to the screen. It is a region of the screen if and only if the screen
  has two rows and the bottom margin asked for is not below it (`TerminalModel.RegionIsInsideIff`);
  `TerminalModel.RegionBelowScreen` is a request that is taken as it is.
- Resizing in either direction drops the mark of every wrapped row. Rows that fit the new width have
  the same text in it if and only if none of them was wrapped (`Selections.CutKeepsText`, and for the log
  `Selections.ResizeKeepsLogText`); `Selections.WrappedLineIsCut` is a line that becomes two when the
  window is made wider.
- Printing takes a cursor that is within the width beyond it exactly if the character has no room: it is
  wider than the screen, or wraparound is off and it does not fit in what is left of the row
  (`TerminalEffects.PutCharacterEffect`). `TerminalEffects.CursorBeyondWidth` and
  `TerminalEffects.WideOnOneColumn` are the two cases. No other character does it
  (`TerminalEffects.FeedEffect`), so over a run on two columns or more in which wraparound is not reset
  the cursor stays within the width (`TerminalHistory.RunStaysWithin`).

- In kanji mode a key that does not go on with the pending spelling gives it up and is looked up again,
  a capital as it is. With no spelling for it, it joins the entry as a capital
  (`EngineKeys.KanjiGivesUp`). While choosing, a carriage return without the Return key does nothing,
  though elsewhere it is as good (`EngineKeys.OthersLeaveChoice`).
- The file saved is itself a dictionary file in the order the search relies on if and only if no key has
  a space, nothing has a newline, and every okuri-ari key is above `;;` (`SavedFile.SavedIsWellFormed`);
  `SavedFile.DigitEntryIsOutOfOrder` is what is learned for an entry that begins with a digit.
- ESC 7 and ESC 8 bring back the column exactly if it is within the width, and the row exactly if it is
  on the screen and in origin mode in the region (`EscapeEffects.SavedIsRestored`).

## What is assumed of the surroundings

- The romaji table is any trie in which a key that restarts a spelling is a push at the top
  (`EngineInvariant.TableOk`). The search in a node is a function of the keys in it, which finds exactly
  the child with the key in a sorted node (`RomajiTable.FindIsExact`); nothing else depends on the order.
- A character takes 0, 1 or 2 cells and a space takes 1 (`Rows.WidthsOk`); control characters are at
  least those below the space, and no printable ASCII character is one (`TerminalModel.ConfigOk`).
- The log has room for at least one row.
- Every character fed to the parser is one it has room for: at most sixteen parameters, and no scroll
  region that leaves the screen (`TerminalModel.Accepts`).
- A public dictionary file is well formed (`DictionaryFile.WellFormed`): a header, strictly descending
  okuri-ari keys above `;;`, the separator, strictly ascending okuri-nasi keys.

## Files

| file | contents |
|---|---|
| `romaji_table.dfy` | the trie of spellings and its search |
| `candidates.dfy` | merging candidates of several sources |
| `engine_model.dfy`, `engine_invariant.dfy`, `engine_splices.dfy`, `engine_runs.dfy`, `engine_keys.dfy`, `engine.dfy` | the input engine: values, invariant, splices, nested registrations over runs, what the keys do, the class |
| `lexicographic.dfy`, `ordered_map.dfy` | order of byte strings, sorted association lists |
| `dictionary_file.dfy` | binary search over the lines of a file |
| `dictionary_text.dfy`, `dictionary_store.dfy`, `dictionary_round_trip.dfy`, `dictionary.dfy`, `saved_file.dfy` | escaping and lexing, the two maps of the private dictionary, what survives being saved, the classes, the saved file searched |
| `learning.dfy` | the engine over the dictionary |
| `rows.dfy`, `row_effects.dfy`, `row.dfy` | cells of a row: functions, what they show column by column, and the array edited in place |
| `damage.dfy`, `drawing.dfy`, `window.dfy` | valid lines, the limited redraw, the window class |
| `screen.dfy`, `screen_shape.dfy`, `screen_steps.dfy` | log and screens with what each operation tells the window |
| `pool.dfy`, `buffer.dfy` | the pool of row objects and the ring, the buffer class |
| `terminal_model.dfy`, `terminal_effects.dfy`, `terminal_runs.dfy`, `terminal_history.dfy` | the terminal: values, what each operation changes, runs, the log over runs |
| `terminal.dfy`, `session.dfy` | the terminal class, and the handlers of the window over the objects |
| `csi.dfy` | control sequences written and read |
| `sequence_effects.dfy`, `region_effects.dfy`, `mode_effects.dfy`, `escape_effects.dfy` | what control sequences, escapes, controls and printed characters do |
| `selection.dfy`, `round_trip.dfy` | copying text, printing and copying back |

## Model

| member | source | states |
|---|---|---|
| `RomajiTable.FindIsExact` | im/engine.cc:5-9 | the search finds an action exactly when it is among the children with its key, each key at most once |
| `RomajiTable.MapAtSnoc` | im/engine.cc:42-51 | the node a spelling leads to is reached by one more push from the node its beginning leads to |
| `RomajiTable.AtTopIffNothingPending` | im/engine.cc:28-40 | comparing the node with the top of the table tells whether anything is pending, because no spelling leads back to the top |
| `EngineInvariant.StepKeepsInv` | im/engine.cc:225-429 | every key and every reset keeps: the pending keys spell the path to the current node; no entry or okuri in the roman and latin modes; okuri in kanji mode only with something pending; candidates exactly in choose mode, with the chosen one among them |
| `EngineInvariant.PressKeepsInv` | im/engine.cc:11-26 | pressing a found action keeps the invariant, a restart that an action names included |
| `EngineInvariant.RunSnoc` | im/engine.h:154-157 | a run of keys is the run before the last key followed by that key, and stays within the invariant |
| `EngineSplices.LayoutSnoc` | im/engine.h:10-20 | the offsets of the levels tile the buffer: each base is where the level before it ends |
| `EngineSplices.Sizes` | im/engine.h:10-20 | how long the parts are: the levels, the buffer, the display and its attributes |
| `EngineSplices.TopIsAtEnd` | im/engine.h:10-20 | behind the base of the top level the buffer holds its text, entry and okuri, and behind those nothing but the pending spelling |
| `EngineSplices.MarkedIsShown` | im/main.cc:249-258 | the run of candidate attributes found by scanning is exactly the chosen candidate |
| `EngineSplices.CaretIsShown` | im/main.cc:243-248 | without candidates the caret stands behind the text of the top level |
| `EngineSplices.EraseRotateMoves` | im/engine.cc:125-156 | erasing entry and hidden key and rotating what follows puts the new text before the okurigana |
| `EngineSplices.CloseEdits` | im/engine.cc:125-156 | finishing a registration, read from offsets alone, gives the layout of the value with lower text, new text and okurigana joined, and the splice sent leads to its display |
| `EngineSplices.CancelEncodes` | im/engine.cc:103-123 | cancelling an empty registration leaves offsets and buffer of the level below without its okurigana |
| `EngineSplices.TakeEdits` | im/engine.cc:396-428 | taking a candidate replaces entry and hidden key by its text and leaves levels below alone, in the buffer and in the splice |
| `EngineSplices.OpenLeads` | im/engine.cc:202-223 | opening a registration empties the display and nothing else |
| `EngineSplices.BackLeads` | im/engine.cc:361-375 | going back from the candidates shows the entry again without its okurigana |
| `EngineRuns.StepNests` | im/engine.cc:103-223 | one key changes the stack of levels at its top only |
| `EngineRuns.LevelsBelowAreKept` | im/engine.cc:103-223 | over any run that does not leave a registration, nested ones included, the levels below it do not change |
| `EngineRuns.RegistrationIsSpliced` | im/engine.cc:125-156 | Return in a registration, after any run inside it, puts its text between the text and the okurigana of the level that asked, the hidden key gone, and teaches it unless it is empty |
| `EngineRuns.EmptyRegistrationIsCancelled` | im/engine.cc:103-123 | BackSpace in an empty registration, after any run inside it, gives the asking level its text and entry back without okurigana, and teaches nothing |
| `EngineClass.Engine.OnCompose` | im/main.cc:46-57 | the splice is inside the host's copy, and afterwards copy, attributes and preedit are those of the model |
| `EngineClass.Engine.OnCommit` | im/main.cc:58-67 | the host's copy is emptied and the text is sent |
| `EngineClass.Engine.SendPreedit` | im/main.cc:238-263 | the preedit range is the caret to the end, or the run of candidate attributes |
| `EngineClass.Engine.RomanReset` | im/engine.cc:28-40 | the pending spelling and the okurigana are gone from buffer, offsets and host; object and host stay in step with the model |
| `EngineClass.Engine.RomanPush` | im/engine.cc:42-51 | a key joins the pending spelling; object and host stay in step with the model |
| `EngineClass.Engine.RomanReduce` | im/engine.cc:53-79 | the spelling becomes kana: in the okurigana, the entry, the text of a registration, or committed; object and host stay in step with the model |
| `EngineClass.Engine.RomanCommit` | im/engine.cc:81-85 | complete okurigana ask the dictionary; object and host stay in step with the model |
| `EngineClass.Engine.Press` | im/engine.cc:11-26 | an action is pressed: pushed, or reduced with a possible restart; object and host stay in step with the model |
| `EngineClass.Engine.TextPush` | im/engine.cc:87-101 | a character joins the text of a registration or is committed; object and host stay in step with the model |
| `EngineClass.Engine.TextPop` | im/engine.cc:103-123 | the last character goes, or the empty registration is cancelled, or the key is forwarded; object and host stay in step with the model |
| `EngineClass.Engine.TextCommit` | im/engine.cc:125-156 | a registration is finished, or the key is forwarded; object and host stay in step with the model |
| `EngineClass.Engine.Close` | im/engine.cc:130-155 | the levels, the buffer and the host's copy when a registration is left; object and host stay in step with the model |
| `EngineClass.Engine.EntryPush` | im/engine.cc:158-167 | a character joins the entry; object and host stay in step with the model |
| `EngineClass.Engine.EntryPop` | im/engine.cc:169-181 | the last character of the entry goes; without entry roman mode is left; object and host stay in step with the model |
| `EngineClass.Engine.EntryCommit` | im/engine.cc:183-200 | the entry becomes text as it is; object and host stay in step with the model |
| `EngineClass.Engine.Query` | im/engine.cc:202-223 | candidates are chosen from, or a registration opens; object and host stay in step with the model |
| `EngineClass.Engine.LatinKey` | im/engine.cc:225-239 | a key in latin mode; object and host stay in step with the model |
| `EngineClass.Engine.WordKey` | im/engine.cc:241-258 | a key in word mode; object and host stay in step with the model |
| `EngineClass.Engine.RomanKey` | im/engine.cc:260-307 | a key in roman mode; object and host stay in step with the model |
| `EngineClass.Engine.KanjiKey` | im/engine.cc:309-359 | a key in kanji mode, a capital becoming the hidden key of the okurigana; object and host stay in step with the model |
| `EngineClass.Engine.ChooseKey` | im/engine.cc:361-429 | a key while choosing: back, next, previous, accept and go on in roman mode; object and host stay in step with the model |
| `EngineClass.Engine.ResetAll` | im/engine.cc:457-476 | everything composed is dropped, in the host's copy too; object and host stay in step with the model |
| `EngineClass.Engine.KeyPressed` | im/engine.h:154-157 | one key: the object encodes the model of the next state and the host's copy, attributes and preedit are those of its display |
| `EngineClass.Engine.Handle` | im/main.cc:209-217 | one key, repetition of a key or reset from the host, with the invariant kept; only a key is forwarded |
| `EngineClass.Engine.HandleAll` | im/main.cc:197-221 | after any run of keys, repetitions and resets the host's spliced copy and its attributes equal the display of the engine's state, and every splice on the way was in bounds |
| `EngineClass.Engine.Resend` | im/main.cc:222-231 | sending the preedit again shows the same |
| `Candidates.MergeDedups` | im/basic_dictionary.cc:279-293 | the texts of the candidates are the non-empty texts offered, each at its first occurrence |
| `Candidates.MergeAnnotates` | im/basic_dictionary.cc:279-288 | each candidate carries the annotations of all that offered its text, in order |
| `Candidates.TextsDiffer` | im/basic_dictionary.cc:279-288 | no text is offered twice |
| `Candidates.FirstOfferedIsFirst` | im/basic_dictionary.cc:402-422 | what is offered first comes first |
| `DictionaryFile.File.Getc` | im/basic_dictionary.cc:6-15 | the next byte, or the end |
| `DictionaryFile.File.Skip` | im/basic_dictionary.cc:6-15 | behind the next newline, or at the end |
| `DictionaryFile.File.CompareKey` | im/basic_dictionary.cc:51-93 | the key at a line start compares with the searched key in byte order, however far it was read |
| `DictionaryFile.File.Equal` | im/basic_dictionary.cc:17-93 | whether the line read is the one searched |
| `DictionaryFile.File.Greater` | im/basic_dictionary.cc:17-93 | whether the line searched lies before the one read |
| `DictionaryFile.File.AscendsHere` | im/basic_dictionary.cc:17-49 | for the separator only this line's key and the next one's are compared |
| `DictionaryFile.File.Seek` | im/basic_dictionary.cc:133-154 | on searchable lines of any lengths, halving offsets succeeds exactly when some line is equal, and leaves the file just behind its space |
| `DictionaryFile.SeparatorIsSearchable` | im/basic_dictionary.cc:17-49 | in a file descending before and ascending after the separator, comparing neighbours alone puts every line on its side of it |
| `DictionaryFile.NashisAreSearchable` | im/basic_dictionary.cc:51-93 | ascending lines are searchable for any key |
| `DictionaryFile.ArisAreSearchable` | im/basic_dictionary.cc:51-93 | descending lines with the separator behind them are searchable for any key |
| `DictionaryFile.NextLineFrom` | im/basic_dictionary.cc:133-154 | from any offset inside a line, skipping arrives at the next line |
| `DictionaryFile.File.MatchHeader` | im/basic_dictionary.cc:156-172 | whether the line here is the header |
| `DictionaryFile.File.SeekHeader` | im/basic_dictionary.cc:156-172 | behind the first line that is the header, if there is one |
| `DictionaryFile.File.SeekSeparator` | im/basic_dictionary.cc:174-187 | the separator is found in every well-formed file |
| `DictionaryFile.File.SeekKey` | im/basic_dictionary.cc:174-187 | a key is found exactly when its half of the file has a line for it, and the file is then at the rest of that line |
| `DictionaryText.ReadUndoesEscape` | im/basic_dictionary.cc:197-277 | reading a field undoes the escapes written, up to the slash behind it, or the semicolon where one ends the field |
| `DictionaryText.LexText` | im/basic_dictionary.cc:227-258 | a text written by the printer is lexed as that text |
| `DictionaryText.LexBegin` | im/basic_dictionary.cc:227-258 | the start of an okuri group is lexed as its okuri |
| `DictionaryStore.TextsReadBack` | im/basic_dictionary.cc:260-277 | all texts of a line read back in order, whatever characters but newline they hold |
| `DictionaryStore.GroupsReadBack` | im/basic_dictionary.cc:318-400 | the bracketed groups of an entry read back in order, each with its texts |
| `DictionaryStore.LoadedIsClean` | im/basic_dictionary.cc:318-368 | a loaded dictionary is clean, whatever the file holds |
| `DictionaryStore.LoadedIsOk` | im/basic_dictionary.cc:318-368 | whatever the file holds, the maps loaded are sorted and every okuri-ari entry has a general group, as searching and saving take for granted |
| `DictionaryRoundTrip.NameLoses` | im/basic_dictionary.cc:227-258 | however an okurigana written without escapes is lexed, texts behind it swallowed included, what is read weighs no more than what was written, and less if it is not plain |
| `DictionaryRoundTrip.ArisLose` | im/basic_dictionary.cc:318-400 | reading the okuri-ari part gives no more than was written, and less if any okurigana is not plain |
| `DictionaryRoundTrip.SaveThenLoad` | im/basic_dictionary.cc:318-400 | loading what was saved gives the same dictionary if and only if it is clean and its okurigana are plain |
| `DictionaryRoundTrip.SemicolonEntryIsLost` | im/basic_dictionary.cc:327-332 | what is learned for an entry that is a semicolon does not come back |
| `DictionaryRoundTrip.SlashOkuriIsLost` | im/basic_dictionary.cc:378-391 | an okurigana that is a slash is loaded from an escaped name and does not come back |
| `DictionaryStore.RegisterKeepsStoreOk` | im/basic_dictionary.cc:424-437 | registering keeps the maps sorted and every okuri-ari entry with a general group |
| `DictionaryStore.RegisteredComesFirst` | im/basic_dictionary.cc:424-437 | the text registered is the first private text for its entry and okurigana |
| `DictionaryStore.RegisterMovesToFront` | im/basic_dictionary.cc:295-302 | registering without okurigana moves a text to the front, keeps the order of the others and changes no other key |
| `DictionaryStore.RegisterMovesBothToFront` | im/basic_dictionary.cc:424-433 | registering with okurigana does so among the general texts and those for the okurigana, and changes no other list |
| `DictionaryStore.ItemsStopAtLineEnd` | im/basic_dictionary.cc:304-314 | lexing the texts of a line never reads into the next line |
| `Dictionaries.Lexer.TakeField` | im/basic_dictionary.cc:227-258 | the loop over characters reads the field of the function |
| `Dictionaries.Lexer.Next` | im/basic_dictionary.cc:227-258 | one token, with its text and annotation |
| `Dictionaries.Lexer.TakeKey` | im/basic_dictionary.cc:333-338 | the key up to the space, or a line without one |
| `Dictionaries.Dictionary.Load` | im/basic_dictionary.cc:318-368 | the maps are those read from the text by the recursive reader, sorted and with a general group in every okuri-ari entry |
| `Dictionaries.Dictionary.LoadAris` | im/basic_dictionary.cc:326-351 | the okuri-ari part, up to the first line that begins with a semicolon |
| `Dictionaries.Dictionary.LoadGroups` | im/basic_dictionary.cc:339-350 | one entry with its groups |
| `Dictionaries.Dictionary.LoadNashis` | im/basic_dictionary.cc:352-367 | the okuri-nasi part |
| `Dictionaries.Dictionary.BuildTexts` | im/basic_dictionary.cc:260-277 | texts are written with every special character escaped |
| `Dictionaries.Dictionary.Save` | im/basic_dictionary.cc:370-400 | the file written is the text that loads back |
| `Dictionaries.Dictionary.Register` | im/basic_dictionary.cc:424-437 | the maps after registering |
| `Dictionaries.Dictionary.Search` | im/basic_dictionary.cc:402-422 | a text is a candidate if and only if the private dictionary or the line of some file has it; what an earlier source offers comes first, the private one before all files and the files in turn; each candidate has the annotations of all files |
| `Dictionaries.MergeAnswers` | im/basic_dictionary.cc:402-422 | merging the items of all sources gives exactly that |
| `Dictionaries.Shape.OffersIs` | im/basic_dictionary.cc:304-314 | a file offers a text exactly if its line for the key has it |
| `Dictionaries.EarlierSourceFirst` | im/basic_dictionary.cc:402-422 | what only a later source offers comes behind what an earlier one does |
| `Candidates.MergeFinds` | im/basic_dictionary.cc:279-288 | a text is a candidate exactly if it is offered and not empty |
| `Candidates.FirstItemsComeFirst` | im/basic_dictionary.cc:279-288 | texts that the first sources offer come before those that they do not |
| `DictionaryText.LexAnnotated` | im/basic_dictionary.cc:227-258 | a text with its annotation behind a semicolon is lexed as both |
| `DictionaryStore.ItemsReadBack` | im/basic_dictionary.cc:304-314 | a line of annotated texts is read as exactly these texts, each with its annotation |
| `SavedFile.SavedIsWellFormed` | im/basic_dictionary.cc:370-400 | what is saved is a file in the order the search relies on if and only if no key has a space, nothing has a newline and every okuri-ari key is above the separator |
| `SavedFile.SavedIsSearched` | im/basic_dictionary.cc:402-422 | searching the saved file gives the texts of an entry, and with a hidden key the general ones |
| `SavedFile.DigitEntryIsOutOfOrder` | im/basic_dictionary.cc:378-391 | what is learned for an entry that begins with a digit is saved below the separator |
| `Dictionaries.Dictionary.SearchPublic` | im/basic_dictionary.cc:304-314 | the texts and annotations of the line found, if one is found; the candidates there were keep their places |
| `Dictionaries.Dictionary.AddItem` | im/basic_dictionary.cc:279-288 | the index by text finds the same candidate as looking through the list |
| `Dictionaries.Shape.ItemsFound` | im/basic_dictionary.cc:304-314 | what is lexed from the place found are the items of the line with the key, and none for the separator |
| `Learning.Serve` | im/main.cc:287-292 | load, any registrations, search and save: the answer is that of the loaded texts and the registrations, the text registered last comes first, and what is saved loads as the same dictionary exactly if that is clean and plain |
| `Learning.LastRegisteredIsFirst` | im/basic_dictionary.cc:402-437 | whatever was loaded, after any registrations, the last text registered is the first answer for its entry and okurigana |
| `Learning.RunHasText` | im/engine.cc:125-156 | no run of keys ever registers an empty text |
| `Learning.LastLearnedIsOfferedNext` | im/engine.cc:202-223 | whatever was loaded, after any run over the real dictionary, asking for the entry registered last chooses its text instead of opening a registration |
| `Rows.SplitIs` | vt/buffer.h:40-45 | splitting blanks exactly the wide glyph that lies across the column |
| `Rows.FittedIs` | vt/buffer.h:52-60 | cutting a row keeps what fits, with a glyph across the edge turned to a blank |
| `Rows.InsertBlanksKeepsWhole` | vt/buffer.h:177-194 | inserting blanks leaves whole glyphs |
| `Rows.PutKeepsWhole` | vt/buffer.h:195-217 | putting a glyph, with or without shifting, leaves whole glyphs |
| `Rows.EraseKeepsWhole` | vt/buffer.h:218-237 | erasing, with or without shifting, leaves whole glyphs |
| `Rows.PutShows` | vt/buffer.h:195-217 | a glyph that fits shows at its column, and other cells change only where a glyph was cut in two |
| `Rows.DeleteUndoesInsert` | vt/buffer.h:177-237 | for any column of the screen, deleting as many characters as blanks were inserted leaves the row up to what was pushed out |
| `Rows.DeleteRestores` | vt/buffer.h:177-237 | at a glyph boundary inside the row that is the row itself up to the width less the count, a straddling glyph blanked |
| `RowArrays.Row.Split` | vt/buffer.h:40-45 | both loops, in place, blank what the function blanks; they end because a row never begins with a continuation |
| `RowArrays.Row.Expand` | vt/buffer.h:46-51 | the row grows by blanks |
| `RowArrays.Row.Insert` | vt/buffer.h:52-60 | the backward copy leaves the tail of the row, cut to fit, behind the gap |
| `RowArrays.Row.InsertBlanks` | vt/buffer.h:177-194 | the array holds the cells of the function |
| `RowArrays.Row.Put` | vt/buffer.h:195-217 | the array holds the cells of the function, the row still led by a first half |
| `RowArrays.Row.Erase` | vt/buffer.h:218-237 | the array holds the cells of the function |
| `Damage.InvalidateShows` | vt/window.cc:386-396 | if rows change and are invalidated, clipped to the window, the lines still valid are those of the new content |
| `Damage.ScrollShows` | vt/window.cc:398-407 | if rows of a region move and the region is scrolled, clipped to the window, every line still valid is that of the new content |
| `Damage.ScrollLinesIs` | vt/window.cc:353-384 | a line valid after a scroll comes from a valid line of the same range |
| `Damage.LoggedShows` | vt/window.cc:409-415 | when the log grows the view moves along and stays right |
| `Damage.MoveToShows` | vt/window.cc:417-429 | scrolling back and forth keeps valid lines right and the position between the top and the last screen |
| `Windows.Window.InvalidateLines` | vt/window.h:81-85 | the lines leave the valid region and nothing else changes |
| `Windows.Window.ScrollLines` | vt/window.cc:353-384 | region operations and the two copies by way of the other buffer move valid lines as the model says |
| `Windows.BlitMoves` | vt/window.cc:364-383 | copying rows counted from the bottom, margins included, moves lines counted from the top |
| `Windows.Window.Invalidate` | vt/window.cc:386-396 | rows to clipped lines |
| `Windows.Window.Scroll` | vt/window.cc:398-407 | rows to clipped lines, moved |
| `Windows.Window.Logged` | vt/window.cc:409-415 | the position moves by one row |
| `Windows.Window.MoveTo` | vt/window.cc:417-429 | the view at the clamped position |
| `Windows.Window.Bounds` | vt/window.cc:235-238 | every line outside the bounds is valid |
| `Windows.Window.DrawRow` | vt/window.cc:223-231 | a row is drawn unless all its lines are valid |
| `Windows.Window.DrawRows` | vt/window.cc:239-254 | the two loops draw exactly the rows that reach into the bounds and are not valid |
| `Drawing.FinishedShowsAll` | vt/window.cc:233-294 | rows, background and cursor drawn only where something is not valid leave every line as a full redraw would |
| `Windows.Window.DrawContent` | vt/window.cc:233-294 | after the limited redraw every line of the window is that of the content with its cursor |
| `Windows.Window.Frame` | vt/window.cc:633-667 | the whole window may be held valid |
| `Windows.Window.Map` | vt/window.cc:580-624 | new buffers hold nothing valid |
| `Screens.ScrollLogInStep` | vt/buffer.h:111-133 | pushing a row to the log, full or not, with the view at the bottom or scrolled back, leaves only lines valid that are right |
| `Screens.ScrollUpInStep` | vt/buffer.h:134-150 | scrolling a region up, the cursor inside or outside it, leaves only lines valid that are right |
| `Screens.ScrollDownInStep` | vt/buffer.h:151-167 | scrolling a region down leaves only lines valid that are right |
| `Screens.EraseRowsInStep` | vt/buffer.h:168-176 | erasing rows leaves only lines valid that are right |
| `Screens.EditInStep` | vt/buffer.h:177-237 | editing a row leaves only lines valid that are right |
| `Screens.AlternateInStep` | vt/buffer.h:94-98 | switching screens leaves only lines valid that are right |
| `Screens.PushContent` | vt/buffer.h:111-133 | log and screen together move up by one row; the oldest is dropped only from a full log |
| `ScreenShape.LogIsLastPushed` | vt/buffer.h:111-133 | one push: the log stays the last rows pushed, as many as it holds |
| `ScreenShape.EditsKeepRest` | vt/buffer.h:134-241 | no edit of the screen in use changes a logged row or the other screen |
| `ScreenShape.PushLogIsSound` | vt/buffer.h:111-133 | sizes and whole glyphs are kept when a row is pushed |
| `ScreenShape.PutCellIsSound` | vt/buffer.h:195-217 | sizes and whole glyphs are kept by a put |
| `ScreenShape.ResizeIsSound` | vt/buffer.h:295-354 | sizes and whole glyphs hold in the new size |
| `ScreenShape.ResizeKeeps` | vt/buffer.h:295-354 | the log keeps its order and both screens their first rows, each as far as it fits the new width with a straddling glyph blanked; the cursor stays where it is or goes to the edge that has come nearer, and nothing else changes; widening changes no cell of any of them |
| `Pools.RingAt` | vt/buffer.h:279-282 | counting from the oldest row goes around the ring |
| `Pools.RingTurns` | vt/buffer.h:121-126 | in a full ring the new row takes the place of the oldest and becomes the newest |
| `Pools.PushConserves` | vt/buffer.h:111-133 | the row that leaves and the row that comes back are exchanged, none lost and none twice |
| `Buffers.Buffer.constructor` | vt/buffer.h:244-260 | a pool of distinct empty rows |
| `Buffers.Buffer.LogAt` | vt/buffer.h:279-282 | the row at a slot of the ring is that row of the log, oldest first |
| `Buffers.Buffer.PutCell` | vt/buffer.h:195-217 | one row object changes, and the window hears of it |
| `Buffers.Buffer.InsertCells` | vt/buffer.h:177-194 | one row object changes, and the window hears of it |
| `Buffers.Buffer.EraseCells` | vt/buffer.h:218-237 | one row object changes, and the window hears of it |
| `Buffers.Buffer.Wrap` | vt/buffer.h:238-241 | one row is marked |
| `Buffers.Buffer.EraseRows` | vt/buffer.h:168-176 | the rows are emptied |
| `Buffers.Buffer.ScrollUp` | vt/buffer.h:134-150 | row objects rotate and the freed ones are emptied; the pool holds the same rows |
| `Buffers.Buffer.ScrollDown` | vt/buffer.h:151-167 | row objects rotate and the freed ones are emptied; the pool holds the same rows |
| `Buffers.Buffer.ScrollLog` | vt/buffer.h:111-133 | row objects circulate between ring and screen as the values do; the pool holds the same rows |
| `Buffers.Buffer.Alternate` | vt/buffer.h:94-98 | the other screen is in use and to be drawn |
| `Buffers.Buffer.SaveCursor` | vt/buffer.h:99-104 | saved per screen |
| `Buffers.Buffer.RestoreCursor` | vt/buffer.h:105-110 | as saved for the screen in use |
| `Buffers.Buffer.Resize` | vt/buffer.h:295-354 | every kept row is copied to a new one of the new width; the new rows are distinct, and new objects |
| `TerminalEffects.IndexEffect` | vt/terminal.h:99-107 | going down a row pushes the first row into the log exactly when the whole normal screen scrolls, and changes no column |
| `TerminalEffects.HorizontalMotionsLand` | vt/terminal.h:51-147 | motions in a row stop at its first and last column and move nothing but the cursor |
| `TerminalEffects.ColumnMotionsLand` | vt/terminal.h:56-162 | motions to a column stop at the last one; a tab goes to the next stop |
| `TerminalEffects.VerticalMotionsLand` | vt/terminal.h:120-174 | motions between rows stop at the margins in origin mode and at the edges of the screen without it |
| `TerminalEffects.EraseBelowKeeps` | vt/terminal.h:175-190 | erasing from the cursor keeps its row up to it, cut like any row, and all rows above, and empties all below |
| `TerminalEffects.EraseAboveKeeps` | vt/terminal.h:175-190 | erasing up to the cursor empties all rows above, blanks its row up to it and keeps all rows below |
| `TerminalEffects.DeleteLineUndoesInsert` | vt/terminal.h:211-224 | deleting as many lines as were inserted brings every row back but the last of the region, which were pushed out |
| `TerminalEffects.PutCharacterEffect` | vt/terminal.h:395-404 | printing pushes a row exactly when it wraps on the last row, and leaves the cursor within the width exactly if the character has room |
| `TerminalEffects.CursorBeyondWidth` | vt/terminal.h:395-404 | without wraparound a character at the right edge takes the cursor beyond the width |
| `TerminalEffects.WideOnOneColumn` | vt/terminal.h:395-404 | with it a character of two cells does so on a screen of one column |
| `TerminalEffects.FeedEffect` | vt/terminal.h:528-716 | for every character: the log is the last rows of what it held and what was pushed, the size is kept, the cursor leaves the width only by printing without room, and the wraparound changes only by mode 7 |
| `TerminalHistory.TextIsLogged` | vt/buffer.h:111-133 | after any text the log is in order the last rows of what it held and of what the text pushed |
| `TerminalHistory.RunIsLogged` | vt/buffer.h:111-133 | over any run, resizing included, the log is in order the last rows ever pushed, as many as it can hold, each cut to the widths since |
| `TerminalHistory.RunStaysWithin` | vt/terminal.h:395-404 | over any run on two columns or more that does not reset the wraparound the cursor is never beyond the width |
| `TerminalModel.RegionIsInsideIff` | vt/terminal.h:384-394 | a requested region lies in the screen if and only if the screen has two rows and the bottom margin is not below it |
| `TerminalModel.RegionBelowScreen` | vt/terminal.h:384-394 | a bottom margin below the screen is taken as it is |
| `TerminalModel.Index` | vt/terminal.h:99-107 | cursor, margins and window are kept: the cursor ends on the screen and, in origin mode, inside the region |
| `TerminalModel.RestoreSaved` | vt/terminal.h:91-98 | whatever was saved, the cursor ends on the screen and, in origin mode, inside the region |
| `TerminalModel.SetRegion` | vt/terminal.h:384-394 | margins that fit become a region of at least one row |
| `TerminalModel.NextStop` | vt/terminal.h:56-67 | the next stop behind the cursor, with none skipped, or the last column |
| `TerminalModel.Modes` | vt/terminal.h:312-366 | cursor and margins stay in place through every change of mode, the alternate screen included |
| `TerminalModel.Feed` | vt/terminal.h:528-716 | every accepted character keeps the cursor on the screen, the margins a region inside it, the rows whole and the window in step |
| `TerminalRuns.TouchLeavesCursor` | vt/window.cc:997 | with the row of the cursor invalidated, the valid lines are right without a cursor |
| `TerminalRuns.TouchShowsCursor` | vt/window.cc:1019 | and right with it again, wherever it has moved to, when its row is invalidated at the end |
| `TerminalRuns.FocusKeepsInv` | vt/window.cc:668-671 | a change of focus invalidates all that looks different |
| `TerminalRuns.MapKeepsInv` | vt/window.cc:580-624 | mapping and resizing keep the invariant |
| `TerminalRuns.StepKeepsInv` | vt/window.cc:987-1022 | text read, frames, scrolling back, focus and resizing each keep every valid line right |
| `TerminalRuns.RunKeepsInv` | vt/window.cc:353-429 | over any run of such events each line held valid is what a full redraw would draw, the position is inside the content, rows are whole, cursor and margins in place |
| `TerminalRuns.InitialIsOk` | vt/terminal.h:751-756 | the invariant holds of a new terminal, whatever the saved cursors hold |
| `Terminals.Terminal.constructor` | vt/terminal.h:751-756 | a new terminal over a buffer |
| `Terminals.Terminal.BackSpace` | vt/terminal.h:51-55 | one column back, from inside the width; the object stands for what the model makes of it |
| `Terminals.Terminal.TabForward` | vt/terminal.h:56-67 | the loop finds the next stop; the object stands for what the model makes of it |
| `Terminals.Terminal.TabSet` | vt/terminal.h:68-71 | a stop is set or cleared at the cursor; the object stands for what the model makes of it |
| `Terminals.Terminal.TabClear` | vt/terminal.h:72-82 | one stop or all are cleared; the object stands for what the model makes of it |
| `Terminals.Terminal.CarriageReturn` | vt/terminal.h:87-90 | to the first column; the object stands for what the model makes of it |
| `Terminals.Terminal.RestoreSaved` | vt/terminal.h:91-98 | the saved cursor, clamped; the object stands for what the model makes of it |
| `Terminals.Terminal.Index` | vt/terminal.h:99-107 | a row down, or the region scrolls; the object stands for what the model makes of it |
| `Terminals.Terminal.Scroll` | vt/terminal.h:44-50 | the region, or the whole screen into the log; the object stands for what the model makes of it |
| `Terminals.Terminal.ReverseIndex` | vt/terminal.h:108-114 | a row up, or the region scrolls; the object stands for what the model makes of it |
| `Terminals.Terminal.NextLine` | vt/terminal.h:115-119 | to the start of the next row; the object stands for what the model makes of it |
| `Terminals.Terminal.CursorUp` | vt/terminal.h:120-128 | up, not above the screen or region; the object stands for what the model makes of it |
| `Terminals.Terminal.CursorDown` | vt/terminal.h:129-134 | down, not below; the object stands for what the model makes of it |
| `Terminals.Terminal.CursorForward` | vt/terminal.h:135-139 | right; the object stands for what the model makes of it |
| `Terminals.Terminal.CursorBackward` | vt/terminal.h:140-147 | left; the object stands for what the model makes of it |
| `Terminals.Terminal.CursorColumn` | vt/terminal.h:158-162 | to a column; the object stands for what the model makes of it |
| `Terminals.Terminal.CursorRow` | vt/terminal.h:168-174 | to a row, counted from the region in origin mode; the object stands for what the model makes of it |
| `Terminals.Terminal.EraseDisplay` | vt/terminal.h:175-190 | below, above or all; the object stands for what the model makes of it |
| `Terminals.Terminal.EraseLine` | vt/terminal.h:191-204 | right, left or all; the object stands for what the model makes of it |
| `Terminals.Terminal.EraseCharacter` | vt/terminal.h:205-210 | some cells; the object stands for what the model makes of it |
| `Terminals.Terminal.InsertLine` | vt/terminal.h:211-217 | rows of the region down; the object stands for what the model makes of it |
| `Terminals.Terminal.DeleteLine` | vt/terminal.h:218-224 | rows of the region up; the object stands for what the model makes of it |
| `Terminals.Terminal.InsertCharacter` | vt/terminal.h:225-228 | blanks; the object stands for what the model makes of it |
| `Terminals.Terminal.DeleteCharacter` | vt/terminal.h:229-232 | cells; the object stands for what the model makes of it |
| `Terminals.Terminal.Attributes` | vt/terminal.h:241-311 | the loop over the parameters; the object stands for what the model makes of it |
| `Terminals.Terminal.Modes` | vt/terminal.h:312-366 | the loop over the parameters, each mode set or reset in turn; the object stands for what the model makes of it |
| `Terminals.Terminal.SwitchScreen` | vt/terminal.h:349-361 | to the alternate screen and back; the object stands for what the model makes of it |
| `Terminals.Terminal.SetRegion` | vt/terminal.h:384-394 | the margins; the object stands for what the model makes of it |
| `Terminals.Terminal.PutCharacter` | vt/terminal.h:395-404 | wrapped if it does not fit, then put; the object stands for what the model makes of it |
| `Terminals.Terminal.Control` | vt/terminal.h:405-431 | a control character; the object stands for what the model makes of it |
| `Terminals.Terminal.Sequence` | vt/terminal.h:432-527 | the dispatch of a final character; the object stands for what the model makes of it |
| `Terminals.Terminal.EscapeKey` | vt/terminal.h:535-587 | the character behind an escape; the object stands for what the model makes of it |
| `Terminals.Terminal.Align` | vt/terminal.h:588-604 | both loops of the alignment pattern; the object stands for what the model makes of it |
| `Terminals.Terminal.CsiKey` | vt/terminal.h:640-716 | a parameter digit, separator, mark or final character, in the array of parameters; the object stands for what the model makes of it |
| `Terminals.Terminal.Feed` | vt/terminal.h:782-785 | one character in any state of the parser; the object stands for what the model makes of it |
| `Terminals.Terminal.Resize` | vt/terminal.h:761-772 | the new size, with tab stops kept and added; the object stands for what the model makes of it |
| `Sessions.Read` | vt/window.cc:987-1022 | the read handler over the objects: afterwards every line held valid is what a full redraw would draw, cursor included |
| `Sessions.Frame` | vt/window.cc:633-667 | the frame handler over the objects: afterwards every line of the window is that of the content with its cursor |
| `Sessions.MoveView` | vt/window.cc:417-429 | scrolling back over the objects |
| `Sessions.Focus` | vt/window.cc:668-671 | a change of focus over the objects |
| `Sessions.Map` | vt/window.cc:580-624 | a new size over the objects, whose rows may all be new ones and can be used |
| `Sessions.Play` | vt/window.cc:353-429 | the objects go through any run of events as the values do, and so keep the invariant of runs |
| `ControlSequences.FeedDecimal` | vt/terminal.h:640-716 | the digits of any number are read as that number |
| `ControlSequences.ParametersAreDelivered` | vt/terminal.h:640-716 | the printing of any list of at most sixteen parameters, omitted ones but the last included, is read as that list, an omitted one as -1 |
| `ControlSequences.SequenceIsDelivered` | vt/terminal.h:535-716 | a whole sequence, with any mark or none, does what its final character does with exactly the parameters written |
| `ControlSequences.InsertThenDelete` | vt/terminal.h:225-232 | inserting and deleting as many characters by their control sequences leaves the screen but for the row, and the row up to what was pushed out |
| `Selections.PutCells` | vt/window.cc:716-722 | the loops give the characters of the glyphs |
| `Selections.Copy` | vt/window.cc:708-739 | the text between two places, with a newline behind every row that was not wrapped |
| `Selections.CutKeepsText` | vt/buffer.h:295-354 | rows that fit the new width have the same text in it if and only if none of them was wrapped |
| `Selections.ResizeKeepsLogText` | vt/buffer.h:295-354 | so resizing keeps the text of the log, if its rows fit, exactly when none was wrapped |
| `Selections.WrappedLineIsCut` | vt/buffer.h:295-354 | a line wrapped after its first character is two lines in a wider window |
| `RoundTrip.TypedIsWritten` | vt/terminal.h:395-404 | typing glyphs and new lines from any place at the end of text appends exactly that text to all rows ever written; the rows it takes and those it pushes are counted |
| `RoundTrip.CopyToCursor` | vt/window.cc:716-738 | copying up to the cursor gives the rows of the log and the screen up to it |
| `RoundTrip.PrintThenCopy` | vt/window.cc:716-738 | typing on a terminal just made and copying back gives the text typed if and only if the rows it takes have room in log and screen; otherwise it gives the text behind the rows that have left the log, which are the first of all that were pushed, as many as the text takes rows beyond log and screen |
| `RoundTrip.FreshFlows` | vt/terminal.h:751-756 | a terminal just made, two columns wide or more, is one to type on |
| `EngineKeys.RomanSounds` | im/engine.cc:11-85 | in roman mode a key that goes on with the pending spelling sends the kana of the action it leads to, hiragana or in katakana mode katakana, or adds them to the text of a registration; what restarts the spelling is pending then |
| `EngineKeys.CapitalBeginsEntry` | im/engine.cc:272-284 | a capital with nothing pending begins an entry with its kana |
| `EngineKeys.KanjiSounds` | im/engine.cc:53-85 | in kanji mode the kana join the entry |
| `EngineKeys.OkuriSounds` | im/engine.cc:331-337 | a capital behind an entry becomes the hidden key, the kana go behind it, and with nothing pending the dictionary is asked |
| `EngineKeys.RomanTranscribes` | im/engine.cc:11-85 | any run of keys that spells, restarts included, sends exactly its kana one by one, or adds them to a registration |
| `EngineKeys.KanjiTranscribes` | im/engine.cc:11-85 | any run of keys that spells gives the entry exactly its kana |
| `EngineKeys.OkuriTranscribes` | im/engine.cc:11-85 | the keys of an okurigana give it exactly its kana, and the last asks the dictionary |
| `EngineKeys.OkuriAriIsAsked` | im/engine.cc:309-359 | a word typed with a capital before its entry and one before its okurigana asks the dictionary for exactly the kana of both |
| `EngineKeys.OkuriNasiIsAsked` | im/engine.cc:338-342 | a word typed with a capital and a space behind it asks for its kana |
| `EngineKeys.RomanGivesUp` | im/engine.cc:273-278 | a key that does not go on with a spelling gives it up and acts as if nothing had been pending |
| `EngineKeys.KanjiGivesUp` | im/engine.cc:325-354 | so in kanji mode, but a capital is then looked up as it is, and without a spelling joins the entry as it is |
| `EngineKeys.ChoiceIsTaught` | im/engine.cc:402-428 | accepting sends or keeps the text of the level, the candidate and the okurigana, teaches exactly the candidate for entry and okurigana, and a key other than Return then acts in roman mode |
| `EngineKeys.KeyTeaches` | im/engine.cc:125-428 | what any key teaches the dictionary: a choice, the text of a finished registration, and nothing else |
| `EngineKeys.SpaceIsNext` | im/engine.cc:375-395 | a space shows the next candidate, and behind the last one opens a registration above the level that asked |
| `EngineKeys.XIsPrevious` | im/engine.cc:396-401 | x shows the candidate before |
| `EngineKeys.SpacesChoose` | im/engine.cc:375-395 | n spaces show the candidate n places further on |
| `EngineKeys.BackToEntry` | im/engine.cc:365-374 | BackSpace, or x on the first candidate, shows the entry again without okurigana |
| `EngineKeys.OthersLeaveChoice` | im/engine.cc:402-428 | unknown keys, and a carriage return that is not the Return key, leave the choice alone |
| `EngineKeys.LatinKeys` | im/engine.cc:225-239 | characters join the text of a registration or are sent, BackSpace takes the last one or is forwarded, a line feed leads to roman mode; what is unknown is forwarded if nothing is composed |
| `EngineKeys.WordKeys` | im/engine.cc:241-258 | characters join the entry, a space asks for it, Return keeps or sends it as it is, BackSpace takes its last character and with that leaves the mode |
| `EngineKeys.RomanKeys` | im/engine.cc:260-307 | Return, line feed, BackSpace and unknown keys drop what is pending before they do what they do |
| `EngineKeys.RomanCommands` | im/engine.cc:285-302 | the keys for word mode, latin mode and the other kana; any other key stands for itself |
| `EngineKeys.KanjiKeys` | im/engine.cc:309-359 | Return keeps or sends the entry, BackSpace drops what is pending or takes the last character of the entry, line feed and unknown keys drop what is pending |
| `EngineKeys.KanjiCommands` | im/engine.cc:338-354 | a space asks the dictionary; the keys for word mode and the other kana; any other key joins the entry |
| `EngineKeys.ResetDropsAll` | im/engine.cc:457-476 | nothing is composed, in roman mode with hiragana; what was sent and learned stays |
| `Learning.LatestIsFirst` | im/basic_dictionary.cc:424-437 | whatever was loaded and whatever else was registered, the first answer is the text registered last for the query |
| `Learning.ChosenIsOfferedNext` | im/engine.cc:402-428 | after any run that ends in a choice, however much is learned for other entries after that, asking for the same entry and okurigana offers the candidate chosen |
| `Learning.TypedAgainIsOffered` | im/engine.cc:309-359 | so typing a word with okurigana again shows the candidate chosen for it before, with its okurigana |
| `Learning.SpacedAgainIsOffered` | im/engine.cc:338-342 | and so does typing a word without okurigana |
| `Damage.MoveToLands` | vt/window.cc:417-429 | the view goes exactly where it is asked to, from the top of the log to the last screen, and no further |
| `Damage.MoveToKeepsLines` | vt/window.cc:417-429 | a line is valid after scrolling back exactly if it was and is still in the window |
| `Damage.InvalidateAre` | vt/window.cc:386-396 | a line is valid after rows are invalidated exactly if it was and belongs to none of them |
| `Damage.ScrollAre` | vt/window.cc:398-409 | a line is valid after rows are scrolled exactly if it was and its row is another one, or is one of them and was so before |
| `Sessions.Look` | vt/window.cc:417-429 | scrolling back to any place and drawing shows what lies there, cursor included, line by line |
| `Selections.TextsJoin` | vt/window.cc:708-739 | what is selected in two parts, parted between glyphs, is what is selected at once |
| `Selections.SelectionIsSlice` | vt/window.cc:708-739 | a selection between glyphs is exactly the part of the text of all rows between its two places |
| `RowEffects.EraseShows` | vt/buffer.h:218-237 | erased columns are blank, others as before, of glyphs cut in two only blanks are left |
| `RowEffects.DeleteShows` | vt/buffer.h:218-237 | columns behind the deleted ones have moved to the left |
| `RowEffects.InsertShows` | vt/buffer.h:177-194 | columns behind the blanks have moved to the right, as far as they fit |
| `RowEffects.OverwriteShows` | vt/buffer.h:195-217 | a glyph shows at its column, over what was there |
| `RowEffects.InsertedShows` | vt/buffer.h:195-217 | in insert mode it pushes what was there to the right |
| `RowEffects.NoRoomShows` | vt/buffer.h:195-217 | without room for it the rest of the row is blank, in its attribute |
| `SequenceEffects.MotionsLand` | vt/terminal.h:432-527 | each motion as written, A to H, d and f, moves the cursor to its row and column, counted from one, from the region in origin mode, and changes nothing else |
| `SequenceEffects.DisplayIsErased` | vt/terminal.h:175-190 | J as written: which rows are emptied, which columns of the row of the cursor are blank, and all else is kept |
| `SequenceEffects.LineIsErased` | vt/terminal.h:191-204 | K as written: which columns of the row are blank, and all else is kept |
| `SequenceEffects.RowIsEdited` | vt/terminal.h:205-232 | X, P and @ as written: column by column what the row of the cursor shows, and all else is kept |
| `RegionEffects.RegionIsScrolled` | vt/terminal.h:211-240 | S, T, L and M as written: which rows move by how many and which are empty, and all else is kept |
| `RegionEffects.MarginsAreSet` | vt/terminal.h:384-394 | r as written: the margins, at least two rows, by default the whole screen, and the cursor at the top |
| `RegionEffects.StopsAreCleared` | vt/terminal.h:72-82 | g as written: the stop at the cursor, all stops, or none |
| `RegionEffects.OthersDoNothing` | vt/terminal.h:432-527 | a final character that is none of these does nothing |
| `ModeEffects.PrivateModesAreSet` | vt/terminal.h:329-366 | h and l with the mark of a private sequence: what each mode does, one after another |
| `ModeEffects.InsertModeIsSet` | vt/terminal.h:312-328 | without it 4 is the insert mode and nothing else is a mode |
| `ModeEffects.AlternateIsLeft` | vt/terminal.h:349-361 | back from the alternate screen the normal screen is as it was left, with cursor and attribute, if neither it nor what was saved has been touched |
| `ModeEffects.AttributeIsSet` | vt/terminal.h:241-311 | m as written: each part of the attribute is decided by the last number that is about it; with a mark nothing happens |
| `EscapeEffects.IndexGoesDown` | vt/terminal.h:99-107 | down a row: at the end of the region its rows move up, those of the whole normal screen into the log |
| `EscapeEffects.ReverseIndexGoesUp` | vt/terminal.h:108-114 | up a row: at the start of the region its rows move down |
| `EscapeEffects.ControlDoes` | vt/terminal.h:405-431 | what each control does, wherever it stands |
| `EscapeEffects.EscapeDoes` | vt/terminal.h:535-587 | what each escape does |
| `EscapeEffects.OtherEscapesDoNothing` | vt/terminal.h:535-587 | an escape that stands for nothing does nothing |
| `EscapeEffects.DesignationDoesNothing` | vt/terminal.h:588-618 | the choice of a character set does nothing, nor does a number sign without the alignment pattern |
| `EscapeEffects.SavedIsRestored` | vt/terminal.h:91-98 | a saved cursor comes back with its attribute, its column exactly if within the width, its row exactly if on the screen and in origin mode in the region |
| `EscapeEffects.SaveThenRestore` | vt/terminal.h:91-98 | ESC 7 and ESC 8 change nothing but the saved cursor and a column beyond the width |
| `EscapeEffects.ControlStringIsSkipped` | vt/terminal.h:619-688 | device and operating system controls change nothing, whatever text they hold |
| `EscapeEffects.CharacterIsPrinted` | vt/terminal.h:395-404 | a character is printed at the cursor, or at the start of the next row when the row has been marked; column by column what its row shows |
| `EscapeEffects.ScreenIsFilled` | vt/terminal.h:588-604 | the alignment pattern fills the screen with the letter E in the attribute of the cursor, and changes nothing else |
| `TerminalRuns.ResizeKeepsStops` | vt/terminal.h:761-772 | stops of columns there were are kept, the others are at every eighth, and the margins go |
| `EngineKeys.RepetitionKeepsFlag` | im/main.cc:209-217 | a repetition does what the key does, but does not take back that the key was forwarded |
| `EngineKeys.NewEngineIsFree` | im/engine.cc:431-433 | a new engine is in roman mode with hiragana, and has composed, sent and learned nothing |
| `Screens.ScrollLogAre` | vt/buffer.h:111-133 | pushing a row into the log moves the valid lines up with their rows, in a growing log and in a full one: only the row of the cursor and the new one are to be drawn |

## Left out

- Drawing glyphs, colours and the frame with Skia and GL: a drawn line is a value, the row and the line within it or the background; a copy between framebuffers is a copy of rows of lines.
- The selection highlight, the preedit rows of a client of an input method, the scroll bar and the pointer: the invariant on valid lines is about text and cursor only.
- Wayland, wlroots, EGL and xkb in `wm/`, `xade/`, `xemmai/` and `bg/`: plumbing over libraries that are not part of this model.
- Character encodings: conversion by iconv is the identity on characters, the preedit range counts characters and not bytes, and `std::mbrtowc` is not modelled.
- Opening, reading and writing files: a file is its contents and an offset. Saving returns the contents.
- The pop-up with candidates, its layout, and the string shown as status or entry (`im/engine.cc:435-455`).
- The text that stands for a forwarded key (`im/main.cc:201-208`): only whether a key is forwarded is modelled.
- The table of romaji itself: any table that meets the assumption above is covered.
- `std::lower_bound` over the sorted children of a node and `std::map`: by their specification, on sorted lists.
- Tab stops are one truth value per column where the source has one bit; unsigned wrap-around and parameter overflow are not modelled: numbers are unbounded.
- Replies to the program (device status) and the key codes sent to it (`vt/terminal.h:367-383`, `vt/terminal.h:773-781`).
- Freeing the old rows on a resize: the model forgets them.
- Buffers.Buffer.Resize: the rows of log and screens are copied in one pass over all kept rows, where the source has one loop for each list.
- Windows.Window.DrawContent: the rows are handed over as a value with the contents of the log and the screen; the window does not hold a reference to the buffer.
- Dictionaries.Dictionary.Search: the index leads to a place in the list where the source keeps a pointer to the candidate.
- RoundTrip.PrintThenCopy: for glyphs of one or two cells and new lines, on a screen of at least two columns; combining characters of no width are not put in a cell by the source and so do not come back.
- Selections.Copy: places are those a pointer can select, a column up to the end of its row; the row behind the last one, of which nothing is read, is the empty end.
