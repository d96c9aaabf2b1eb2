/**
 The text of a dictionary line (im/basic_dictionary.cc, f_build and t_lexer): what is written for
 a list of texts, and what the lexer makes of it, on plain strings.
 */
module DictionaryText {
  datatype Token = NoToken | TextToken | BeginToken | EndToken

  /** One step of the lexer: the token, its text and annotation, and what is left to read. */
  datatype Lexeme = Lexeme(token: Token, text: string, annotation: string, rest: string)

  predicate IsSpecial(c: char) {
    c == '/' || c == ';' || c == '[' || c == '\\' || c == ']'
  }

  function Escape(text: string): string {
    if text == "" then ""
    else (if IsSpecial(text[0]) then ['\\', text[0]] else [text[0]]) + Escape(text[1..])
  }

  /** Each text behind a slash. */
  function Build(texts: seq<string>): string {
    if texts == [] then "" else "/" + Escape(texts[0]) + Build(texts[1..])
  }

  /** Read up to a slash, or a semicolon if those end the field; a line or file end stops it early. */
  function ReadField(s: string, semicolon: bool): (r: (string, string, bool))
    ensures |r.1| <= |s|
    ensures r.2 ==> r.1 != "" && (r.1[0] == '/' || (semicolon && r.1[0] == ';'))
    ensures '\n' !in r.0
  {
    if s == "" then ("", "", false)
    else if s[0] == '/' || (semicolon && s[0] == ';') then ("", s, true)
    else
      var t := if s[0] == '\\' then s[1..] else s;
      if t == "" || t[0] == '\n' then ("", t, false)
      else
        var (text, rest, ended) := ReadField(t[1..], semicolon);
        ([t[0]] + text, rest, ended)
  }

  function Lex(s: string): (r: Lexeme)
    ensures |r.rest| <= |s|
    ensures r.token != NoToken ==> |r.rest| < |s|
    ensures '\n' !in r.text
  {
    if s == "" || s[0] != '/' then Lexeme(NoToken, "", "", s)
    else if s[1..] == "" || s[1] == '\n' then Lexeme(NoToken, "", "", s[1..])
    else
      var token := if s[1] == '[' then BeginToken else if s[1] == ']' then EndToken else TextToken;
      LexFields(token, if token == TextToken then s[1..] else s[2..])
  }

  function LexFields(token: Token, s: string): (r: Lexeme)
    ensures |r.rest| <= |s| && r.token == token && '\n' !in r.text
  {
    var field := ReadField(s, true);
    if !field.2 || field.1[0] != ';' then Lexeme(token, field.0, "", field.1)
    else
      var note := ReadField(field.1[1..], false);
      Lexeme(token, field.0, note.0, note.1)
  }

  /** Lex, as the lexer goes about it. */
  lemma LexCases(s: string)
    ensures s == "" || s[0] != '/' ==> Lex(s) == Lexeme(NoToken, "", "", s)
    ensures s != "" && s[0] == '/' ==>
              var t := s[1..];
              Lex(s) == if t == "" || t[0] == '\n' then Lexeme(NoToken, "", "", t)
                        else if t[0] == '[' then LexFields(BeginToken, t[1..])
                        else if t[0] == ']' then LexFields(EndToken, t[1..])
                        else LexFields(TextToken, t)
  {
    if s != "" && s[1..] != "" {
      assert s[2..] == s[1..][1..];
    }
  }

  lemma FieldRest(s: string, semicolon: bool)
    ensures var r := ReadField(s, semicolon); r.2 ==> r.1 != ""
  {
  }

  /** What the escape character leaves to be taken literally. */
  function Unescaped(s: string): string
    requires s != ""
  {
    if s[0] == '\\' then s[1..] else s
  }

  lemma FieldStops(s: string, semicolon: bool)
    requires s == "" || (s[0] != '/' && !(semicolon && s[0] == ';') && (Unescaped(s) == "" || Unescaped(s)[0] == '\n'))
    ensures ReadField(s, semicolon) == ("", if s == "" then "" else Unescaped(s), false)
  {
  }

  lemma FieldTakes(s: string, semicolon: bool)
    requires s != "" && s[0] != '/' && !(semicolon && s[0] == ';') && Unescaped(s) != "" && Unescaped(s)[0] != '\n'
    ensures var t, r := Unescaped(s), ReadField(Unescaped(s)[1..], semicolon);
            ReadField(s, semicolon) == ([t[0]] + r.0, r.1, r.2)
  {
  }

  lemma FieldEnds(s: string, semicolon: bool)
    requires s != "" && (s[0] == '/' || (semicolon && s[0] == ';'))
    ensures ReadField(s, semicolon) == ("", s, true)
  {
  }

  /** What ends a field: a slash, or a semicolon where an annotation may follow. */
  predicate EndsField(t: string, semicolon: bool) {
    t != "" && (t[0] == '/' || (semicolon && t[0] == ';'))
  }

  lemma ReadNothing(t: string, semicolon: bool)
    requires EndsField(t, semicolon)
    ensures ReadField(t, semicolon) == ("", t, true)
  {
  }

  lemma ReadOne(c: char, u: string, semicolon: bool)
    requires c != '/' && c != ';' && c != '\\' && c != '\n'
    ensures var r := ReadField(u, semicolon); ReadField([c] + u, semicolon) == ([c] + r.0, r.1, r.2)
  {
    assert ([c] + u)[1..] == u;
  }

  lemma ReadEscaped(c: char, u: string, semicolon: bool)
    requires c != '\n'
    ensures var r := ReadField(u, semicolon); ReadField(['\\', c] + u, semicolon) == ([c] + r.0, r.1, r.2)
  {
    assert (['\\', c] + u)[1..] == [c] + u && ([c] + u)[1..] == u;
  }

  /** The lexer undoes the escaping of any text without a newline, up to what ends the field. */
  lemma {:induction false} ReadUndoesEscape(text: string, t: string, semicolon: bool)
    requires '\n' !in text && EndsField(t, semicolon)
    ensures ReadField(Escape(text) + t, semicolon) == (text, t, true)
  {
    hide ReadField;
    if text == "" {
      assert Escape(text) + t == t;
      ReadNothing(t, semicolon);
    } else {
      var u := Escape(text[1..]) + t;
      ReadUndoesEscape(text[1..], t, semicolon);
      if IsSpecial(text[0]) {
        assert Escape(text) + t == ['\\', text[0]] + u;
        ReadEscaped(text[0], u, semicolon);
      } else {
        assert Escape(text) + t == [text[0]] + u;
        ReadOne(text[0], u, semicolon);
      }
      assert [text[0]] + text[1..] == text;
    }
  }

  /** A plain name is written without escapes and read back as it is. */
  predicate IsPlain(name: string) {
    forall i :: 0 <= i < |name| ==> name[i] != '/' && name[i] != ';' && name[i] != '\\' && name[i] != '\n'
  }

  lemma {:induction false} ReadPlain(name: string, t: string, semicolon: bool)
    requires IsPlain(name) && t != "" && t[0] == '/'
    ensures ReadField(name + t, semicolon) == (name, t, true)
  {
    if name == "" {
      assert name + t == t;
    } else {
      ReadPlain(name[1..], t, semicolon);
      assert name + t == [name[0]] + (name[1..] + t);
      ReadOne(name[0], name[1..] + t, semicolon);
      assert [name[0]] + name[1..] == name;
    }
  }

  /** An escaped text never starts like a bracket or a line end, so it is a text token. */
  lemma LexText(text: string, t: string)
    requires '\n' !in text && t != "" && t[0] == '/'
    ensures Lex("/" + Escape(text) + t) == Lexeme(TextToken, text, "", t)
  {
    hide ReadField;
    var u := Escape(text) + t;
    assert "/" + Escape(text) + t == "/" + u && ("/" + u)[1..] == u;
    ReadUndoesEscape(text, t, true);
    assert u[0] == if text == "" then '/' else if IsSpecial(text[0]) then '\\' else text[0];
  }

  /** A text and its annotation behind a semicolon, both escaped, are lexed as they are. */
  lemma LexAnnotated(text: string, note: string, t: string)
    requires '\n' !in text && '\n' !in note && EndsField(t, false)
    ensures Lex("/" + Escape(text) + ";" + Escape(note) + t) == Lexeme(TextToken, text, note, t)
  {
    hide ReadField;
    var behind := ";" + (Escape(note) + t);
    var u := Escape(text) + behind;
    assert "/" + Escape(text) + ";" + Escape(note) + t == "/" + u && ("/" + u)[1..] == u;
    ReadUndoesEscape(text, behind, true);
    assert behind[1..] == Escape(note) + t;
    ReadUndoesEscape(note, t, false);
    assert u[0] == if text == "" then ';' else if IsSpecial(text[0]) then '\\' else text[0];
  }

  lemma LexBegin(name: string, t: string)
    requires IsPlain(name) && t != "" && t[0] == '/'
    ensures Lex("/[" + name + t) == Lexeme(BeginToken, name, "", t)
  {
    ReadPlain(name, t, true);
    assert ("/[" + name + t)[2..] == name + t;
  }

  lemma LexEnd(t: string)
    requires t != "" && t[0] == '/'
    ensures Lex("/]" + t) == Lexeme(EndToken, "", "", t)
  {
    hide ReadField;
    ReadNothing(t, true);
    assert ("/]" + t)[2..] == t;
  }

  lemma LexLineEnd(t: string)
    ensures Lex("/\n" + t) == Lexeme(NoToken, "", "", "\n" + t)
  {
    assert ("/\n" + t)[1..] == "\n" + t;
  }
}
