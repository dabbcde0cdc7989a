/** Quoting names for interpolation into a statement, and reading a statement back. */
module IdentifierQuoting {
  import opened Wrappers

  /** Every backtick doubled. */
  function Doubled(name: string): string {
    if name == "" then ""
    else (if name[0] == '`' then "``" else [name[0]]) + Doubled(name[1..])
  }

  function QuoteIdentifier(name: string): string {
    "`" + Doubled(name) + "`"
  }

  /** A reference to a table of a database. */
  function Qualify(database: string, table: string): string {
    QuoteIdentifier(database) + "." + QuoteIdentifier(table)
  }

  // ---- Reading a quoted name, where doubling is the only escape

  /** Reads up to the closing backtick, undoing the doubling; gives the name and what follows it. */
  function ScanRest(s: string): Option<(string, string)> {
    if s == "" then None
    else if s[0] != '`' then Longer(s[0], ScanRest(s[1..]))
    else if Opens(s[1..]) then Longer('`', ScanRest(s[2..]))
    else Some(("", s[1..]))
  }

  function Longer(c: char, scanned: Option<(string, string)>): Option<(string, string)> {
    match scanned
    case None => None
    case Some((name, rest)) => Some(([c] + name, rest))
  }

  predicate Opens(s: string) {
    s != "" && s[0] == '`'
  }

  /** Reads one quoted name at the front of a text. */
  function Scan(s: string): Option<(string, string)> {
    if Opens(s) then ScanRest(s[1..]) else None
  }

  lemma {:induction false} ScanRestReads(name: string, rest: string)
    requires !Opens(rest)
    ensures ScanRest(Doubled(name) + "`" + rest) == Some((name, rest))
  {
    var s := Doubled(name) + "`" + rest;
    if name == "" {
      assert s[1..] == rest;
    } else {
      ScanRestReads(name[1..], rest);
      var tail := Doubled(name[1..]) + "`" + rest;
      if name[0] == '`' {
        assert s == "``" + tail;
        assert s[1..] == "`" + tail && s[2..] == tail;
      } else {
        assert s == [name[0]] + tail;
        assert s[1..] == tail;
      }
      assert name == [name[0]] + name[1..];
    }
  }

  lemma {:induction false} ScanRestIsSound(s: string)
    ensures ScanRest(s).Some? ==>
      var (name, rest) := ScanRest(s).value; s == Doubled(name) + "`" + rest && !Opens(rest)
  {
    if s != "" && ScanRest(s).Some? {
      if s[0] != '`' {
        ScanRestIsSound(s[1..]);
      } else if Opens(s[1..]) {
        ScanRestIsSound(s[2..]);
        assert s == "``" + s[2..];
      } else {
        assert s == "`" + s[1..];
      }
    }
  }

  /** A scanner reads a name and stops there exactly when the text is that name quoted and no backtick
      follows: quoting is undone for every name, and nothing else is read as it. */
  lemma ScanIff(s: string, name: string, rest: string)
    ensures Scan(s) == Some((name, rest)) <==> s == QuoteIdentifier(name) + rest && !Opens(rest)
  {
    if Scan(s) == Some((name, rest)) {
      ScanRestIsSound(s[1..]);
      assert s == "`" + s[1..];
    }
    if s == QuoteIdentifier(name) + rest && !Opens(rest) {
      ScanRestReads(name, rest);
      assert s[1..] == Doubled(name) + "`" + rest;
    }
  }

  // ---- A reader that also knows escapes

  /** Reads as `ScanRest` does, except that a backslash and the character after it stand for one character. */
  function ScanEscaped(s: string, decode: char -> char): Option<(string, string)> {
    if s == "" then None
    else if s[0] == '\\' then
      if |s| == 1 then None else Longer(decode(s[1]), ScanEscaped(s[2..], decode))
    else if s[0] != '`' then Longer(s[0], ScanEscaped(s[1..], decode))
    else if Opens(s[1..]) then Longer('`', ScanEscaped(s[2..], decode))
    else Some(("", s[1..]))
  }

  /** What is read took at least as much text as writing it takes, and its closing backtick. */
  lemma {:induction false} ReadingTakesText(s: string, decode: char -> char)
    ensures ScanEscaped(s, decode).Some? ==>
      var (name, rest) := ScanEscaped(s, decode).value; |Doubled(name)| + |rest| < |s|
  {
    if s != "" && ScanEscaped(s, decode).Some? {
      if s[0] == '\\' {
        ReadingTakesText(s[2..], decode);
      } else if s[0] != '`' {
        ReadingTakesText(s[1..], decode);
      } else if Opens(s[1..]) {
        ReadingTakesText(s[2..], decode);
      }
    }
  }

  /** Quoting doubles backticks and leaves backslashes alone, so a reader that takes backslashes for escapes,
      whatever they stand for, reads back exactly the names that hold none. */
  lemma {:induction false} EscapedIff(name: string, rest: string, decode: char -> char)
    requires !Opens(rest)
    ensures ScanEscaped(Doubled(name) + "`" + rest, decode) == Some((name, rest)) <==> '\\' !in name
  {
    var s := Doubled(name) + "`" + rest;
    if name == "" {
      assert s[1..] == rest;
    } else {
      var tail := Doubled(name[1..]) + "`" + rest;
      assert name == [name[0]] + name[1..];
      if name[0] == '`' {
        assert s[1..] == "`" + tail && s[2..] == tail;
        EscapedIff(name[1..], rest, decode);
      } else if name[0] == '\\' {
        assert s[1..] == tail && s[2..] == tail[1..];
        ReadingTakesText(s[2..], decode);
      } else {
        assert s[1..] == tail;
        EscapedIff(name[1..], rest, decode);
      }
    }
  }

  // ---- Whole statements, again with doubling alone

  datatype Token = Plain(c: char) | Identifier(name: string)

  /** A statement written with names in the places its author left for them. */
  function Render(tokens: seq<Token>): string {
    if tokens == [] then ""
    else TextOf(tokens[0]) + Render(tokens[1..])
  }

  function TextOf(t: Token): string {
    match t
    case Plain(c) => [c]
    case Identifier(name) => QuoteIdentifier(name)
  }

  /** The author writes no backtick and puts something between two names. */
  ghost predicate Separated(tokens: seq<Token>) {
    && (forall i :: 0 <= i < |tokens| ==> tokens[i] != Plain('`'))
    && forall i, j :: 0 <= i < j < |tokens| && j == i + 1 ==> tokens[i].Plain? || tokens[j].Plain?
  }

  lemma ScanIsShorter(s: string)
    ensures Scan(s).Some? ==> |Scan(s).value.1| < |s|
  {
    if Scan(s).Some? {
      ScanIff(s, Scan(s).value.0, Scan(s).value.1);
    }
  }

  /** How a reader of the statement takes it apart. */
  function Tokens(s: string): Option<seq<Token>>
    decreases |s|
  {
    if s == "" then Some([])
    else if !Opens(s) then Onto(Plain(s[0]), Tokens(s[1..]))
    else
      ScanIsShorter(s);
      match Scan(s)
      case None => None
      case Some((name, rest)) => Onto(Identifier(name), Tokens(rest))
  }

  function Onto(t: Token, tokens: Option<seq<Token>>): Option<seq<Token>> {
    match tokens
    case None => None
    case Some(ts) => Some([t] + ts)
  }

  lemma {:induction false} TokensRead(tokens: seq<Token>)
    requires Separated(tokens)
    ensures Tokens(Render(tokens)) == Some(tokens)
    ensures Opens(Render(tokens)) <==> tokens != [] && tokens[0].Identifier?
  {
    if tokens != [] {
      var rest := Render(tokens[1..]);
      TokensRead(tokens[1..]);
      assert tokens == [tokens[0]] + tokens[1..];
      match tokens[0] {
        case Plain(c) =>
          assert Render(tokens)[1..] == rest;
        case Identifier(name) =>
          assert tokens[1..] != [] ==> tokens[1].Plain?;
          ScanIff(Render(tokens), name, rest);
      }
    }
  }

  lemma {:induction false} TokensAreSound(s: string)
    ensures Tokens(s).Some? ==> Separated(Tokens(s).value) && Render(Tokens(s).value) == s
    decreases |s|
  {
    if s != "" && Tokens(s).Some? {
      var tokens := Tokens(s).value;
      if Opens(s) {
        ScanIsShorter(s);
        var (name, rest) := Scan(s).value;
        ScanIff(s, name, rest);
        TokensAreSound(rest);
        TokensRead(tokens[1..]);
      } else {
        TokensAreSound(s[1..]);
      }
    }
  }

  /** To a reader for whom doubling is the only escape, interpolated names never change how a statement reads:
      it is taken apart into the author's text and exactly the names that were put in, whatever they contain. */
  lemma TokensIff(s: string, tokens: seq<Token>)
    ensures Tokens(s) == Some(tokens) <==> Separated(tokens) && s == Render(tokens)
  {
    TokensAreSound(s);
    if Separated(tokens) {
      TokensRead(tokens);
    }
  }

  /** A qualified reference reads back as exactly its database and table, so no two pairs share one. */
  lemma QualifyIsExact(database: string, table: string, s: string)
    ensures Tokens(s) == Some([Identifier(database), Plain('.'), Identifier(table)]) <==> s == Qualify(database, table)
    ensures forall d, t :: Qualify(d, t) == Qualify(database, table) ==> d == database && t == table
  {
    QualifyIsRendered(database, table);
    TokensIff(s, [Identifier(database), Plain('.'), Identifier(table)]);
    TokensIff(Qualify(database, table), [Identifier(database), Plain('.'), Identifier(table)]);
    forall d, t | Qualify(d, t) == Qualify(database, table) ensures d == database && t == table {
      QualifyIsRendered(d, t);
      TokensIff(Qualify(d, t), [Identifier(d), Plain('.'), Identifier(t)]);
    }
  }

  lemma QualifyIsRendered(database: string, table: string)
    ensures Render([Identifier(database), Plain('.'), Identifier(table)]) == Qualify(database, table)
  {
    var tokens := [Identifier(database), Plain('.'), Identifier(table)];
    assert tokens[1..][1..] == [Identifier(table)];
    assert Render([Identifier(table)]) == QuoteIdentifier(table);
  }

  /** Without something between them two names run together and read as one other name. */
  lemma AdjacentNamesRunTogether(a: string, b: string)
    ensures Scan(QuoteIdentifier(a) + QuoteIdentifier(b)) == Some((a + "`" + b, ""))
  {
    DoubledSplits(a, "`" + b);
    assert ("`" + b)[1..] == b;
    assert a + "`" + b == a + ("`" + b);
    ScanIff(QuoteIdentifier(a) + QuoteIdentifier(b), a + "`" + b, "");
  }

  lemma {:induction false} DoubledSplits(a: string, b: string)
    ensures Doubled(a + b) == Doubled(a) + Doubled(b)
  {
    if a == "" {
      assert a + b == b;
    } else {
      assert (a + b)[1..] == a[1..] + b;
      DoubledSplits(a[1..], b);
    }
  }
}
