/** The string-literal printer of backend/api/routes_ai.py and the reader that has to
    undo it: short string literals as section 2.4.1 of the Python Language Reference
    defines them. */
module PythonLiteral {
  import opened Wrappers

  // ---------------------------------------------------------------------------
  // The printer
  // ---------------------------------------------------------------------------

  /** `s.replace(c, sub)` for a one-character pattern. */
  function ReplaceAll(s: string, c: char, sub: string): string {
    if s == "" then "" else (if s[0] == c then sub else [s[0]]) + ReplaceAll(s[1..], c, sub)
  }

  /** The four replacements, in the order the code chains them. */
  function Escape(value: string): string {
    ReplaceAll(ReplaceAll(ReplaceAll(ReplaceAll(value, '\\', "\\\\"), '"', "\\\""), '\n', "\\n"), '\r', "\\r")
  }

  function Literal(value: string): string { "\"" + Escape(value) + "\"" }

  // ---------------------------------------------------------------------------
  // The reader
  // ---------------------------------------------------------------------------

  /** The single-character escapes. `None` for the numeric and named ones (octal, x, N, u, U),
      which this reader does not interpret. */
  function Unescape(c: char): Option<string> {
    if c == '\\' || c == '\'' || c == '"' then Some([c])
    else if c == 'n' then Some("\n")
    else if c == 'r' then Some("\r")
    else if c == 't' then Some("\t")
    else if c == 'a' then Some("\U{7}")
    else if c == 'b' then Some("\U{8}")
    else if c == 'v' then Some("\U{B}")
    else if c == 'f' then Some("\U{C}")
    else if c == '\n' || c == '\r' then Some("")
    else if '0' <= c <= '7' || c in "xNuU" then None
    else Some(['\\', c])
  }

  /** Reads up to the closing quote; the result is the value and the text after the literal.
      A raw line break or NUL, or the end of the text, is an error. */
  function ReadBody(src: string): Option<(string, string)>
    decreases |src|
  {
    if src == "" || src[0] in "\n\r\0" then None
    else if src[0] == '"' then Some(("", src[1..]))
    else if src[0] != '\\' then Prepend([src[0]], ReadBody(src[1..]))
    else if |src| == 1 || src[1] == '\0' || Unescape(src[1]) == None then None
    else
      var skip := if src[1] == '\r' && |src| > 2 && src[2] == '\n' then 3 else 2;
      Prepend(Unescape(src[1]).value, ReadBody(src[skip..]))
  }

  function Prepend(head: string, r: Option<(string, string)>): Option<(string, string)> {
    match r
    case None => None
    case Some((value, rest)) => Some((head + value, rest))
  }

  /** A short string literal at the start of src; three quotes open a long one instead. */
  function Read(src: string): Option<(string, string)> {
    if src == "" || src[0] != '"' || (|src| >= 3 && src[1] == '"' && src[2] == '"') then None
    else ReadBody(src[1..])
  }

  // ---------------------------------------------------------------------------
  // One pass
  // ---------------------------------------------------------------------------

  function EscapeChar(c: char): string {
    match c
    case '\\' => "\\\\"
    case '"' => "\\\""
    case '\n' => "\\n"
    case '\r' => "\\r"
    case _ => [c]
  }

  function EscapeOnce(s: string): string {
    if s == "" then "" else EscapeChar(s[0]) + EscapeOnce(s[1..])
  }

  lemma {:induction false} ReplaceAllConcat(a: string, b: string, c: char, sub: string)
    ensures ReplaceAll(a + b, c, sub) == ReplaceAll(a, c, sub) + ReplaceAll(b, c, sub)
    decreases |a|
  {
    if a == "" {
      assert a + b == b;
    } else {
      assert (a + b)[1..] == a[1..] + b;
      ReplaceAllConcat(a[1..], b, c, sub);
    }
  }

  lemma EscapeConcat(a: string, b: string)
    ensures Escape(a + b) == Escape(a) + Escape(b)
  {
    var a1, b1 := ReplaceAll(a, '\\', "\\\\"), ReplaceAll(b, '\\', "\\\\");
    var a2, b2 := ReplaceAll(a1, '"', "\\\""), ReplaceAll(b1, '"', "\\\"");
    var a3, b3 := ReplaceAll(a2, '\n', "\\n"), ReplaceAll(b2, '\n', "\\n");
    ReplaceAllConcat(a, b, '\\', "\\\\");
    ReplaceAllConcat(a1, b1, '"', "\\\"");
    ReplaceAllConcat(a2, b2, '\n', "\\n");
    ReplaceAllConcat(a3, b3, '\r', "\\r");
  }

  lemma EscapeSingle(c: char)
    ensures Escape([c]) == EscapeChar(c)
  {
    ReplaceOne(c, '\\', "\\\\");
    ReplaceOne(c, '"', "\\\"");
    ReplaceOne(c, '\n', "\\n");
    ReplaceOne(c, '\r', "\\r");
    if c == '\\' {
      ReplacePair(c, '"', "\\\"");
      ReplacePair(c, '\n', "\\n");
      ReplacePair(c, '\r', "\\r");
    } else if c == '"' {
      ReplacePair(c, '\n', "\\n");
      ReplacePair(c, '\r', "\\r");
    } else if c == '\n' {
      ReplacePair('n', '\r', "\\r");
    }
  }

  lemma ReplaceOne(c: char, d: char, sub: string)
    ensures ReplaceAll([c], d, sub) == if c == d then sub else [c]
  {
  }

  /** An escape pair is left alone by the later replacements. */
  lemma ReplacePair(c: char, d: char, sub: string)
    requires c != d && d != '\\'
    ensures ReplaceAll(['\\', c], d, sub) == ['\\', c]
  {
    ReplaceOne(c, d, sub);
    assert ['\\', c][1..] == [c];
  }

  /** The four successive replacements are one character-by-character pass. */
  lemma {:induction false} EscapeIsOnePass(s: string)
    ensures Escape(s) == EscapeOnce(s)
    decreases |s|
  {
    if s != "" {
      assert s == [s[0]] + s[1..];
      EscapeConcat([s[0]], s[1..]);
      EscapeSingle(s[0]);
      EscapeIsOnePass(s[1..]);
    }
  }

  // ---------------------------------------------------------------------------
  // Reading back
  // ---------------------------------------------------------------------------

  lemma ReadOneEscaped(c: char, tail: string)
    ensures ReadBody(EscapeChar(c) + tail) == if c == '\0' then None else Prepend([c], ReadBody(tail))
  {
    var src := EscapeChar(c) + tail;
    assert src[|EscapeChar(c)|..] == tail;
    assert src[0] == EscapeChar(c)[0];
    if |EscapeChar(c)| == 2 {
      assert src[1] == EscapeChar(c)[1];
    }
  }

  lemma ReadClosed(rest: string)
    ensures ReadBody("\"" + rest) == Some(("", rest))
  {
    var src := "\"" + rest;
    assert src[0] == '"' && src[1..] == rest;
  }

  lemma EscapedSplit(s: string, rest: string)
    requires s != ""
    ensures EscapeOnce(s) + rest == EscapeChar(s[0]) + (EscapeOnce(s[1..]) + rest)
  {
    Assoc(EscapeChar(s[0]), EscapeOnce(s[1..]), rest);
  }

  lemma Assoc(a: string, b: string, c: string)
    ensures (a + b) + c == a + (b + c)
  {
  }

  lemma {:induction false} ReadBodyOfEscaped(s: string, rest: string)
    ensures ReadBody(EscapeOnce(s) + ("\"" + rest)) == if '\0' in s then None else Some((s, rest))
    decreases |s|
  {
    var closing := "\"" + rest;
    if s == "" {
      assert EscapeOnce(s) + closing == closing;
      ReadClosed(rest);
    } else {
      EscapedSplit(s, closing);
      ReadOneEscaped(s[0], EscapeOnce(s[1..]) + closing);
      ReadBodyOfEscaped(s[1..], rest);
      assert s == [s[0]] + s[1..];
    }
  }

  /** Printed and read back in front of any other source text, a value comes out unchanged and
      the literal ends where it was closed, exactly when the value has no NUL and an empty
      value is not followed by a quote. */
  lemma LiteralReadsBackIff(value: string, rest: string)
    ensures Read(Literal(value) + rest) == Some((value, rest))
            <==> '\0' !in value && (value == "" && rest != "" ==> rest[0] != '"')
  {
    EscapeIsOnePass(value);
    var body := EscapeOnce(value) + ("\"" + rest);
    var src := Literal(value) + rest;
    assert src == "\"" + body;
    ReadBodyOfEscaped(value, rest);
    ReadOpens(body);
    if value == "" {
      assert body == "\"" + rest;
    } else {
      EscapeNeverOpensWithQuote(value);
      assert body[0] == EscapeOnce(value)[0];
    }
  }

  lemma ReadOpens(body: string)
    ensures Read("\"" + body) == if |body| >= 2 && body[0] == '"' && body[1] == '"' then None else ReadBody(body)
  {
    var src := "\"" + body;
    assert src[1..] == body;
    assert |body| >= 2 ==> src[1] == body[0] && src[2] == body[1];
  }

  lemma EscapeNeverOpensWithQuote(value: string)
    requires value != ""
    ensures EscapeOnce(value) != "" && EscapeOnce(value)[0] != '"'
  {
  }

  /** The literal stays on one line. */
  lemma {:induction false} LiteralOneLine(value: string)
    ensures '\n' !in Literal(value) && '\r' !in Literal(value)
    decreases |value|
  {
    EscapeIsOnePass(value);
    if value != "" {
      LiteralOneLine(value[1..]);
      EscapeIsOnePass(value[1..]);
      forall c | c in EscapeOnce(value) ensures c != '\n' && c != '\r' {
        assert c in EscapeChar(value[0]) || c in Literal(value[1..]);
      }
    }
  }

  /** Different values print differently, NUL or not. */
  lemma LiteralInjective(a: string, b: string)
    requires Literal(a) == Literal(b)
    ensures a == b
  {
    EscapeIsOnePass(a);
    EscapeIsOnePass(b);
    assert Literal(a)[1..|Literal(a)| - 1] == EscapeOnce(a);
    assert Literal(b)[1..|Literal(b)| - 1] == EscapeOnce(b);
    EscapeOnceInjective(a, b);
  }

  lemma EscapeIsPrefixCode(c: char, d: char, u: string, v: string)
    requires EscapeChar(c) + u == EscapeChar(d) + v
    ensures c == d && u == v
  {
    var w := EscapeChar(c) + u;
    assert w[0] == EscapeChar(c)[0] == EscapeChar(d)[0];
    if |EscapeChar(c)| == 2 && |EscapeChar(d)| == 2 {
      assert w[1] == EscapeChar(c)[1] == EscapeChar(d)[1];
    }
    assert w[|EscapeChar(c)|..] == u && w[|EscapeChar(d)|..] == v;
  }

  lemma {:induction false} EscapeOnceInjective(a: string, b: string)
    requires EscapeOnce(a) == EscapeOnce(b)
    ensures a == b
    decreases |a|
  {
    if a != "" && b != "" {
      EscapeIsPrefixCode(a[0], b[0], EscapeOnce(a[1..]), EscapeOnce(b[1..]));
      EscapeOnceInjective(a[1..], b[1..]);
      assert a == [a[0]] + a[1..] && b == [b[0]] + b[1..];
    } else if a != "" {
      EscapeNeverOpensWithQuote(a);
    } else if b != "" {
      EscapeNeverOpensWithQuote(b);
    }
  }
}
