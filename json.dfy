/**
 * `JSON.stringify` on the values the client serialises (strings, arrays of
 * strings, objects whose members are strings), following the string quoting
 * of section 25.5.2.3 of ECMA-262, and a decoder that reads that output back.
 */
module Json {
  import opened Wrappers
  import opened JsNumber

  /** Four hexadecimal digits, either case, most significant first. */
  function Hex4(s: string): (r: Option<nat>)
    requires |s| == 4
    ensures r.Some? ==> r.value < 0x10000
  {
    if IsHexDigit(s[0]) && IsHexDigit(s[1]) && IsHexDigit(s[2]) && IsHexDigit(s[3]) then
      Some(((DigitValue(s[0]) * 16 + DigitValue(s[1])) * 16 + DigitValue(s[2])) * 16 + DigitValue(s[3]))
    else None
  }

  /** How `JSON.stringify` writes one code point inside a string literal. */
  function EscapeChar(c: char): string {
    var n := c as int;
    if n == 0x08 then "\\b"
    else if n == 0x09 then "\\t"
    else if n == 0x0A then "\\n"
    else if n == 0x0C then "\\f"
    else if n == 0x0D then "\\r"
    else if c == '"' then "\\\""
    else if c == '\\' then "\\\\"
    else if n < 0x20 then "\\u00" + [HexDigit(n / 16), HexDigit(n % 16)]
    else [c]
  }

  function Escape(s: string): string {
    if s == [] then [] else EscapeChar(s[0]) + Escape(s[1..])
  }

  /** `JSON.stringify(s)` for a string `s`. */
  function Quote(s: string): string {
    "\"" + Escape(s) + "\""
  }

  /** `JSON.stringify(xs)` for an array of strings. */
  function StringifyStrings(xs: seq<string>): string {
    "[" + Elements(xs) + "]"
  }

  function Elements(xs: seq<string>): string {
    if xs == [] then []
    else if |xs| == 1 then Quote(xs[0])
    else Quote(xs[0]) + "," + Elements(xs[1..])
  }

  /** `JSON.stringify(o)` for an object whose members, in insertion order, all hold strings. */
  function StringifyObject(members: seq<(string, string)>): string {
    "{" + Members(members) + "}"
  }

  function Member(m: (string, string)): string {
    Quote(m.0) + ":" + Quote(m.1)
  }

  function Members(ms: seq<(string, string)>): string {
    if ms == [] then []
    else if |ms| == 1 then Member(ms[0])
    else Member(ms[0]) + "," + Members(ms[1..])
  }

  /** The character an escape sequence stands for (`s` follows the backslash), and its length. */
  function Unescape(s: string): (r: Option<(char, nat)>)
    ensures r.Some? ==> 1 <= r.value.1 <= |s|
  {
    if s == [] then None
    else if s[0] == '"' || s[0] == '\\' || s[0] == '/' then Some((s[0], 1))
    else if s[0] == 'b' then Some((0x08 as char, 1))
    else if s[0] == 't' then Some((0x09 as char, 1))
    else if s[0] == 'n' then Some((0x0A as char, 1))
    else if s[0] == 'f' then Some((0x0C as char, 1))
    else if s[0] == 'r' then Some((0x0D as char, 1))
    else if s[0] == 'u' && |s| >= 5 then
      match Hex4(s[1..5])
      case Some(v) => if v < 0xD800 || 0xE000 <= v then Some((v as char, 5)) else None
      case None => None
    else None
  }

  /**
   * Reads the body of a string literal up to its closing quote (`s` follows
   * the opening quote); gives the decoded text and what follows the literal.
   */
  function DecodeChars(s: string): (r: Option<(string, string)>)
    ensures r.Some? ==> |r.value.1| < |s|
    decreases |s|
  {
    if s == [] then None
    else if s[0] == '"' then Some(([], s[1..]))
    else if s[0] == '\\' then
      match Unescape(s[1..])
      case None => None
      case Some((c, k)) => Prepend(c, DecodeChars(s[1 + k..]))
    else if (s[0] as int) < 0x20 then None
    else Prepend(s[0], DecodeChars(s[1..]))
  }

  /** Puts `c` in front of a decoded text. */
  function Prepend(c: char, r: Option<(string, string)>): (r': Option<(string, string)>)
    ensures r'.Some? <==> r.Some?
    ensures r.Some? ==> r'.value.1 == r.value.1
  {
    match r
    case None => None
    case Some((t, rest)) => Some(([c] + t, rest))
  }

  /** A string literal at the start of `s`: its text and what follows it. */
  function DecodeString(s: string): (r: Option<(string, string)>)
    ensures r.Some? ==> |r.value.1| < |s|
  {
    if s != [] && s[0] == '"' then DecodeChars(s[1..]) else None
  }

  function ParseStrings(s: string): Option<seq<string>> {
    if s == "[]" then Some([])
    else if s != [] && s[0] == '[' then DecodeElements(s[1..])
    else None
  }

  /** Comma-separated string literals closed by ']'. */
  function DecodeElements(s: string): Option<seq<string>>
    decreases |s|
  {
    match DecodeString(s)
    case None => None
    case Some((x, rest)) =>
      if rest == "]" then Some([x])
      else if rest != [] && rest[0] == ',' then
        match DecodeElements(rest[1..])
        case None => None
        case Some(ys) => Some([x] + ys)
      else None
  }

  function ParseObject(s: string): Option<seq<(string, string)>> {
    if s == "{}" then Some([])
    else if s != [] && s[0] == '{' then DecodeMembers(s[1..])
    else None
  }

  /** Comma-separated `"key":"value"` members closed by '}'. */
  function DecodeMembers(s: string): Option<seq<(string, string)>>
    decreases |s|
  {
    match DecodeString(s)
    case None => None
    case Some((k, afterKey)) =>
      if afterKey == [] || afterKey[0] != ':' then None
      else
        match DecodeString(afterKey[1..])
        case None => None
        case Some((v, rest)) =>
          if rest == "}" then Some([(k, v)])
          else if rest != [] && rest[0] == ',' then
            match DecodeMembers(rest[1..])
            case None => None
            case Some(ms) => Some([(k, v)] + ms)
          else None
  }

  /** An escape sequence `\e` is decoded back, whatever follows it. */
  lemma DecodeAfterEscape(e: string, c: char, x: string)
    requires |e| >= 1 && Unescape(e + x) == Some((c, |e|))
    ensures DecodeChars("\\" + e + x) == Prepend(c, DecodeChars(x))
  {
    var s := "\\" + e + x;
    assert s[0] == '\\';
    assert s[1..] == e + x;
    assert s[1 + |e|..] == x;
  }

  lemma DecodeUnicodeEscape(c: char, x: string)
    requires c as int < 0x20
    ensures DecodeChars(EscapeChar(c) + x) == Prepend(c, DecodeChars(x))
  {
    var n := c as int;
    if n == 0x08 || n == 0x09 || n == 0x0A || n == 0x0C || n == 0x0D {
      DecodeShortEscape(c, x);
    } else {
      var e := "u00" + [HexDigit(n / 16), HexDigit(n % 16)];
      assert (e + x)[1..5] == e[1..5];
      assert Hex4(e[1..5]) == Some(n);
      DecodeAfterEscape(e, c, x);
      assert EscapeChar(c) == "\\" + e;
    }
  }

  lemma DecodeShortEscape(c: char, x: string)
    requires c as int in {0x08, 0x09, 0x0A, 0x0C, 0x0D} || c == '"' || c == '\\'
    ensures |EscapeChar(c)| == 2 && EscapeChar(c) == "\\" + [EscapeChar(c)[1]]
    ensures DecodeChars(EscapeChar(c) + x) == Prepend(c, DecodeChars(x))
  {
    var e := [EscapeChar(c)[1]];
    assert EscapeChar(c) == "\\" + e;
    assert (e + x)[0] == e[0];
    DecodeAfterEscape(e, c, x);
  }

  /** One escaped code point is decoded back, whatever follows it. */
  lemma DecodeEscapeChar(c: char, x: string)
    ensures DecodeChars(EscapeChar(c) + x) == Prepend(c, DecodeChars(x))
  {
    if c as int < 0x20 {
      DecodeUnicodeEscape(c, x);
    } else if c == '"' || c == '\\' {
      DecodeShortEscape(c, x);
    } else {
      var s := EscapeChar(c) + x;
      assert s == [c] + x;
      assert s[1..] == x;
    }
  }

  lemma {:induction false} DecodeEscaped(t: string, rest: string)
    ensures DecodeChars(Escape(t) + "\"" + rest) == Some((t, rest))
  {
    if t == [] {
      assert Escape(t) + "\"" + rest == "\"" + rest;
    } else {
      var x := Escape(t[1..]) + "\"" + rest;
      assert Escape(t) + "\"" + rest == EscapeChar(t[0]) + x;
      DecodeEscaped(t[1..], rest);
      DecodeEscapeChar(t[0], x);
      assert [t[0]] + t[1..] == t;
    }
  }

  /** A quoted string is read back, and decoding resumes right after it. */
  lemma QuoteRoundTrip(t: string, rest: string)
    ensures DecodeString(Quote(t) + rest) == Some((t, rest))
  {
    var s := Quote(t) + rest;
    assert s[1..] == Escape(t) + "\"" + rest;
    DecodeEscaped(t, rest);
  }

  lemma DecodeLastElement(x: string)
    ensures DecodeElements(Quote(x) + "]") == Some([x])
  {
    QuoteRoundTrip(x, "]");
  }

  lemma DecodeNextElement(x: string, t: string)
    ensures DecodeElements(Quote(x) + ("," + t)) ==
      match DecodeElements(t)
      case None => None
      case Some(ys) => Some([x] + ys)
  {
    QuoteRoundTrip(x, "," + t);
    assert ("," + t)[1..] == t;
  }

  lemma {:induction false} ElementsRoundTrip(xs: seq<string>)
    requires xs != []
    ensures DecodeElements(Elements(xs) + "]") == Some(xs)
  {
    if |xs| == 1 {
      assert Elements(xs) + "]" == Quote(xs[0]) + "]";
      DecodeLastElement(xs[0]);
      assert [xs[0]] == xs;
    } else {
      var head, others := xs[0], xs[1..];
      var tail := Elements(others) + "]";
      ElementsRoundTrip(others);
      assert DecodeElements(tail) == Some(others);
      ElementsCons(xs);
      DecodeNextElement(head, tail);
      assert [head] + others == xs;
    }
  }

  lemma ElementsCons(xs: seq<string>)
    requires |xs| > 1
    ensures Elements(xs) + "]" == Quote(xs[0]) + ("," + (Elements(xs[1..]) + "]"))
  {
    var head, others := Quote(xs[0]), Elements(xs[1..]);
    assert Elements(xs) == head + "," + others;
    Regroup(head, others, "]");
  }

  /** Decoding `JSON.stringify` of an array of strings gives the same array back. */
  lemma StringifyStringsRoundTrip(xs: seq<string>)
    ensures ParseStrings(StringifyStrings(xs)) == Some(xs)
  {
    if xs != [] {
      var s, body := StringifyStrings(xs), Elements(xs);
      ElementsStartWithQuote(xs);
      assert s == "[" + (body + "]");
      assert s[1..] == body + "]" && s[1] == '"';
      ElementsRoundTrip(xs);
    }
  }

  lemma QuoteStartsWithQuote(x: string)
    ensures |Quote(x)| >= 2 && Quote(x)[0] == '"'
  {
    assert Quote(x) == ['"'] + (Escape(x) + ['"']);
  }

  lemma ElementsStartWithQuote(xs: seq<string>)
    requires xs != []
    ensures Elements(xs) != [] && Elements(xs)[0] == '"'
  {
    var q := Quote(xs[0]);
    QuoteStartsWithQuote(xs[0]);
    if |xs| == 1 {
      assert Elements(xs) == q;
    } else {
      var r := "," + Elements(xs[1..]);
      assert Elements(xs) == q + r;
      assert (q + r)[0] == q[0];
    }
  }

  lemma MemberRoundTrip(m: (string, string), rest: string)
    ensures var r := DecodeString(Member(m) + rest);
      r.Some? && r.value.0 == m.0 && r.value.1 != [] && r.value.1[0] == ':'
      && DecodeString(r.value.1[1..]) == Some((m.1, rest))
  {
    assert Member(m) + rest == Quote(m.0) + (":" + (Quote(m.1) + rest));
    QuoteRoundTrip(m.0, ":" + (Quote(m.1) + rest));
    assert (":" + (Quote(m.1) + rest))[1..] == Quote(m.1) + rest;
    QuoteRoundTrip(m.1, rest);
  }

  lemma DecodeLastMember(m: (string, string))
    ensures DecodeMembers(Member(m) + "}") == Some([m])
  {
    MemberRoundTrip(m, "}");
  }

  lemma DecodeNextMember(m: (string, string), t: string)
    ensures DecodeMembers(Member(m) + ("," + t)) ==
      match DecodeMembers(t)
      case None => None
      case Some(ms) => Some([m] + ms)
  {
    var s := Member(m) + ("," + t);
    MemberRoundTrip(m, "," + t);
    var afterKey := DecodeString(s).value.1;
    assert DecodeString(afterKey[1..]) == Some((m.1, "," + t));
    assert ("," + t)[1..] == t;
    assert ("," + t)[0] == ',';
    assert (m.0, m.1) == m;
  }

  lemma {:induction false} MembersRoundTrip(ms: seq<(string, string)>)
    requires ms != []
    ensures DecodeMembers(Members(ms) + "}") == Some(ms)
  {
    if |ms| == 1 {
      assert Members(ms) + "}" == Member(ms[0]) + "}";
      DecodeLastMember(ms[0]);
      assert [ms[0]] == ms;
    } else {
      var head, others := ms[0], ms[1..];
      var tail := Members(others) + "}";
      MembersRoundTrip(others);
      assert DecodeMembers(tail) == Some(others);
      MembersCons(ms);
      DecodeNextMember(head, tail);
      assert [head] + others == ms;
    }
  }

  lemma MembersCons(ms: seq<(string, string)>)
    requires |ms| > 1
    ensures Members(ms) + "}" == Member(ms[0]) + ("," + (Members(ms[1..]) + "}"))
  {
    var head, others := Member(ms[0]), Members(ms[1..]);
    assert Members(ms) == head + "," + others;
    Regroup(head, others, "}");
  }

  /** Moves the closing bracket of a list inside, next to its last element. */
  lemma Regroup(head: string, others: string, close: string)
    ensures (head + "," + others) + close == head + ("," + (others + close))
  {
  }

  /** Decoding `JSON.stringify` of a flat object of strings gives the same members back. */
  lemma StringifyObjectRoundTrip(ms: seq<(string, string)>)
    ensures ParseObject(StringifyObject(ms)) == Some(ms)
  {
    if ms != [] {
      var s, body := StringifyObject(ms), Members(ms);
      MembersStartWithQuote(ms);
      assert s == "{" + (body + "}");
      assert s[1..] == body + "}" && s[1] == '"';
      MembersRoundTrip(ms);
    }
  }

  lemma MemberStartsWithQuote(m: (string, string))
    ensures Member(m) != [] && Member(m)[0] == '"'
  {
    var q := Quote(m.0);
    QuoteStartsWithQuote(m.0);
    assert Member(m) == q + (":" + Quote(m.1));
  }

  lemma MembersStartWithQuote(ms: seq<(string, string)>)
    requires ms != []
    ensures Members(ms) != [] && Members(ms)[0] == '"'
  {
    var m := Member(ms[0]);
    MemberStartsWithQuote(ms[0]);
    if |ms| == 1 {
      assert Members(ms) == m;
    } else {
      var r := "," + Members(ms[1..]);
      assert Members(ms) == m + r;
      assert (m + r)[0] == m[0];
    }
  }
}
