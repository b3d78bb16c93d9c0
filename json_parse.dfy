/**
 * `JSON.parse` as a recursive-descent parser over the text (RFC 8259 grammar,
 * with integer numbers only). Every function consumes a prefix of its input and
 * returns what it read together with the unread rest.
 */
module JsonParse {
  import opened Wrappers
  import opened Text
  import opened Json

  /** The white space RFC 8259 allows between tokens. */
  predicate IsWs(c: char) { c == ' ' || c == '\t' || c == '\n' || c == '\r' }

  function SkipWs(s: string): (t: string)
    ensures |t| <= |s|
    ensures t == [] || !IsWs(t[0])
  {
    if s != [] && IsWs(s[0]) then SkipWs(s[1..]) else s
  }

  /** The value of a hexadecimal digit, in either case. */
  function HexValue(c: char): (r: Option<nat>)
    ensures r.Some? ==> r.value < 16
  {
    if '0' <= c <= '9' then Some(c as int - '0' as int)
    else if 'a' <= c <= 'f' then Some(c as int - 'a' as int + 10)
    else if 'A' <= c <= 'F' then Some(c as int - 'A' as int + 10)
    else None
  }

  /** The code unit of a `\uXXXX` escape, from the four characters after the `u`. */
  function HexQuad(s: string): (r: Option<nat>)
    requires |s| == 4
    ensures r.Some? ==> r.value < 0x1_0000
  {
    match (HexValue(s[0]), HexValue(s[1]), HexValue(s[2]), HexValue(s[3]))
    case (Some(a), Some(b), Some(c), Some(d)) => Some(4096 * a + 256 * b + 16 * c + d)
    case _ => None
  }

  /**
   * The character an escape sequence stands for, given the text after the
   * backslash, and how many characters of that text the escape uses. A high
   * surrogate escape followed by a low surrogate escape stands for the one
   * character the pair encodes in UTF-16; a surrogate escape on its own is
   * not a character here.
   */
  function Unescape(s: string): (r: Option<(char, nat)>)
    requires s != []
    ensures r.Some? ==> 1 <= r.value.1 <= |s|
  {
    match s[0]
    case '"' => Some(('"', 1))
    case '\\' => Some(('\\', 1))
    case '/' => Some(('/', 1))
    case 'b' => Some(('\U{08}', 1))
    case 'f' => Some(('\U{0C}', 1))
    case 'n' => Some(('\n', 1))
    case 'r' => Some(('\r', 1))
    case 't' => Some(('\t', 1))
    case 'u' =>
      if |s| < 5 then None
      else (match HexQuad(s[1..5])
        case Some(code) =>
          if code < 0xD800 || 0xE000 <= code then Some((code as char, 5))
          else if code < 0xDC00 && |s| >= 11 && s[5] == '\\' && s[6] == 'u' then
            (match HexQuad(s[7..11])
              case Some(low) =>
                if 0xDC00 <= low < 0xE000 then Some((SurrogatePair(code, low), 11)) else None
              case None => None)
          else None
        case None => None)
    case _ => None
  }

  /** The character a UTF-16 surrogate pair encodes: one beyond the Basic Multilingual Plane. */
  function SurrogatePair(high: nat, low: nat): (c: char)
    requires 0xD800 <= high < 0xDC00 && 0xDC00 <= low < 0xE000
    ensures 0x1_0000 <= c as int < 0x11_0000
    ensures (c as int - 0x1_0000) / 0x400 == high - 0xD800 && (c as int - 0x1_0000) % 0x400 == low - 0xDC00
  {
    var h, l := high - 0xD800, low - 0xDC00;
    assert h * 0x400 <= 0x3FF * 0x400;
    (0x1_0000 + h * 0x400 + l) as char
  }

  /**
   * The characters of a string literal whose opening quote has been read, up to
   * and including the closing quote. Raw control characters are rejected.
   */
  function ParseChars(s: string): (r: Option<(string, string)>)
    ensures r.Some? ==> |r.value.1| < |s|
    decreases |s|
  {
    if s == [] then None
    else if s[0] == '"' then Some(([], s[1..]))
    else if s[0] == '\\' then
      if |s| < 2 then None
      else (match Unescape(s[1..])
        case None => None
        case Some((c, n)) =>
          match ParseChars(s[1 + n..])
          case None => None
          case Some((t, rest)) => Some(([c] + t, rest)))
    else if s[0] < ' ' then None
    else
      match ParseChars(s[1..])
      case None => None
      case Some((t, rest)) => Some(([s[0]] + t, rest))
  }

  /** An escaped surrogate pair reads as the one character it encodes, as `JSON.parse` reads it. */
  lemma SurrogatePairEscape(rest: string)
    ensures ParseChars("\\ud83d\\ude00\"" + rest) == Some(("\U{1F600}", rest))
  {
    var high, low := "d83d", "de00";
    var e := "u" + high + "\\u" + low + "\"" + rest;
    assert "\\ud83d\\ude00\"" + rest == "\\" + e;
    assert e[1..5] == high && e[7..11] == low;
    assert e[0] == 'u' && e[5] == '\\' && e[6] == 'u';
    assert HexQuad(high) == Some(0xD83D);
    assert HexQuad(low) == Some(0xDE00);
    assert SurrogatePair(0xD83D, 0xDE00) == '\U{1F600}';
    assert Unescape(e) == Some(('\U{1F600}', 11));
    assert ("\\" + e)[0] == '\\' && ("\\" + e)[1..] == e;
    var close := "\"" + rest;
    assert e[11..] == close && ("\\" + e)[12..] == close;
    assert close[0] == '"' && close[1..] == rest;
    assert ParseChars(close) == Some(([], rest));
    var whole := "\\" + e;
    assert |whole| >= 2 && whole[0] == '\\' && whole[1..] == e && whole[1 + 11..] == close;
    assert ParseChars(whole) == Some((['\U{1F600}'] + [], rest));
    assert ['\U{1F600}'] + [] == "\U{1F600}";
  }

  /** The number of decimal digits at the start of `s`. */
  function DigitRun(s: string): (k: nat)
    ensures k <= |s|
    ensures forall i :: 0 <= i < k ==> IsDigit(s[i])
    ensures k < |s| ==> !IsDigit(s[k])
  {
    if s != [] && IsDigit(s[0]) then 1 + DigitRun(s[1..]) else 0
  }

  /** An unsigned integer: `0`, or a digit run that does not start with `0`. */
  function ParseNat(s: string): (r: Option<(nat, string)>)
    ensures r.Some? ==> |r.value.1| < |s|
  {
    var k := DigitRun(s);
    if k == 0 || (s[0] == '0' && k > 1) then None
    else Some((DigitsValue(s[..k]), s[k..]))
  }

  /** A number with an optional minus sign. */
  function ParseInt(s: string): (r: Option<(int, string)>)
    ensures r.Some? ==> |r.value.1| < |s|
  {
    if s != [] && s[0] == '-' then
      match ParseNat(s[1..])
      case None => None
      case Some((n, rest)) => Some((-(n as int), rest))
    else
      match ParseNat(s)
      case None => None
      case Some((n, rest)) => Some((n, rest))
  }

  /** One of the words `null`, `true`, `false`. */
  function ParseWord(s: string, word: string, v: Json): (r: Option<(Json, string)>)
    requires word != []
    ensures r.Some? ==> |r.value.1| < |s| && r.value.0 == v
  {
    if word <= s then Some((v, s[|word|..])) else None
  }

  /** A value, after optional white space. */
  function ParseValue(s: string): (r: Option<(Json, string)>)
    ensures r.Some? ==> |r.value.1| < |s|
    decreases |s|, 0
  {
    var t := SkipWs(s);
    if t == [] then None
    else if t[0] == 'n' then ParseWord(t, "null", Null)
    else if t[0] == 't' then ParseWord(t, "true", Bool(true))
    else if t[0] == 'f' then ParseWord(t, "false", Bool(false))
    else if t[0] == '"' then
      match ParseChars(t[1..])
      case None => None
      case Some((str, rest)) => Some((Str(str), rest))
    else if t[0] == '-' || IsDigit(t[0]) then
      match ParseInt(t)
      case None => None
      case Some((n, rest)) => Some((Num(n), rest))
    else if t[0] == '[' then ParseArray(t[1..])
    else if t[0] == '{' then ParseObject(t[1..])
    else None
  }

  /** An array whose `[` has been read. */
  function ParseArray(s: string): (r: Option<(Json, string)>)
    ensures r.Some? ==> |r.value.1| < |s|
    decreases |s|, 3
  {
    var u := SkipWs(s);
    if u != [] && u[0] == ']' then Some((Arr([]), u[1..]))
    else
      match ParseElements(s)
      case None => None
      case Some((items, rest)) => Some((Arr(items), rest))
  }

  /** The elements of a non-empty array and its closing `]`. */
  function ParseElements(s: string): (r: Option<(seq<Json>, string)>)
    ensures r.Some? ==> |r.value.1| < |s|
    decreases |s|, 2
  {
    match ParseValue(s)
    case None => None
    case Some((v, afterValue)) =>
      var u := SkipWs(afterValue);
      if u == [] then None
      else if u[0] == ']' then Some(([v], u[1..]))
      else if u[0] == ',' then
        match ParseElements(u[1..])
        case None => None
        case Some((vs, rest)) => Some(([v] + vs, rest))
      else None
  }

  /** An object whose `{` has been read; repeated keys are assigned in turn. */
  function ParseObject(s: string): (r: Option<(Json, string)>)
    ensures r.Some? ==> |r.value.1| < |s|
    decreases |s|, 3
  {
    var u := SkipWs(s);
    if u != [] && u[0] == '}' then Some((Obj([]), u[1..]))
    else
      match ParseMembers(s)
      case None => None
      case Some((ms, rest)) => Some((Obj(Dedupe(ms)), rest))
  }

  /** The members of a non-empty object literal, in text order, and its closing `}`. */
  function ParseMembers(s: string): (r: Option<(seq<Member>, string)>)
    ensures r.Some? ==> |r.value.1| < |s|
    decreases |s|, 2
  {
    match ParseMember(s)
    case None => None
    case Some((m, afterMember)) =>
      var w := SkipWs(afterMember);
      if w == [] then None
      else if w[0] == '}' then Some(([m], w[1..]))
      else if w[0] == ',' then
        match ParseMembers(w[1..])
        case None => None
        case Some((ms, rest)) => Some(([m] + ms, rest))
      else None
  }

  /** One `"key": value` pair, after optional white space. */
  function ParseMember(s: string): (r: Option<(Member, string)>)
    ensures r.Some? ==> |r.value.1| < |s|
    decreases |s|, 1
  {
    var u := SkipWs(s);
    if u == [] || u[0] != '"' then None
    else
      match ParseChars(u[1..])
      case None => None
      case Some((key, afterKey)) =>
        var c := SkipWs(afterKey);
        if c == [] || c[0] != ':' then None
        else
          match ParseValue(c[1..])
          case None => None
          case Some((v, rest)) => Some((Member(key, v), rest))
  }

  /** `JSON.parse(text)`: one value, with nothing but white space around it. */
  function Parse(text: string): (r: Option<Json>)
    ensures r.Some? ==> WellFormed(r.value)
  {
    ParsedWellFormed(text);
    match ParseValue(text)
    case None => None
    case Some((v, rest)) => if SkipWs(rest) == [] then Some(v) else None
  }

  /* Every value the parser builds is well formed: `ParseObject` removes repeated keys. */

  lemma {:induction false} ParsedWellFormed(s: string)
    ensures ParseValue(s).Some? ==> WellFormed(ParseValue(s).value.0)
    decreases |s|, 0
  {
    var t := SkipWs(s);
    if t != [] && t[0] == '[' {
      ArrayWellFormed(t[1..]);
    } else if t != [] && t[0] == '{' {
      ObjectWellFormed(t[1..]);
    }
  }

  lemma {:induction false} ArrayWellFormed(s: string)
    ensures ParseArray(s).Some? ==> WellFormed(ParseArray(s).value.0)
    decreases |s|, 3
  {
    ElementsWellFormed(s);
  }

  lemma {:induction false} ElementsWellFormed(s: string)
    ensures ParseElements(s).Some? ==> forall i :: 0 <= i < |ParseElements(s).value.0| ==> WellFormed(ParseElements(s).value.0[i])
    decreases |s|, 2
  {
    ParsedWellFormed(s);
    match ParseValue(s)
    case None =>
    case Some((v, afterValue)) =>
      var u := SkipWs(afterValue);
      if u != [] && u[0] == ',' {
        ElementsWellFormed(u[1..]);
      }
  }

  lemma {:induction false} ObjectWellFormed(s: string)
    ensures ParseObject(s).Some? ==> WellFormed(ParseObject(s).value.0)
    decreases |s|, 3
  {
    MembersWellFormed(s);
    match ParseMembers(s)
    case None =>
    case Some((ms, rest)) => DedupeMembers(ms);
  }

  lemma {:induction false} MembersWellFormed(s: string)
    ensures ParseMembers(s).Some? ==> forall i :: 0 <= i < |ParseMembers(s).value.0| ==> WellFormed(ParseMembers(s).value.0[i].value)
    decreases |s|, 2
  {
    MemberWellFormed(s);
    match ParseMember(s)
    case None =>
    case Some((m, afterMember)) =>
      var w := SkipWs(afterMember);
      if w != [] && w[0] == ',' {
        MembersWellFormed(w[1..]);
      }
  }

  lemma {:induction false} MemberWellFormed(s: string)
    ensures ParseMember(s).Some? ==> WellFormed(ParseMember(s).value.0.value)
    decreases |s|, 1
  {
    var u := SkipWs(s);
    if u != [] && u[0] == '"' {
      match ParseChars(u[1..])
      case None =>
      case Some((key, afterKey)) =>
        var c := SkipWs(afterKey);
        if c != [] && c[0] == ':' {
          ParsedWellFormed(c[1..]);
        }
    }
  }
}
