/**
 * Parsing the text that `JSON.stringify(v, null, 2)` prints gives back `v`:
 * `Parse(Print(v)) == Some(v)` for every well-formed value, together with the
 * facts about white space, string escapes and numbers that the proof rests on.
 */
module JsonRoundTrip {
  import opened Wrappers
  import opened Text
  import opened Json
  import opened JsonParse

  predicate AllWs(w: string) { forall i :: 0 <= i < |w| ==> IsWs(w[i]) }

  /* Regrouping concatenations over plain strings, so that callers never need extensionality. */

  lemma Assoc3(a: string, b: string, c: string)
    ensures a + b + c == a + (b + c)
  {
  }

  lemma Assoc4(a: string, b: string, c: string, d: string)
    ensures a + b + c + d == a + (b + c + d)
  {
  }

  lemma Assoc5(a: string, b: string, c: string, d: string, e: string)
    ensures a + b + c + d + e == a + (b + c + d + e)
  {
  }

  lemma Nest5(a: string, b: string, c: string, d: string, e: string)
    ensures a + b + c + d + e == a + (b + (c + (d + e)))
  {
  }

  /** White space in front of a text does not change where parsing resumes. */
  lemma {:induction false} SkipWsPrefix(w: string, t: string)
    requires AllWs(w)
    ensures SkipWs(w + t) == SkipWs(t)
  {
    if w == [] {
      assert w + t == t;
    } else {
      assert (w + t)[0] == w[0] && (w + t)[1..] == w[1..] + t;
      SkipWsPrefix(w[1..], t);
    }
  }

  lemma NewlineIsWs(depth: nat)
    ensures AllWs(Newline(depth)) && Newline(depth) != []
  {
    var n := Newline(depth);
    assert n == "\n" + Spaces(2 * depth);
    forall i | 0 <= i < |n| ensures IsWs(n[i]) {
      if i > 0 { assert n[i] == Spaces(2 * depth)[i - 1]; }
    }
  }

  /** The characters a printed value can start with. */
  predicate StartsValue(c: char)
  {
    c == 'n' || c == 't' || c == 'f' || c == '"' || c == '-' || IsDigit(c) || c == '[' || c == '{'
  }

  lemma SerStart(v: Json, depth: nat)
    ensures Ser(v, depth) != [] && StartsValue(Ser(v, depth)[0])
  {
    match v
    case Str(s) => assert Quote(s)[0] == '"';
    case _ =>
  }

  lemma HexRoundTrip(d: nat)
    requires d < 16
    ensures HexValue(HexDigit(d)) == Some(d)
  {
  }

  function Prepend(c: char, r: Option<(string, string)>): Option<(string, string)>
  {
    match r
    case None => None
    case Some((t, rest)) => Some(([c] + t, rest))
  }

  /** Reading one escaped character gives back that character. */
  lemma EscapeCharParse(c: char, tail: string)
    ensures ParseChars(EscapeChar(c) + tail) == Prepend(c, ParseChars(tail))
  {
    if c == '"' || c == '\\' || c == '\U{08}' || c == '\U{0C}' || c == '\n' || c == '\r' || c == '\t' {
      ShortEscapeParse(c, tail);
    } else if c < ' ' {
      UnicodeEscapeParse(c, tail);
    } else {
      var s := EscapeChar(c) + tail;
      assert s[0] == c && s[1..] == tail;
    }
  }

  lemma ShortEscapeParse(c: char, tail: string)
    requires c == '"' || c == '\\' || c == '\U{08}' || c == '\U{0C}' || c == '\n' || c == '\r' || c == '\t'
    ensures ParseChars(EscapeChar(c) + tail) == Prepend(c, ParseChars(tail))
  {
    var s := EscapeChar(c) + tail;
    assert |EscapeChar(c)| == 2 && s[0] == '\\';
    assert s[2..] == tail;
    assert Unescape(s[1..]) == Some((c, 1));
  }

  lemma UnicodeEscapeParse(c: char, tail: string)
    requires c < ' ' && c != '\U{08}' && c != '\U{0C}' && c != '\n' && c != '\r' && c != '\t'
    ensures ParseChars(EscapeChar(c) + tail) == Prepend(c, ParseChars(tail))
  {
    var hi, lo := c as int / 16, c as int % 16;
    HexRoundTrip(hi);
    HexRoundTrip(lo);
    var e := "u00" + [HexDigit(hi), HexDigit(lo)] + tail;
    assert EscapeChar(c) + tail == "\\" + e;
    assert e[0] == 'u' && |e| >= 5;
    assert e[1..5] == ['0', '0', HexDigit(hi), HexDigit(lo)];
    assert HexQuad(e[1..5]) == Some(c as int);
    assert Unescape(e) == Some((c, 5));
    assert ("\\" + e)[0] == '\\' && ("\\" + e)[1..] == e && e[5..] == tail;
  }

  /** The body of a printed string literal reads back as the string. */
  lemma {:induction false} EscapeParse(s: string, rest: string)
    ensures ParseChars(Escape(s) + "\"" + rest) == Some((s, rest))
  {
    if s == [] {
      assert Escape(s) + "\"" + rest == "\"" + rest;
    } else {
      var tail := Escape(s[1..]) + "\"" + rest;
      assert Escape(s) + "\"" + rest == EscapeChar(s[0]) + tail;
      EscapeCharParse(s[0], tail);
      EscapeParse(s[1..], rest);
      assert [s[0]] + s[1..] == s;
    }
  }

  lemma {:induction false} DigitRunOf(ds: string, rest: string)
    requires forall i :: 0 <= i < |ds| ==> IsDigit(ds[i])
    requires rest == [] || !IsDigit(rest[0])
    ensures DigitRun(ds + rest) == |ds|
  {
    if ds == [] {
      assert ds + rest == rest;
    } else {
      assert (ds + rest)[1..] == ds[1..] + rest;
      DigitRunOf(ds[1..], rest);
    }
  }

  /** A digit run without a redundant leading zero reads back as its value. */
  lemma ParseNatOf(ds: string, rest: string)
    requires ds != [] && forall i :: 0 <= i < |ds| ==> IsDigit(ds[i])
    requires ds[0] == '0' ==> |ds| == 1
    requires rest == [] || !IsDigit(rest[0])
    ensures ParseNat(ds + rest) == Some((DigitsValue(ds), rest))
  {
    DigitRunOf(ds, rest);
    assert (ds + rest)[..|ds|] == ds && (ds + rest)[|ds|..] == rest;
    assert (ds + rest)[0] == ds[0];
  }

  lemma NatRoundTrip(n: nat, rest: string)
    requires rest == [] || !IsDigit(rest[0])
    ensures ParseNat(NatText(n) + rest) == Some((n, rest))
  {
    ParseNatOf(NatText(n), rest);
    NatTextValue(n);
  }

  /** A printed integer reads back as that integer when no digit follows it. */
  lemma IntRoundTrip(n: int, rest: string)
    requires rest == [] || !IsDigit(rest[0])
    ensures ParseInt(IntText(n) + rest) == Some((n, rest))
  {
    if n < 0 {
      var t := NatText(-n) + rest;
      NatRoundTrip(-n, rest);
      Assoc3("-", NatText(-n), rest);
      assert ("-" + t)[0] == '-' && ("-" + t)[1..] == t;
    } else {
      NatRoundTrip(n, rest);
      assert (NatText(n) + rest)[0] == NatText(n)[0];
    }
  }

  /* Single steps of the parser, each over an arbitrary text. */

  lemma ParseValueSkip(w: string, t: string)
    requires AllWs(w)
    ensures ParseValue(w + t) == ParseValue(t)
  {
    SkipWsPrefix(w, t);
  }

  lemma ParseValueNull(rest: string)
    ensures ParseValue("null" + rest) == Some((Null, rest))
  {
    var s := "null" + rest;
    assert s[0] == 'n' && "null" <= s && s[4..] == rest;
  }

  lemma ParseValueBool(b: bool, rest: string)
    ensures ParseValue((if b then "true" else "false") + rest) == Some((Bool(b), rest))
  {
    if b {
      var s := "true" + rest;
      assert s[0] == 't' && "true" <= s && s[4..] == rest;
    } else {
      var s := "false" + rest;
      assert s[0] == 'f' && "false" <= s && s[5..] == rest;
    }
  }

  lemma ParseValueString(str: string, rest: string)
    ensures ParseValue(Quote(str) + rest) == Some((Str(str), rest))
  {
    var s := Quote(str) + rest;
    assert s == "\"" + (Escape(str) + "\"" + rest);
    assert s[0] == '"' && s[1..] == Escape(str) + "\"" + rest;
    assert SkipWs(s) == s;
    EscapeParse(str, rest);
  }

  lemma ParseValueNumeric(s: string, n: int, rest: string)
    requires s != [] && (s[0] == '-' || IsDigit(s[0]))
    requires ParseInt(s) == Some((n, rest))
    ensures ParseValue(s) == Some((Num(n), rest))
  {
    assert SkipWs(s) == s;
  }

  lemma ParseValueNumber(n: int, rest: string)
    requires rest == [] || !IsDigit(rest[0])
    ensures ParseValue(IntText(n) + rest) == Some((Num(n), rest))
  {
    var s := IntText(n) + rest;
    assert s[0] == IntText(n)[0];
    IntRoundTrip(n, rest);
    ParseValueNumeric(s, n, rest);
  }

  lemma ParseValueOpen(open: char, inner: string)
    requires open == '[' || open == '{'
    ensures ParseValue([open] + inner) == if open == '[' then ParseArray(inner) else ParseObject(inner)
  {
    assert ([open] + inner)[0] == open && ([open] + inner)[1..] == inner;
  }

  lemma ParseArrayEmpty(rest: string)
    ensures ParseArray("]" + rest) == Some((Arr([]), rest))
  {
    assert ("]" + rest)[0] == ']' && ("]" + rest)[1..] == rest;
  }

  lemma ParseObjectEmpty(rest: string)
    ensures ParseObject("}" + rest) == Some((Obj([]), rest))
  {
    assert ("}" + rest)[0] == '}' && ("}" + rest)[1..] == rest;
  }

  /** After the white space at its start, `s` begins a value. */
  predicate OpensValue(s: string)
  {
    SkipWs(s) != [] && StartsValue(SkipWs(s)[0])
  }

  lemma OpensAfterNewline(depth: nat, v: Json, t: string)
    ensures OpensValue(Newline(depth) + (Ser(v, depth) + t))
  {
    NewlineIsWs(depth);
    SkipWsPrefix(Newline(depth), Ser(v, depth) + t);
    SerStart(v, depth);
    assert (Ser(v, depth) + t)[0] == Ser(v, depth)[0];
  }

  lemma ParseArrayElements(s: string)
    requires OpensValue(s)
    ensures ParseArray(s) == match ParseElements(s)
      case None => None
      case Some((items, rest)) => Some((Arr(items), rest))
  {
  }

  lemma ParseObjectMembers(s: string)
    requires SkipWs(s) != [] && SkipWs(s)[0] == '"'
    ensures ParseObject(s) == match ParseMembers(s)
      case None => None
      case Some((ms, rest)) => Some((Obj(Dedupe(ms)), rest))
  {
  }

  lemma ElementsLast(s: string, x: Json, close: string, rest: string)
    requires AllWs(close)
    requires ParseValue(s) == Some((x, close + "]" + rest))
    ensures ParseElements(s) == Some(([x], rest))
  {
    var b := "]" + rest;
    SkipWsPrefix(close, b);
    assert close + "]" + rest == close + b;
    assert b[0] == ']' && b[1..] == rest;
    assert SkipWs(b) == b;
  }

  lemma ElementsMore(s: string, x: Json, next: string)
    requires ParseValue(s) == Some((x, "," + next))
    ensures ParseElements(s) == match ParseElements(next)
      case None => None
      case Some((vs, rest)) => Some(([x] + vs, rest))
  {
    var a := "," + next;
    assert a[0] == ',' && a[1..] == next;
    assert SkipWs(a) == a;
  }

  lemma MembersLast(s: string, m: Member, close: string, rest: string)
    requires AllWs(close)
    requires ParseMember(s) == Some((m, close + "}" + rest))
    ensures ParseMembers(s) == Some(([m], rest))
  {
    var b := "}" + rest;
    SkipWsPrefix(close, b);
    assert close + "}" + rest == close + b;
    assert b[0] == '}' && b[1..] == rest;
    assert SkipWs(b) == b;
  }

  lemma MembersMore(s: string, m: Member, next: string)
    requires ParseMember(s) == Some((m, "," + next))
    ensures ParseMembers(s) == match ParseMembers(next)
      case None => None
      case Some((ms, rest)) => Some(([m] + ms, rest))
  {
    var a := "," + next;
    assert a[0] == ',' && a[1..] == next;
    assert SkipWs(a) == a;
  }

  /** A quoted key and a colon, after white space, followed by whatever `u` holds. */
  lemma ParseMemberQuoted(w: string, k: string, u: string)
    requires AllWs(w)
    ensures ParseMember(w + (Quote(k) + (": " + u))) == match ParseValue(u)
      case None => None
      case Some((v, rest)) => Some((Member(k, v), rest))
  {
    var q := Quote(k) + (": " + u);
    SkipWsPrefix(w, q);
    assert SkipWs(q) == q && q[0] == '"';
    KeyRead(k, ": " + u);
    MemberRule(w + q, k, u);
  }

  /** Once the key is read, a member is the colon and the value after it. */
  lemma MemberRule(s: string, k: string, u: string)
    requires SkipWs(s) != [] && SkipWs(s)[0] == '"'
    requires ParseChars(SkipWs(s)[1..]) == Some((k, ": " + u))
    ensures ParseMember(s) == match ParseValue(u)
      case None => None
      case Some((v, rest)) => Some((Member(k, v), rest))
  {
    var afterKey := ": " + u;
    assert afterKey[0] == ':' && afterKey[1..] == " " + u;
    assert SkipWs(afterKey) == afterKey;
    ParseValueSkip(" ", u);
  }

  lemma KeyRead(k: string, afterKey: string)
    ensures (Quote(k) + afterKey)[1..] == Escape(k) + "\"" + afterKey
    ensures ParseChars((Quote(k) + afterKey)[1..]) == Some((k, afterKey))
  {
    Assoc3("\"", Escape(k), "\"");
    Assoc4("\"", Escape(k), "\"", afterKey);
    EscapeParse(k, afterKey);
  }

  /** A printed non-empty array is read by `ParseArray` after its `[`. */
  lemma ArrayText(items: seq<Json>, depth: nat, rest: string)
    requires items != []
    ensures ParseValue(Ser(Arr(items), depth) + rest) == ParseArray(SerItems(items, depth + 1) + Newline(depth) + "]" + rest)
  {
    var si, close := SerItems(items, depth + 1), Newline(depth);
    assert Ser(Arr(items), depth) == "[" + si + close + "]";
    Assoc5("[", si, close, "]", rest);
    ParseValueOpen('[', si + close + "]" + rest);
  }

  /** The inside of a printed non-empty array starts with an element, so `ParseArray` reads elements. */
  lemma ArrayFromElements(items: seq<Json>, depth: nat, close: string, rest: string)
    requires items != [] && AllWs(close)
    ensures ParseArray(SerItems(items, depth) + close + "]" + rest) == match ParseElements(SerItems(items, depth) + close + "]" + rest)
      case None => None
      case Some((vs, r)) => Some((Arr(vs), r))
  {
    var tail := ItemsTail(items, depth, close, rest);
    ItemsSplit(items, depth, close, rest);
    OpensAfterNewline(depth, items[0], tail);
    ParseArrayElements(SerItems(items, depth) + close + "]" + rest);
  }

  /** What follows the first element of a printed array: a comma and the rest, or the closing bracket. */
  function ItemsTail(items: seq<Json>, depth: nat, close: string, rest: string): string
    requires items != []
  {
    if |items| == 1 then close + "]" + rest else "," + (SerItems(items[1..], depth) + close + "]" + rest)
  }

  lemma ItemsSplit(items: seq<Json>, depth: nat, close: string, rest: string)
    requires items != [] && AllWs(close)
    ensures SerItems(items, depth) + close + "]" + rest == Newline(depth) + (Ser(items[0], depth) + ItemsTail(items, depth, close, rest))
    ensures ItemsTail(items, depth, close, rest)[0] == ']' || ItemsTail(items, depth, close, rest)[0] == ',' || IsWs(ItemsTail(items, depth, close, rest)[0])
  {
    var n, x := Newline(depth), Ser(items[0], depth);
    var more: string := if |items| == 1 then "" else "," + SerItems(items[1..], depth);
    var c := close + "]" + rest;
    var tail := ItemsTail(items, depth, close, rest);
    assert SerItems(items, depth) == n + x + more;
    Assoc4(SerItems(items, depth), close, "]", rest);
    Assoc4(n, x, more, c);
    Assoc3(x, more, c);
    if |items| == 1 {
      assert more + c == c;
      Assoc3(close, "]", rest);
      assert tail[0] == if close == [] then ']' else close[0];
    } else {
      var si := SerItems(items[1..], depth);
      Assoc3(",", si, c);
      Assoc4(si, close, "]", rest);
    }
  }

  /** A printed non-empty object is read by `ParseObject` after its `{`. */
  lemma ObjectText(ms: seq<Member>, depth: nat, rest: string)
    requires ms != []
    ensures ParseValue(Ser(Obj(ms), depth) + rest) == ParseObject(SerMembers(ms, depth + 1) + Newline(depth) + "}" + rest)
  {
    var sm, close := SerMembers(ms, depth + 1), Newline(depth);
    assert Ser(Obj(ms), depth) == "{" + sm + close + "}";
    Assoc5("{", sm, close, "}", rest);
    ParseValueOpen('{', sm + close + "}" + rest);
  }

  /** The inside of a printed non-empty object starts with a key, and its members, kept as they are, make the object. */
  lemma ObjectFromMembers(ms: seq<Member>, depth: nat, rest: string)
    requires ms != [] && Dedupe(ms) == ms
    requires ParseMembers(SerMembers(ms, depth + 1) + Newline(depth) + "}" + rest) == Some((ms, rest))
    ensures ParseObject(SerMembers(ms, depth + 1) + Newline(depth) + "}" + rest) == Some((Obj(ms), rest))
  {
    var close := Newline(depth);
    NewlineIsWs(depth);
    NewlineIsWs(depth + 1);
    var after := Quote(ms[0].key) + (": " + (Ser(ms[0].value, depth + 1) + MembersTail(ms, depth + 1, close, rest)));
    MembersSplit(ms, depth + 1, close, rest);
    SkipWsPrefix(Newline(depth + 1), after);
    assert after[0] == Quote(ms[0].key)[0] == '"';
    ParseObjectMembers(SerMembers(ms, depth + 1) + close + "}" + rest);
  }

  /** What follows the first member of a printed object: a comma and the rest, or the closing brace. */
  function MembersTail(ms: seq<Member>, depth: nat, close: string, rest: string): string
    requires ms != []
  {
    if |ms| == 1 then close + "}" + rest else "," + (SerMembers(ms[1..], depth) + close + "}" + rest)
  }

  lemma MembersSplit(ms: seq<Member>, depth: nat, close: string, rest: string)
    requires ms != [] && AllWs(close)
    ensures SerMembers(ms, depth) + close + "}" + rest
         == Newline(depth) + (Quote(ms[0].key) + (": " + (Ser(ms[0].value, depth) + MembersTail(ms, depth, close, rest))))
    ensures MembersTail(ms, depth, close, rest)[0] == '}' || MembersTail(ms, depth, close, rest)[0] == ',' || IsWs(MembersTail(ms, depth, close, rest)[0])
  {
    var n, q, x := Newline(depth), Quote(ms[0].key), Ser(ms[0].value, depth);
    var more: string := if |ms| == 1 then "" else "," + SerMembers(ms[1..], depth);
    var c := close + "}" + rest;
    var tail := MembersTail(ms, depth, close, rest);
    var h := n + q + ": " + x;
    assert SerMembers(ms, depth) == h + more;
    Assoc4(SerMembers(ms, depth), close, "}", rest);
    Assoc3(h, more, c);
    Nest5(n, q, ": ", x, more + c);
    if |ms| == 1 {
      assert more + c == c;
      Assoc3(close, "}", rest);
      assert tail[0] == if close == [] then '}' else close[0];
    } else {
      var sm := SerMembers(ms[1..], depth);
      Assoc3(",", sm, c);
      Assoc4(sm, close, "}", rest);
    }
  }

  /* The empty array and object. */

  lemma EmptyArrayRoundTrip(depth: nat, rest: string)
    ensures ParseValue(Ser(Arr([]), depth) + rest) == Some((Arr([]), rest))
  {
    assert Ser(Arr([]), depth) == "[" + "]";
    Assoc3("[", "]", rest);
    ParseValueOpen('[', "]" + rest);
    ParseArrayEmpty(rest);
  }

  lemma EmptyObjectRoundTrip(depth: nat, rest: string)
    ensures ParseValue(Ser(Obj([]), depth) + rest) == Some((Obj([]), rest))
  {
    assert Ser(Obj([]), depth) == "{" + "}";
    Assoc3("{", "}", rest);
    ParseValueOpen('{', "}" + rest);
    ParseObjectEmpty(rest);
  }

  /** Once its elements read back, a printed non-empty array reads back. */
  lemma ArrayNonEmpty(items: seq<Json>, depth: nat, rest: string)
    requires items != []
    requires ParseElements(SerItems(items, depth + 1) + Newline(depth) + "]" + rest) == Some((items, rest))
    ensures ParseValue(Ser(Arr(items), depth) + rest) == Some((Arr(items), rest))
  {
    ArrayText(items, depth, rest);
    NewlineIsWs(depth);
    ArrayFromElements(items, depth + 1, Newline(depth), rest);
  }

  /** Once its members read back, a printed non-empty object whose keys `JSON.parse` keeps as they are reads back. */
  lemma ObjectNonEmpty(ms: seq<Member>, depth: nat, rest: string)
    requires ms != [] && Dedupe(ms) == ms
    requires ParseMembers(SerMembers(ms, depth + 1) + Newline(depth) + "}" + rest) == Some((ms, rest))
    ensures ParseValue(Ser(Obj(ms), depth) + rest) == Some((Obj(ms), rest))
  {
    ObjectText(ms, depth, rest);
    ObjectFromMembers(ms, depth, rest);
  }

  /* The round trip, by mutual induction on the value. */

  /** A printed value reads back as itself, leaving the text after it unread. */
  lemma {:induction false} ValueRoundTrip(v: Json, depth: nat, rest: string)
    requires WellFormed(v)
    requires rest == [] || !IsDigit(rest[0])
    ensures ParseValue(Ser(v, depth) + rest) == Some((v, rest))
    decreases v, 3
  {
    match v
    case Null => ParseValueNull(rest);
    case Bool(b) => ParseValueBool(b, rest);
    case Num(n) => ParseValueNumber(n, rest);
    case Str(str) => ParseValueString(str, rest);
    case Arr(items) =>
      if items == [] {
        EmptyArrayRoundTrip(depth, rest);
      } else {
        NewlineIsWs(depth);
        ItemsRoundTrip(items, depth + 1, Newline(depth), rest);
        ArrayNonEmpty(items, depth, rest);
      }
    case Obj(ms) =>
      if ms == [] {
        EmptyObjectRoundTrip(depth, rest);
      } else {
        NewlineIsWs(depth);
        MembersRoundTrip(ms, depth + 1, Newline(depth), rest);
        DedupeDistinct(ms);
        ObjectNonEmpty(ms, depth, rest);
      }
  }

  /** The first element of a printed array reads back, up to what follows it. */
  lemma {:induction false} ItemHead(items: seq<Json>, depth: nat, close: string, rest: string)
    requires items != [] && WellFormed(items[0])
    requires AllWs(close)
    ensures ParseValue(SerItems(items, depth) + close + "]" + rest) == Some((items[0], ItemsTail(items, depth, close, rest)))
    decreases items, 0
  {
    var tail := ItemsTail(items, depth, close, rest);
    ItemsSplit(items, depth, close, rest);
    NewlineIsWs(depth);
    ParseValueSkip(Newline(depth), Ser(items[0], depth) + tail);
    ValueRoundTrip(items[0], depth, tail);
  }

  /** The elements of a printed array, each with its separator, up to the `]`. */
  lemma {:induction false} ItemsRoundTrip(items: seq<Json>, depth: nat, close: string, rest: string)
    requires items != [] && forall i :: 0 <= i < |items| ==> WellFormed(items[i])
    requires AllWs(close)
    ensures ParseElements(SerItems(items, depth) + close + "]" + rest) == Some((items, rest))
    decreases items, 1
  {
    var next := if |items| > 1 then SerItems(items[1..], depth) + close + "]" + rest else [];
    ItemHead(items, depth, close, rest);
    if |items| > 1 {
      ItemsRoundTrip(items[1..], depth, close, rest);
    }
    ItemsStep(SerItems(items, depth) + close + "]" + rest, items, ItemsTail(items, depth, close, rest), close, next, rest);
  }

  /** The first element and the elements after it make the whole list. */
  lemma ItemsStep(s: string, items: seq<Json>, tail: string, close: string, next: string, rest: string)
    requires items != [] && AllWs(close)
    requires ParseValue(s) == Some((items[0], tail))
    requires |items| == 1 ==> tail == close + "]" + rest
    requires |items| > 1 ==> tail == "," + next && ParseElements(next) == Some((items[1..], rest))
    ensures ParseElements(s) == Some((items, rest))
  {
    if |items| == 1 {
      ElementsLast(s, items[0], close, rest);
      assert [items[0]] == items;
    } else {
      ElementsMore(s, items[0], next);
      assert [items[0]] + items[1..] == items;
    }
  }

  /** The first member of a printed object reads back, up to what follows it. */
  lemma {:induction false} MemberHead(ms: seq<Member>, depth: nat, close: string, rest: string)
    requires ms != [] && WellFormed(ms[0].value)
    requires AllWs(close)
    ensures ParseMember(SerMembers(ms, depth) + close + "}" + rest) == Some((ms[0], MembersTail(ms, depth, close, rest)))
    decreases ms, 0
  {
    var tail := MembersTail(ms, depth, close, rest);
    MembersSplit(ms, depth, close, rest);
    NewlineIsWs(depth);
    ParseMemberQuoted(Newline(depth), ms[0].key, Ser(ms[0].value, depth) + tail);
    ValueRoundTrip(ms[0].value, depth, tail);
  }

  /** The members of a printed object, each with its separator, up to the `}`. */
  lemma {:induction false} MembersRoundTrip(ms: seq<Member>, depth: nat, close: string, rest: string)
    requires ms != [] && forall i :: 0 <= i < |ms| ==> WellFormed(ms[i].value)
    requires AllWs(close)
    ensures ParseMembers(SerMembers(ms, depth) + close + "}" + rest) == Some((ms, rest))
    decreases ms, 1
  {
    var next := if |ms| > 1 then SerMembers(ms[1..], depth) + close + "}" + rest else [];
    MemberHead(ms, depth, close, rest);
    if |ms| > 1 {
      MembersRoundTrip(ms[1..], depth, close, rest);
    }
    MembersStep(SerMembers(ms, depth) + close + "}" + rest, ms, MembersTail(ms, depth, close, rest), close, next, rest);
  }

  /** The first member and the members after it make the whole list. */
  lemma MembersStep(s: string, ms: seq<Member>, tail: string, close: string, next: string, rest: string)
    requires ms != [] && AllWs(close)
    requires ParseMember(s) == Some((ms[0], tail))
    requires |ms| == 1 ==> tail == close + "}" + rest
    requires |ms| > 1 ==> tail == "," + next && ParseMembers(next) == Some((ms[1..], rest))
    ensures ParseMembers(s) == Some((ms, rest))
  {
    if |ms| == 1 {
      MembersLast(s, ms[0], close, rest);
      assert [ms[0]] == ms;
    } else {
      MembersMore(s, ms[0], next);
      assert [ms[0]] + ms[1..] == ms;
    }
  }

  /** `JSON.parse(JSON.stringify(v, null, 2))` gives back `v`. */
  lemma PrintParse(v: Json)
    requires WellFormed(v)
    ensures Parse(Print(v)) == Some(v)
  {
    ValueRoundTrip(v, 0, []);
    assert Print(v) + [] == Print(v);
  }
}
