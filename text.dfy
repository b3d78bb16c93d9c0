/**
 * String helpers shared by the modules of this project: ASCII case mapping,
 * `String.prototype.split` on a set of single-character separators, `join`,
 * decimal rendering of integers, and the white space that `String.prototype.trim`
 * removes.
 */
module Text {

  predicate IsAsciiUpper(c: char) { 'A' <= c <= 'Z' }

  predicate IsAsciiLower(c: char) { 'a' <= c <= 'z' }

  predicate IsDigit(c: char) { '0' <= c <= '9' }

  /** `toUpperCase` restricted to ASCII letters. */
  function Upper(c: char): (u: char)
    ensures !IsAsciiLower(u)
    ensures IsAsciiLower(c) <==> u != c
  {
    if IsAsciiLower(c) then (c as int - 'a' as int + 'A' as int) as char else c
  }

  /** `toLowerCase` restricted to ASCII letters. */
  function Lower(c: char): (l: char)
    ensures !IsAsciiUpper(l)
    ensures IsAsciiUpper(c) <==> l != c
  {
    if IsAsciiUpper(c) then (c as int - 'A' as int + 'a' as int) as char else c
  }

  function UpperString(s: string): (u: string)
    ensures |u| == |s|
    ensures forall i :: 0 <= i < |s| ==> u[i] == Upper(s[i])
  {
    seq(|s|, i requires 0 <= i < |s| => Upper(s[i]))
  }

  function LowerString(s: string): (l: string)
    ensures |l| == |s|
    ensures forall i :: 0 <= i < |s| ==> l[i] == Lower(s[i])
  {
    seq(|s|, i requires 0 <= i < |s| => Lower(s[i]))
  }

  /** No character of `s` is a lower-case ASCII letter. */
  predicate NoLowerCase(s: string) { forall i :: 0 <= i < |s| ==> !IsAsciiLower(s[i]) }

  /** No character of `s` is an upper-case ASCII letter. */
  predicate NoUpperCase(s: string) { forall i :: 0 <= i < |s| ==> !IsAsciiUpper(s[i]) }

  /** Lower-casing is idempotent. */
  lemma LowerStringIdempotent(s: string)
    ensures LowerString(LowerString(s)) == LowerString(s)
  {
    var l := LowerString(s);
    assert forall i :: 0 <= i < |l| ==> Lower(l[i]) == l[i];
  }

  /** The number of characters of `s` that belong to `seps`. */
  function CountIn(s: string, seps: set<char>): nat
  {
    if s == [] then 0 else (if s[0] in seps then 1 else 0) + CountIn(s[1..], seps)
  }

  /**
   * `s.split(sep)` where the separator is any one character of `seps`
   * (a string separator of length one or a one-character class such as `/[-_]/`).
   * Like JavaScript, splitting the empty string gives `[""]`, and adjacent
   * separators give empty pieces.
   */
  function Split(s: string, seps: set<char>): (parts: seq<string>)
    ensures |parts| == CountIn(s, seps) + 1
  {
    if s == [] then [[]]
    else
      var rest := Split(s[1..], seps);
      if s[0] in seps then [[]] + rest
      else [[s[0]] + rest[0]] + rest[1..]
  }

  predicate NoneIn(s: string, seps: set<char>) { forall i :: 0 <= i < |s| ==> s[i] !in seps }

  /** No piece of a split contains a separator. */
  lemma {:induction false} SplitPiecesHaveNoSeparator(s: string, seps: set<char>)
    ensures forall k :: 0 <= k < |Split(s, seps)| ==> NoneIn(Split(s, seps)[k], seps)
  {
    if s != [] {
      SplitPiecesHaveNoSeparator(s[1..], seps);
      var rest := Split(s[1..], seps);
      if s[0] !in seps {
        assert NoneIn([s[0]] + rest[0], seps);
      }
    }
  }

  /** A string without separators splits into itself alone. */
  lemma {:induction false} SplitWithout(w: string, seps: set<char>)
    requires NoneIn(w, seps)
    ensures Split(w, seps) == [w]
  {
    if w != [] {
      SplitWithout(w[1..], seps);
      SplitCons(w[0], w[1..], seps);
      assert [w[0]] + w[1..] == w;
    }
  }

  /** `pieces.join(sep)` for a one-character separator. */
  function Join(pieces: seq<string>, sep: char): string
  {
    if pieces == [] then []
    else if |pieces| == 1 then pieces[0]
    else pieces[0] + [sep] + Join(pieces[1..], sep)
  }

  /** Joining a first piece before the others. */
  lemma JoinCons(first: string, rest: seq<string>, sep: char)
    ensures Join([first] + rest, sep) == first + (if rest == [] then [] else [sep] + Join(rest, sep))
  {
    var l := [first] + rest;
    assert l[0] == first && l[1..] == rest;
  }

  /** Joining the pieces of a split on one character gives back the string. */
  lemma {:induction false} JoinSplit(s: string, sep: char)
    ensures Join(Split(s, {sep}), sep) == s
  {
    if s != [] {
      JoinSplit(s[1..], sep);
      var rest := Split(s[1..], {sep});
      if s[0] != sep {
        if |rest| == 1 {
          assert Join(Split(s, {sep}), sep) == [s[0]] + rest[0];
        } else {
          assert Join(rest, sep) == rest[0] + [sep] + Join(rest[1..], sep);
          assert [s[0]] + rest[0] + [sep] + Join(rest[1..], sep) == [s[0]] + Join(rest, sep);
        }
      }
    }
  }

  /** How `Split` treats the first character of a string. */
  lemma SplitCons(x: char, t: string, seps: set<char>)
    ensures Split([x] + t, seps)
         == if x in seps then [[]] + Split(t, seps) else [[x] + Split(t, seps)[0]] + Split(t, seps)[1..]
  {
    assert ([x] + t)[0] == x && ([x] + t)[1..] == t;
  }

  lemma ConsConcat<T>(h: T, l: seq<T>, r: seq<T>)
    ensures [h] + (l + r) == ([h] + l) + r
  {
  }

  lemma ConcatHeadTail<T>(l: seq<T>, r: seq<T>)
    requires l != []
    ensures (l + r)[0] == l[0] && (l + r)[1..] == l[1..] + r
  {
  }

  lemma PeelFirst<T>(a: seq<T>, c: T, b: seq<T>)
    requires a != []
    ensures a + [c] + b == [a[0]] + (a[1..] + [c] + b)
    ensures a == [a[0]] + a[1..]
  {
  }

  /** A separator splits a string into the pieces of its two sides. */
  lemma {:induction false} SplitAround(a: string, c: char, b: string, seps: set<char>)
    requires c in seps
    ensures Split(a + [c] + b, seps) == Split(a, seps) + Split(b, seps)
  {
    if a == [] {
      assert a + [c] + b == [c] + b;
      SplitCons(c, b, seps);
    } else {
      var x, t := a[0], a[1..] + [c] + b;
      PeelFirst(a, c, b);
      SplitCons(x, t, seps);
      SplitCons(x, a[1..], seps);
      SplitAround(a[1..], c, b, seps);
      var left, right := Split(a[1..], seps), Split(b, seps);
      if x in seps {
        ConsConcat([], left, right);
      } else {
        ConcatHeadTail(left, right);
        ConsConcat([x] + left[0], left[1..], right);
      }
    }
  }

  /** The part of `s` before the first occurrence of `c`: `s.split(c)[0]`. */
  function Before(s: string, c: char): (r: string)
    ensures r == Split(s, {c})[0]
    ensures c !in r
    ensures r <= s
    ensures |r| < |s| ==> s[|r|] == c
  {
    if s == [] then [] else if s[0] == c then [] else [s[0]] + Before(s[1..], c)
  }

  /** The characters that `String.prototype.trim` removes (white space and line terminators). */
  predicate IsTrimmedSpace(c: char)
  {
    c == '\t' || c == '\n' || c == '\U{0B}' || c == '\U{0C}' || c == '\r' || c == ' '
    || c == '\U{A0}' || c == '\U{1680}' || ('\U{2000}' <= c <= '\U{200A}')
    || c == '\U{2028}' || c == '\U{2029}' || c == '\U{202F}' || c == '\U{205F}'
    || c == '\U{3000}' || c == '\U{FEFF}'
  }

  /** `s.trim()` with leading and trailing white space dropped. */
  function Trim(s: string): (t: string)
  {
    TrimEnd(TrimStart(s))
  }

  function TrimStart(s: string): (t: string)
    ensures |t| <= |s|
    ensures t == [] || !IsTrimmedSpace(t[0])
    ensures forall i :: 0 <= i < |s| - |t| ==> IsTrimmedSpace(s[i])
    ensures t == s[|s| - |t|..]
  {
    if s != [] && IsTrimmedSpace(s[0]) then TrimStart(s[1..]) else s
  }

  function TrimEnd(s: string): (t: string)
    ensures |t| <= |s|
    ensures t == [] || !IsTrimmedSpace(t[|t| - 1])
    ensures forall i :: |t| <= i < |s| ==> IsTrimmedSpace(s[i])
    ensures t == s[..|t|]
  {
    if s != [] && IsTrimmedSpace(s[|s| - 1]) then TrimEnd(s[..|s| - 1]) else s
  }

  /** `s.trim()` is empty exactly when every character of `s` is white space. */
  lemma TrimEmpty(s: string)
    ensures Trim(s) == [] <==> forall i :: 0 <= i < |s| ==> IsTrimmedSpace(s[i])
  {
    var t := TrimStart(s);
    if t != [] {
      assert s[|s| - |t|] == t[0];
    }
  }

  function DigitChar(d: nat): (c: char)
    requires d < 10
    ensures IsDigit(c)
  {
    ('0' as int + d) as char
  }

  function DigitValue(c: char): (d: nat)
    requires IsDigit(c)
    ensures d < 10 && DigitChar(d) == c
  {
    c as int - '0' as int
  }

  /** The decimal digits of `n`, as `String(n)` renders a non-negative integer. */
  function NatText(n: nat): (s: string)
    ensures |s| >= 1
    ensures forall i :: 0 <= i < |s| ==> IsDigit(s[i])
    ensures s[0] == '0' ==> n == 0 && |s| == 1
    ensures |s| == 1 <==> n < 10
  {
    if n < 10 then [DigitChar(n)] else NatText(n / 10) + [DigitChar(n % 10)]
  }

  /** The value of a string of decimal digits, most significant first. */
  function DigitsValue(s: string): nat
    requires forall i :: 0 <= i < |s| ==> IsDigit(s[i])
  {
    if s == [] then 0 else 10 * DigitsValue(s[..|s| - 1]) + DigitValue(s[|s| - 1])
  }

  /** Reading back the digits of `n` gives `n`. */
  lemma {:induction false} NatTextValue(n: nat)
    ensures DigitsValue(NatText(n)) == n
  {
    if n >= 10 {
      NatTextValue(n / 10);
      var s := NatText(n);
      assert s[..|s| - 1] == NatText(n / 10);
    }
  }

  /** Distinct numbers have distinct decimal renderings. */
  lemma NatTextInjective(a: nat, b: nat)
    requires NatText(a) == NatText(b)
    ensures a == b
  {
    NatTextValue(a);
    NatTextValue(b);
  }

  /** `String(n)` for an integer: a minus sign before the digits of a negative number. */
  function IntText(n: int): (s: string)
    ensures |s| >= 1
    ensures s[0] == '-' || IsDigit(s[0])
  {
    if n < 0 then "-" + NatText(-n) else NatText(n)
  }

  /** `String(n).padStart(2, "0")`. */
  function Pad2(n: nat): (s: string)
    ensures |s| >= 2
    ensures n < 100 ==> |s| == 2
  {
    var t := NatText(n);
    if |t| < 2 then "0" + t else t
  }

  /** Distinct integers have distinct renderings. */
  lemma IntTextInjective(a: int, b: int)
    requires IntText(a) == IntText(b)
    ensures a == b
  {
    if a < 0 && b < 0 {
      assert NatText(-a) == IntText(a)[1..];
      NatTextInjective(-a, -b);
    } else if a >= 0 && b >= 0 {
      NatTextInjective(a, b);
    }
  }

  /** A number below 100, padded, is two digits that read back as the number. */
  lemma Pad2Value(n: nat)
    requires n < 100
    ensures IsDigit(Pad2(n)[0]) && IsDigit(Pad2(n)[1])
    ensures 10 * DigitValue(Pad2(n)[0]) + DigitValue(Pad2(n)[1]) == n
  {
    if n >= 10 {
      assert NatText(n) == NatText(n / 10) + [DigitChar(n % 10)];
    }
  }
}
