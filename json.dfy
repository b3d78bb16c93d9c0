/**
 * JSON values (RFC 8259) as JavaScript's `JSON.parse` builds them and
 * `JSON.stringify(value, null, 2)` prints them.
 *
 * Numbers are integers here; objects are member lists in property order, and a
 * value built by the parser never holds two members with the same key, because
 * assigning an existing property replaces its value in place (`Assign`).
 */
module Json {
  import opened Wrappers
  import opened Text

  datatype Json =
    | Null
    | Bool(b: bool)
    | Num(n: int)
    | Str(s: string)
    | Arr(items: seq<Json>)
    | Obj(members: seq<Member>)

  datatype Member = Member(key: string, value: Json)

  predicate DistinctKeys(ms: seq<Member>)
  {
    forall i, j :: 0 <= i < j < |ms| ==> ms[i].key != ms[j].key
  }

  /** A value a JavaScript object graph can hold: no object has a key twice. */
  predicate WellFormed(v: Json)
  {
    match v
    case Arr(items) => forall i :: 0 <= i < |items| ==> WellFormed(items[i])
    case Obj(ms) => DistinctKeys(ms) && forall i :: 0 <= i < |ms| ==> WellFormed(ms[i].value)
    case _ => true
  }

  function KeySet(ms: seq<Member>): set<string>
  {
    set i | 0 <= i < |ms| :: ms[i].key
  }

  /** The value of the last member of `ms` with key `k`: what a property read sees after the assignments. */
  function LastValue(ms: seq<Member>, k: string): Option<Json>
  {
    if ms == [] then None
    else if ms[|ms| - 1].key == k then Some(ms[|ms| - 1].value)
    else LastValue(ms[..|ms| - 1], k)
  }

  /** `object[k] = v`: replaces the value of an existing property in place, or appends a new one. */
  function Assign(ms: seq<Member>, k: string, v: Json): seq<Member>
  {
    if ms == [] then [Member(k, v)]
    else if ms[0].key == k then [Member(k, v)] + ms[1..]
    else [ms[0]] + Assign(ms[1..], k, v)
  }

  /** An assignment stores the new member, keeps every other property, and adds nothing else. */
  lemma {:induction false} AssignMembers(ms: seq<Member>, k: string, v: Json)
    ensures Member(k, v) in Assign(ms, k, v)
    ensures forall i :: 0 <= i < |Assign(ms, k, v)| ==> Assign(ms, k, v)[i] in ms || Assign(ms, k, v)[i] == Member(k, v)
    ensures forall m :: m in ms && m.key != k ==> m in Assign(ms, k, v)
    ensures k !in KeySet(ms) ==> Assign(ms, k, v) == ms + [Member(k, v)]
  {
    if ms != [] && ms[0].key != k {
      AssignMembers(ms[1..], k, v);
      assert k !in KeySet(ms) ==> k !in KeySet(ms[1..]);
    }
  }

  lemma KeySetCons(m: Member, ms: seq<Member>)
    ensures KeySet([m] + ms) == {m.key} + KeySet(ms)
  {
    var l := [m] + ms;
    forall x | x in KeySet(l) ensures x in {m.key} + KeySet(ms) {
      var i :| 0 <= i < |l| && l[i].key == x;
      if i > 0 { assert ms[i - 1].key == x; }
    }
    forall x | x in {m.key} + KeySet(ms) ensures x in KeySet(l) {
      if x == m.key {
        assert l[0].key == x;
      } else {
        var i :| 0 <= i < |ms| && ms[i].key == x;
        assert l[i + 1].key == x;
      }
    }
  }

  lemma DistinctCons(m: Member, ms: seq<Member>)
    requires DistinctKeys(ms) && m.key !in KeySet(ms)
    ensures DistinctKeys([m] + ms)
  {
    var l := [m] + ms;
    forall i, j | 0 <= i < j < |l| ensures l[i].key != l[j].key {
      if i == 0 {
        assert l[j].key == ms[j - 1].key;
      } else {
        assert l[i] == ms[i - 1] && l[j] == ms[j - 1];
      }
    }
  }

  /** Assigning into an object whose keys are distinct keeps them distinct. */
  lemma {:induction false} AssignDistinct(ms: seq<Member>, k: string, v: Json)
    requires DistinctKeys(ms)
    ensures DistinctKeys(Assign(ms, k, v))
  {
    if ms != [] {
      assert ms[0].key !in KeySet(ms[1..]);
      if ms[0].key != k {
        AssignDistinct(ms[1..], k, v);
        AssignKeys(ms[1..], k, v);
        DistinctCons(ms[0], Assign(ms[1..], k, v));
      } else {
        DistinctCons(Member(k, v), ms[1..]);
      }
    }
  }

  /** An assignment adds exactly the assigned key. */
  lemma {:induction false} AssignKeys(ms: seq<Member>, k: string, v: Json)
    ensures KeySet(Assign(ms, k, v)) == KeySet(ms) + {k}
  {
    if ms == [] {
      KeySetCons(Member(k, v), []);
    } else {
      assert ms == [ms[0]] + ms[1..];
      KeySetCons(ms[0], ms[1..]);
      if ms[0].key != k {
        AssignKeys(ms[1..], k, v);
        KeySetCons(ms[0], Assign(ms[1..], k, v));
      } else {
        KeySetCons(Member(k, v), ms[1..]);
      }
    }
  }

  /**
   * The members of an object literal as `JSON.parse` assigns them, one after
   * another: a repeated key keeps the position of its first occurrence and the
   * value of its last.
   */
  function Dedupe(ms: seq<Member>): seq<Member>
  {
    if ms == [] then [] else Assign(Dedupe(ms[..|ms| - 1]), ms[|ms| - 1].key, ms[|ms| - 1].value)
  }

  /** The object `JSON.parse` builds has each key once, and every member comes from the literal. */
  lemma {:induction false} DedupeMembers(ms: seq<Member>)
    ensures DistinctKeys(Dedupe(ms))
    ensures KeySet(Dedupe(ms)) == KeySet(ms)
    ensures forall i :: 0 <= i < |Dedupe(ms)| ==> Dedupe(ms)[i] in ms
  {
    if ms != [] {
      var init, last := ms[..|ms| - 1], ms[|ms| - 1];
      assert ms == init + [last];
      DedupeMembers(init);
      AssignMembers(Dedupe(init), last.key, last.value);
      AssignDistinct(Dedupe(init), last.key, last.value);
      AssignKeys(Dedupe(init), last.key, last.value);
      assert KeySet(ms) == KeySet(init) + {last.key};
      forall i | 0 <= i < |Dedupe(ms)| ensures Dedupe(ms)[i] in ms {
        var m := Dedupe(ms)[i];
        if m != last {
          assert m in Dedupe(init);
        }
      }
    }
  }

  /** A literal without repeated keys is taken as it is. */
  lemma {:induction false} DedupeDistinct(ms: seq<Member>)
    requires DistinctKeys(ms)
    ensures Dedupe(ms) == ms
  {
    if ms != [] {
      var init, last := ms[..|ms| - 1], ms[|ms| - 1];
      assert ms == init + [last];
      DedupeDistinct(init);
      assert last.key !in KeySet(init);
      AssignMembers(init, last.key, last.value);
    }
  }

  /** `2 * depth` spaces: the indentation `JSON.stringify` uses with a gap of two. */
  function Spaces(n: nat): (s: string)
    ensures |s| == n && forall i :: 0 <= i < n ==> s[i] == ' '
  {
    seq(n, _ => ' ')
  }

  function Newline(depth: nat): string
  {
    "\n" + Spaces(2 * depth)
  }

  function HexDigit(d: nat): (c: char)
    requires d < 16
  {
    if d < 10 then ('0' as int + d) as char else ('a' as int + d - 10) as char
  }

  /** How `JSON.stringify` writes one character inside a string literal. */
  function EscapeChar(c: char): string
  {
    if c == '"' then "\\\""
    else if c == '\\' then "\\\\"
    else if c == '\U{08}' then "\\b"
    else if c == '\U{0C}' then "\\f"
    else if c == '\n' then "\\n"
    else if c == '\r' then "\\r"
    else if c == '\t' then "\\t"
    else if c < ' ' then "\\u00" + [HexDigit(c as int / 16), HexDigit(c as int % 16)]
    else [c]
  }

  function Escape(s: string): string
  {
    if s == [] then [] else EscapeChar(s[0]) + Escape(s[1..])
  }

  function Quote(s: string): string
  {
    "\"" + Escape(s) + "\""
  }

  /** `JSON.stringify(v, null, 2)`. */
  function Print(v: Json): string
  {
    Ser(v, 0)
  }

  /** The text of `v` when it sits at nesting depth `depth`. */
  function Ser(v: Json, depth: nat): string
    decreases v, 1
  {
    match v
    case Null => "null"
    case Bool(b) => if b then "true" else "false"
    case Num(n) => IntText(n)
    case Str(s) => Quote(s)
    case Arr(items) =>
      if items == [] then "[]" else "[" + SerItems(items, depth + 1) + Newline(depth) + "]"
    case Obj(ms) =>
      if ms == [] then "{}" else "{" + SerMembers(ms, depth + 1) + Newline(depth) + "}"
  }

  /** The elements of a non-empty array, each on its own line, separated by commas. */
  function SerItems(items: seq<Json>, depth: nat): string
    requires items != []
    decreases items, 0
  {
    Newline(depth) + Ser(items[0], depth)
    + (if |items| == 1 then "" else "," + SerItems(items[1..], depth))
  }

  /** The members of a non-empty object, each as `"key": value` on its own line. */
  function SerMembers(ms: seq<Member>, depth: nat): string
    requires ms != []
    decreases ms, 0
  {
    Newline(depth) + Quote(ms[0].key) + ": " + Ser(ms[0].value, depth)
    + (if |ms| == 1 then "" else "," + SerMembers(ms[1..], depth))
  }
}
