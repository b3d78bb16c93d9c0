/**
 * The signed-in user's avatar fallback and name in the sidebar
 * (components/nav-user.tsx): initials taken from the part of the email before
 * `@`, split on `.`, `_` and `-`, and the display name with its fallback to
 * that same part of the email.
 */
module NavUser {
  import opened Wrappers
  import opened Text

  const NoEmailInitials: string := "SP"

  /** The character class `[._-]` the local part is split on. */
  const PieceSeparators: set<char> := {'.', '_', '-'}

  /** `email.split("@")[0].split(/[._-]/)`. */
  function Pieces(email: string): (parts: seq<string>)
    ensures |parts| >= 1
  {
    Split(Before(email, '@'), PieceSeparators)
  }

  /** The result of indexing a string at 0 in JavaScript: its first character, or `undefined`. */
  datatype Indexed = Undefined | Character(c: char)

  function At0(s: string): Indexed
  {
    if s == [] then Undefined else Character(s[0])
  }

  /**
   * JavaScript's `+` on two such results, followed by `.toUpperCase()`:
   * `undefined` alone is spelled out, but `undefined + undefined` is the number
   * `NaN`, which has no `toUpperCase` and throws a `TypeError` (`None`).
   */
  function PlusUpper(a: Indexed, b: Indexed): Option<string>
  {
    match (a, b)
    case (Undefined, Undefined) => None
    case (Undefined, Character(y)) => Some(UpperString("undefined" + [y]))
    case (Character(x), Undefined) => Some(UpperString([x] + "undefined"))
    case (Character(x), Character(y)) => Some(UpperString([x, y]))
  }

  /**
   * `getInitials` as written: `(parts[0][0] + parts[1][0]).toUpperCase()` when
   * there are several pieces; `None` when rendering the avatar throws.
   */
  function InitialsAsWritten(email: Option<string>): Option<string>
  {
    if email.None? || email.value == "" then Some(NoEmailInitials)
    else
      var parts := Pieces(email.value);
      if |parts| > 1 then PlusUpper(At0(parts[0]), At0(parts[1]))
      else Some(UpperString(parts[0][..if |parts[0]| < 2 then |parts[0]| else 2]))
  }

  /** An email whose local part starts with a separator gets "UNDEFINED" in its initials. */
  lemma UndefinedInInitials()
    ensures InitialsAsWritten(Some("_bob@x.com")) == Some("UNDEFINEDB")
    ensures Initials(Some("_bob@x.com")) == "B"
  {
    ExamplePieces();
    UpperExample();
    assert UpperString("b") == "B" by {
      assert UpperString("b")[0] == Upper('b');
    }
  }

  lemma UpperExample()
    ensures UpperString("undefined" + ['b']) == "UNDEFINEDB"
  {
    var u := UpperString("undefined" + ['b']);
    forall i | 0 <= i < 10 ensures u[i] == "UNDEFINEDB"[i] {
      assert u[i] == Upper(("undefined" + ['b'])[i]);
    }
  }

  lemma ExamplePieces()
    ensures Pieces("_bob@x.com") == ["", "bob"]
  {
    assert "_bob@x.com" == "_bob" + ['@'] + "x.com";
    BeforeFirst("_bob", '@', "x.com");
    assert "_bob" == ['_'] + "bob";
    SplitCons('_', "bob", PieceSeparators);
    SplitWithout("bob", PieceSeparators);
  }

  /**
   * As written, rendering throws exactly when the local part has several
   * pieces and the first two are both empty, as for "_-@x".
   */
  lemma InitialsThrow(email: Option<string>)
    ensures InitialsAsWritten(email).None? <==>
      email.Some? && email.value != "" && |Pieces(email.value)| > 1
      && Pieces(email.value)[0] == "" && Pieces(email.value)[1] == ""
  {
  }

  /** "_-@x" splits into three empty pieces, so its avatar throws. */
  lemma ThrowingExample()
    ensures Pieces("_-@x") == ["", "", ""]
    ensures InitialsAsWritten(Some("_-@x")).None?
  {
    assert "_-@x" == "_-" + ['@'] + "x";
    BeforeFirst("_-", '@', "x");
    assert "_-" == ['_'] + ['-'] + [];
    SplitCons('-', [], PieceSeparators);
    SplitCons('_', ['-'], PieceSeparators);
    assert ['_'] + ['-'] == "_-";
    InitialsThrow(Some("_-@x"));
  }

  /** `s.charAt(0)`: the first character, or nothing. */
  function FirstChar(s: string): (r: string)
    ensures |r| <= 1
  {
    if s == [] then [] else [s[0]]
  }

  /** The initials with `charAt(0)` for the pieces: an empty piece contributes nothing. */
  function Initials(email: Option<string>): string
  {
    if email.None? || email.value == "" then NoEmailInitials
    else
      var parts := Pieces(email.value);
      if |parts| > 1 then UpperString(FirstChar(parts[0]) + FirstChar(parts[1]))
      else UpperString(parts[0][..if |parts[0]| < 2 then |parts[0]| else 2])
  }

  /** The initials are at most two characters, none of them a lower-case letter. */
  lemma InitialsShape(email: Option<string>)
    ensures |Initials(email)| <= 2
    ensures NoLowerCase(Initials(email))
  {
  }

  /**
   * With two or more pieces the initials are the first letters of the first
   * two, upper-cased; with one piece, its first two characters upper-cased.
   */
  lemma InitialsOfPieces(email: string)
    requires email != ""
    ensures var parts := Pieces(email);
      |parts| > 1 && parts[0] != "" && parts[1] != "" ==>
        Initials(Some(email)) == [Upper(parts[0][0]), Upper(parts[1][0])]
    ensures var parts := Pieces(email);
      |parts| == 1 ==>
        && |Initials(Some(email))| == (if |parts[0]| < 2 then |parts[0]| else 2)
        && forall i :: 0 <= i < |Initials(Some(email))| ==> Initials(Some(email))[i] == Upper(parts[0][i])
  {
  }

  /** Where no piece it reads is empty, the code as written gives the same initials. */
  lemma AsWrittenAgrees(email: Option<string>)
    requires email.Some? && email.value != "" && |Pieces(email.value)| > 1 ==>
      Pieces(email.value)[0] != "" && Pieces(email.value)[1] != ""
    ensures InitialsAsWritten(email) == Some(Initials(email))
  {
    if email.Some? && email.value != "" && |Pieces(email.value)| > 1 {
      var parts := Pieces(email.value);
      assert FirstChar(parts[0]) + FirstChar(parts[1]) == [parts[0][0], parts[1][0]];
    }
  }

  /** `s.split(c)[0]` of a string whose first `c` follows `local` is `local`. */
  lemma {:induction false} BeforeFirst(local: string, c: char, rest: string)
    requires c !in local
    ensures Before(local + [c] + rest, c) == local
  {
    var s := local + [c] + rest;
    if local == [] {
      assert s[0] == c;
    } else {
      BeforeFirst(local[1..], c, rest);
      assert s[0] == local[0] && local[0] in local;
      assert s[1..] == local[1..] + [c] + rest;
      assert local == [local[0]] + local[1..];
    }
  }

  /** Only the part of the email before its first `@` counts. */
  lemma InitialsUseLocalPart(local: string, domain: string)
    requires local != "" && '@' !in local
    ensures Initials(Some(local + "@" + domain)) == Initials(Some(local))
  {
    BeforeFirst(local, '@', domain);
    BeforeWithout(local, '@');
  }

  lemma {:induction false} BeforeWithout(s: string, c: char)
    requires c !in s
    ensures Before(s, c) == s
  {
    if s != [] {
      BeforeWithout(s[1..], c);
    }
  }

  /** `user_metadata?.name || email?.split("@")[0]`: nothing when both are missing. */
  function DisplayName(name: Option<string>, email: Option<string>): Option<string>
  {
    if name.Some? && name.value != "" then name
    else if email.None? then None
    else Some(Before(email.value, '@'))
  }

  /**
   * Without a name, the display name is the local part of the email, and the
   * initials are read from that same text.
   */
  lemma DisplayNameFallback(name: Option<string>, local: string, domain: string)
    requires name.None? || name.value == ""
    requires '@' !in local
    ensures DisplayName(name, Some(local + "@" + domain)) == Some(local)
    ensures local != "" ==> Initials(Some(local + "@" + domain)) == Initials(DisplayName(name, Some(local + "@" + domain)))
  {
    BeforeFirst(local, '@', domain);
    if local != "" {
      InitialsUseLocalPart(local, domain);
    }
  }

  /** The display name never shows an `@` unless the name itself has one. */
  lemma DisplayNameNoAt(name: Option<string>, email: Option<string>)
    requires DisplayName(name, email).Some?
    ensures '@' in DisplayName(name, email).value ==> name.Some? && DisplayName(name, email) == name
  {
  }
}
