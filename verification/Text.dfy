/** String operations of the Rust standard library. */
module Text {
  import opened Base

  /** `char::is_whitespace` (the Unicode White_Space property). */
  predicate IsWhitespace(c: char) {
    var n := c as int;
    || 0x9 <= n <= 0xD || n == 0x20 || n == 0x85 || n == 0xA0 || n == 0x1680
    || 0x2000 <= n <= 0x200A || n == 0x2028 || n == 0x2029 || n == 0x202F || n == 0x205F || n == 0x3000
  }

  function TrimStart(s: string): (r: string)
    ensures |r| <= |s| && r == s[|s| - |r|..]
    ensures r != "" ==> !IsWhitespace(r[0])
  {
    if s != "" && IsWhitespace(s[0]) then TrimStart(s[1..]) else s
  }

  function TrimEnd(s: string): (r: string)
    ensures |r| <= |s| && r == s[..|r|]
    ensures r != "" ==> !IsWhitespace(r[|r| - 1])
  {
    if s != "" && IsWhitespace(s[|s| - 1]) then TrimEnd(s[..|s| - 1]) else s
  }

  /** `str::trim`. */
  function Trim(s: string): (r: string)
    ensures |r| <= |s|
    ensures r != "" ==> !IsWhitespace(r[0]) && !IsWhitespace(r[|r| - 1])
  {
    TrimEnd(TrimStart(s))
  }

  /** A string with no outer whitespace is its own trim. */
  lemma TrimNothing(s: string)
    requires s != "" ==> !IsWhitespace(s[0]) && !IsWhitespace(s[|s| - 1])
    ensures Trim(s) == s
  {
  }

  lemma TrimTwice(s: string)
    ensures Trim(Trim(s)) == Trim(s)
  {
    TrimNothing(Trim(s));
  }

  function LowerChar(c: char): (r: char) {
    if 'A' <= c <= 'Z' then (c as int + 32) as char else c
  }

  predicate Ascii(s: string) {
    forall c <- s :: c as int < 0x80
  }

  /** `str::to_ascii_lowercase`. */
  function Lower(s: string): (r: string) {
    seq(|s|, i requires 0 <= i < |s| => LowerChar(s[i]))
  }

  /** `str::eq_ignore_ascii_case`. */
  predicate SameIgnoringCase(a: string, b: string) {
    Lower(a) == Lower(b)
  }

  // ---------------------------------------------------------------- order

  /** The order of strings by code points, which is their byte order. */
  predicate Less(a: string, b: string) {
    b != "" && (a == "" || a[0] < b[0] || (a[0] == b[0] && Less(a[1..], b[1..])))
  }

  lemma {:induction false} LessTransitive(a: string, b: string, c: string)
    requires Less(a, b) && Less(b, c)
    ensures Less(a, c)
  {
    if a != "" && a[0] == b[0] == c[0] {
      LessTransitive(a[1..], b[1..], c[1..]);
    }
  }

  lemma {:induction false} LessTotal(a: string, b: string)
    ensures a == b || Less(a, b) || Less(b, a)
    ensures !Less(a, a)
  {
    if a != "" && b != "" {
      LessTotal(a[1..], b[1..]);
      assert a == [a[0]] + a[1..] && b == [b[0]] + b[1..];
    }
    if a != "" {
      LessTotal(a[1..], a[1..]);
    }
  }

  ghost predicate StrictlySorted(list: seq<string>) {
    forall i, j | 0 <= i < j < |list| :: Less(list[i], list[j])
  }

  ghost predicate Sorted(list: seq<string>) {
    forall i, j | 0 <= i < j < |list| :: list[i] == list[j] || Less(list[i], list[j])
  }

  /** A set of strings has one strictly sorted listing. */
  lemma {:induction false} StrictlySortedUnique(a: seq<string>, b: seq<string>)
    requires StrictlySorted(a) && StrictlySorted(b) && forall s :: s in a <==> s in b
    ensures a == b
  {
    assert b != [] ==> b[0] in b;
    if a != [] {
      assert a[0] in a;
      FirstIsLeast(a, b[0]);
      FirstIsLeast(b, a[0]);
      SameFirst(a[0], b[0]);
      TailMembers(a);
      TailMembers(b);
      StrictlySortedUnique(a[1..], b[1..]);
      assert a == [a[0]] + a[1..] && b == [b[0]] + b[1..];
    }
  }

  lemma FirstIsLeast(list: seq<string>, s: string)
    requires StrictlySorted(list) && s in list
    ensures s == list[0] || Less(list[0], s)
  {
    var i :| 0 <= i < |list| && list[i] == s;
  }

  lemma SameFirst(a: string, b: string)
    requires a == b || Less(a, b)
    requires a == b || Less(b, a)
    ensures a == b
  {
    if a != b {
      LessTransitive(a, b, a);
      LessTotal(a, a);
    }
  }

  lemma TailMembers(list: seq<string>)
    requires StrictlySorted(list) && list != []
    ensures StrictlySorted(list[1..])
    ensures forall s :: s in list[1..] <==> s in list && s != list[0]
  {
    forall s | s in list[1..]
      ensures s in list && s != list[0]
    {
      var i :| 0 <= i < |list[1..]| && list[1..][i] == s;
      assert Less(list[0], list[i + 1]);
      LessTotal(s, s);
    }
  }

  // ---------------------------------------------------------------- sort and dedup

  ghost predicate SameMembers(a: seq<string>, b: seq<string>) {
    forall s :: s in a <==> s in b
  }

  /** `sort`: a sorted permutation. */
  method Sort(list: seq<string>) returns (r: seq<string>)
    ensures Sorted(r) && multiset(r) == multiset(list)
  {
    r := [];
    for i := 0 to |list|
      invariant Sorted(r) && multiset(r) == multiset(list[..i])
    {
      var at := |r|;
      while at > 0 && Less(list[i], r[at - 1])
        invariant 0 <= at <= |r|
        invariant forall j | at <= j < |r| :: Less(list[i], r[j])
      {
        at := at - 1;
      }
      InsertSorted(r, at, list[i]);
      assert r == r[..at] + r[at..];
      r := r[..at] + [list[i]] + r[at..];
      assert list[..i + 1] == list[..i] + [list[i]];
    }
    assert list[..|list|] == list;
  }

  lemma InsertSorted(r: seq<string>, at: nat, s: string)
    requires Sorted(r) && at <= |r|
    requires forall j | at <= j < |r| :: Less(s, r[j])
    requires at > 0 ==> !Less(s, r[at - 1])
    ensures Sorted(r[..at] + [s] + r[at..])
  {
    forall j | 0 <= j < at
      ensures r[j] == s || Less(r[j], s)
    {
      LessTotal(s, r[at - 1]);
      if j < at - 1 && Less(r[j], r[at - 1]) && Less(r[at - 1], s) {
        LessTransitive(r[j], r[at - 1], s);
      }
    }
  }

  /** `dedup`: drops repeated neighbours. */
  method Dedup(list: seq<string>) returns (r: seq<string>)
    requires Sorted(list)
    ensures StrictlySorted(r) && SameMembers(r, list)
  {
    r := [];
    for i := 0 to |list|
      invariant StrictlySorted(r) && SameMembers(r, list[..i])
      invariant i == 0 <==> r == []
      invariant i > 0 ==> r[|r| - 1] == list[i - 1]
    {
      assert list[..i + 1] == list[..i] + [list[i]];
      if r == [] || r[|r| - 1] != list[i] {
        forall j | 0 <= j < |r|
          ensures Less(r[j], list[i])
        {
          if j < |r| - 1 {
            LessTransitive(r[j], list[i - 1], list[i]);
          }
        }
        r := r + [list[i]];
      }
    }
    assert list[..|list|] == list;
  }
}
