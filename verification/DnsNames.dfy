/**
 Names as the DNS view makes and compares them (src/dns.rs, `normalize_name` and
 `is_within_domains`).  Lower-casing is a parameter of which only its effect on ASCII text
 is known.
 */
module DnsNames {
  import opened Text

  /** `trim_end_matches('.')`. */
  function TrimDots(s: string): (r: string)
    ensures |r| <= |s| && r == s[..|r|]
  {
    if s != "" && s[|s| - 1] == '.' then TrimDots(s[..|s| - 1]) else s
  }

  /** What `normalize_name` leaves of a name before it lower-cases it. */
  function Bare(name: string): (r: string) {
    TrimDots(Trim(name))
  }

  /** `normalize_name`, for any way of lower-casing. */
  function Normalizer(lower: string -> string): (f: string -> string) {
    (name: string) => lower(Bare(name))
  }

  /** What is known of `to_lowercase`: on ASCII text it is `to_ascii_lowercase`. */
  ghost predicate LowersAscii(lower: string -> string) {
    forall s | Ascii(s) :: lower(s) == Lower(s)
  }

  /** What normalising leaves of a domain at the end of a longer name. */
  function Tail(domain: string): (r: string) {
    TrimDots(TrimEnd(domain))
  }

  lemma {:induction false} TrimEndOf(x: string, y: string)
    requires TrimEnd(y) != ""
    ensures TrimEnd(x + y) == x + TrimEnd(y)
  {
    if IsWhitespace(y[|y| - 1]) {
      TrimEndOf(x, y[..|y| - 1]);
      assert (x + y)[..|x + y| - 1] == x + y[..|y| - 1];
    }
  }

  lemma {:induction false} TrimDotsOf(x: string, y: string)
    requires TrimDots(y) != ""
    ensures TrimDots(x + y) == x + TrimDots(y)
  {
    if y[|y| - 1] == '.' {
      TrimDotsOf(x, y[..|y| - 1]);
      assert (x + y)[..|x + y| - 1] == x + y[..|y| - 1];
    }
  }

  /** A node's full name keeps the node's own name and ends in the domain, before lower-casing. */
  lemma FullName(name: string, domain: string)
    requires name != "" && !IsWhitespace(name[0]) && Tail(domain) != ""
    ensures Bare(name + "." + domain) == name + "." + Tail(domain)
  {
    var x := name + ".";
    TrimStartNothing(x + domain);
    TrimEndOf(x, domain);
    assert Trim(x + domain) == x + TrimEnd(domain);
    TrimDotsOf(x, TrimEnd(domain));
  }

  lemma TrimStartNothing(s: string)
    requires s == "" || !IsWhitespace(s[0])
    ensures TrimStart(s) == s
  {
  }

  predicate EndsWith(s: string, suffix: string) {
    |suffix| <= |s| && s[|s| - |suffix|..] == suffix
  }

  /** A name is the domain itself or below it. */
  predicate Within(name: string, domain: string) {
    name == domain || EndsWith(name, "." + domain)
  }

  lemma LowerOf(a: string, b: string)
    ensures Lower(a + b) == Lower(a) + Lower(b)
  {
  }

  lemma LowerFull(name: string, tail: string)
    ensures Lower(name + "." + tail) == Lower(name) + "." + Lower(tail)
  {
    LowerOf(name + ".", tail);
    LowerOf(name, ".");
    assert Lower(".") == ".";
  }

  /** Under one domain two full names are the same exactly if the names are, ignoring case. */
  lemma SameDomain(a: string, b: string, tail: string)
    ensures Lower(a + "." + tail) == Lower(b + "." + tail) <==> SameIgnoringCase(a, b)
  {
    LowerFull(a, tail);
    LowerFull(b, tail);
    var t := "." + Lower(tail);
    assert Lower(a) + "." + Lower(tail) == Lower(a) + t && Lower(b) + "." + Lower(tail) == Lower(b) + t;
    SamePrefix(Lower(a), Lower(b), t);
  }

  lemma SamePrefix(a: string, b: string, t: string)
    ensures a + t == b + t <==> a == b
  {
    if a + t == b + t {
      assert |a + t| == |b + t| && |a| == |b|;
      assert a == (a + t)[..|a|] && b == (b + t)[..|b|];
    }
  }

  /** Domains neither of which is within the other. */
  predicate Separate(c: string, d: string) {
    !Within(Lower(Tail(c)), Lower(Tail(d))) && !Within(Lower(Tail(d)), Lower(Tail(c)))
  }

  lemma SuffixWithin(a: string, c: string, b: string, d: string)
    requires a + "." + c == b + "." + d && |c| >= |d|
    ensures Within(c, d)
  {
    var s := a + "." + c;
    assert c == s[|a| + 1..] && "." + d == s[|b|..];
    if |c| > |d| {
      assert c[|c| - |d| - 1..] == s[|b|..];
    } else {
      assert d == s[|b| + 1..];
    }
  }

  /** Under separate domains full names are never the same, whatever the names. */
  lemma SeparateDomains(a: string, c: string, b: string, d: string)
    requires Separate(c, d)
    ensures Lower(a + "." + Tail(c)) != Lower(b + "." + Tail(d))
  {
    LowerFull(a, Tail(c));
    LowerFull(b, Tail(d));
    if Lower(a + "." + Tail(c)) == Lower(b + "." + Tail(d)) {
      if |Tail(c)| >= |Tail(d)| {
        SuffixWithin(Lower(a), Lower(Tail(c)), Lower(b), Lower(Tail(d)));
      } else {
        SuffixWithin(Lower(b), Lower(Tail(d)), Lower(a), Lower(Tail(c)));
      }
    }
  }

  /** Separate domains, or different ones with dotless names. */
  predicate KeptApart(a: string, c: string, b: string, d: string) {
    Separate(c, d) || (Lower(Tail(c)) != Lower(Tail(d)) && '.' !in a && '.' !in b)
  }

  lemma LowerDotless(s: string)
    ensures '.' in Lower(s) <==> '.' in s
  {
    if '.' in s {
      var i :| 0 <= i < |s| && s[i] == '.';
      assert Lower(s)[i] == '.';
    }
    if '.' in Lower(s) {
      var i :| 0 <= i < |s| && Lower(s)[i] == '.';
      assert s[i] == '.';
    }
  }

  /** The first dot ends a dotless name. */
  lemma FirstDot(a: string, c: string, b: string, d: string)
    requires a + "." + c == b + "." + d && '.' !in a && '.' !in b
    ensures a == b && c == d
  {
    var s := a + "." + c;
    assert s[|a|] == '.' && s[|b|] == '.';
    assert |a| == |b|;
    assert a == s[..|a|] && b == s[..|b|];
    assert c == s[|a| + 1..] && d == s[|b| + 1..];
  }

  /** Different domains with dotless names, or separate domains with any names. */
  lemma DifferentDomains(a: string, c: string, b: string, d: string)
    requires KeptApart(a, c, b, d)
    ensures Lower(a + "." + Tail(c)) != Lower(b + "." + Tail(d))
  {
    if Separate(c, d) {
      SeparateDomains(a, c, b, d);
    } else {
      LowerFull(a, Tail(c));
      LowerFull(b, Tail(d));
      LowerDotless(a);
      LowerDotless(b);
      if Lower(a + "." + Tail(c)) == Lower(b + "." + Tail(d)) {
        FirstDot(Lower(a), Lower(Tail(c)), Lower(b), Lower(Tail(d)));
      }
    }
  }

  lemma TrimDotsAscii(s: string)
    requires Ascii(s)
    ensures Ascii(TrimDots(s))
  {
    AsciiSlice(s, 0, |TrimDots(s)|);
    assert TrimDots(s) == s[0..|TrimDots(s)|];
  }

  lemma AsciiSlice(s: string, lo: nat, hi: nat)
    requires Ascii(s) && lo <= hi <= |s|
    ensures Ascii(s[lo..hi])
  {
    forall i | 0 <= i < hi - lo
      ensures s[lo..hi][i] as int < 0x80
    {
      assert s[lo..hi][i] == s[lo + i] && s[lo + i] in s;
    }
  }

  lemma TrimEndAscii(s: string)
    requires Ascii(s)
    ensures Ascii(TrimEnd(s))
  {
    AsciiSlice(s, 0, |TrimEnd(s)|);
    assert TrimEnd(s) == s[0..|TrimEnd(s)|];
  }

  lemma TrimStartAscii(s: string)
    requires Ascii(s)
    ensures Ascii(TrimStart(s))
  {
    AsciiSlice(s, |s| - |TrimStart(s)|, |s|);
    assert TrimStart(s) == s[|s| - |TrimStart(s)|..|s|];
  }

  lemma AsciiBare(domain: string)
    requires Ascii(domain)
    ensures Ascii(Bare(domain))
  {
    TrimStartAscii(domain);
    TrimEndAscii(TrimStart(domain));
    TrimDotsAscii(Trim(domain));
  }

  lemma AsciiFull(name: string, domain: string)
    requires Ascii(name) && Ascii(domain)
    ensures Ascii(name + "." + Tail(domain))
  {
    TrimEndAscii(domain);
    TrimDotsAscii(TrimEnd(domain));
    AsciiJoin(name, ".");
    AsciiJoin(name + ".", Tail(domain));
  }

  lemma AsciiJoin(a: string, b: string)
    requires Ascii(a) && Ascii(b)
    ensures Ascii(a + b)
  {
  }

  // ---------------------------------------------------------------- domains of names

  lemma EndsInTail(name: string, tail: string)
    ensures Within(Lower(name + "." + tail), Lower(tail))
  {
    LowerFull(name, tail);
    var t := "." + Lower(tail);
    assert Lower(name) + "." + Lower(tail) == Lower(name) + t;
  }

  /** What is trimmed in front is whitespace. */
  lemma {:induction false} TrimmedFront(s: string, i: nat)
    requires i < |s| - |TrimStart(s)|
    ensures IsWhitespace(s[i])
  {
    if i > 0 {
      TrimmedFront(s[1..], i - 1);
    }
  }

  lemma TrimStartParts(s: string) returns (front: string)
    ensures s == front + TrimStart(s) && forall c <- front :: IsWhitespace(c)
    ensures s != "" ==> (front == "" <==> !IsWhitespace(s[0]))
  {
    front := s[..|s| - |TrimStart(s)|];
    forall i | 0 <= i < |front|
      ensures IsWhitespace(front[i])
    {
      TrimmedFront(s, i);
    }
  }

  lemma {:induction false} TrimEndWhite(s: string)
    requires forall c <- s :: IsWhitespace(c)
    ensures TrimEnd(s) == ""
  {
    if s != "" {
      TrimEndWhite(s[..|s| - 1]);
    }
  }

  /** Dots behind something that does not end in one are trimmed away. */
  lemma {:induction false} DotsBehind(x: string, dots: string)
    requires TrimDots(dots) == "" && (x != "" ==> x[|x| - 1] != '.')
    ensures TrimDots(x + dots) == x
  {
    if dots == "" {
      assert x + dots == x;
    } else {
      DotsBehind(x, dots[..|dots| - 1]);
      assert (x + dots)[..|x + dots| - 1] == x + dots[..|dots| - 1];
    }
  }

  lemma SomethingLeft(domain: string)
    requires Tail(domain) != ""
    ensures TrimEnd(TrimStart(domain)) != ""
  {
    var front := TrimStartParts(domain);
    if TrimStart(domain) == "" {
      assert domain == front;
      TrimEndWhite(domain);
    } else {
      StartsProperly(TrimStart(domain));
    }
  }

  lemma {:induction false} StartsProperly(s: string)
    requires s != "" && !IsWhitespace(s[0])
    ensures TrimEnd(s) != ""
  {
    if |s| > 1 && IsWhitespace(s[|s| - 1]) {
      StartsProperly(s[..|s| - 1]);
    }
  }

  lemma TrimBehind(front: string, rest: string)
    requires TrimEnd(rest) != "" && forall c <- front :: IsWhitespace(c)
    ensures Tail(front + rest) == front + Tail(rest)
  {
    var t := TrimEnd(rest);
    TrimEndOf(front, rest);
    if TrimDots(t) == "" {
      assert front != "" ==> front[|front| - 1] in front;
      DotsBehind(front, t);
    } else {
      TrimDotsOf(front, t);
    }
  }

  /** The tail of a domain is its bare form behind the whitespace that it starts with. */
  lemma TailParts(domain: string) returns (front: string)
    requires Tail(domain) != ""
    ensures Tail(domain) == front + Bare(domain) && forall c <- front :: IsWhitespace(c)
    ensures domain != "" ==> (front == "" <==> !IsWhitespace(domain[0]))
  {
    front := TrimStartParts(domain);
    SomethingLeft(domain);
    TrimBehind(front, TrimStart(domain));
  }

  lemma SpaceIsNoDot(front: string, bare: string, name: string)
    requires front != "" && forall c <- front :: IsWhitespace(c)
    ensures !Within(Lower(name + "." + (front + bare)), Lower(bare))
  {
    var full, w := Lower(name + "." + (front + bare)), Lower(bare);
    var i := |name| + |front|;
    assert (name + "." + (front + bare))[i] == front[|front| - 1];
    assert |full| == i + 1 + |w|;
    assert front[|front| - 1] in front;
    assert full[|full| - |w| - 1] == full[i] == LowerChar(front[|front| - 1]) != '.';
    assert full[|full| - (|w| + 1)..][0] == full[i];
    assert ("." + w)[0] == '.';
  }

  /** A full name lies within its own domain, as it is listed, exactly if that does not start with whitespace. */
  lemma WithinIff(name: string, domain: string)
    requires Tail(domain) != ""
    ensures domain != ""
    ensures Within(Lower(name + "." + Tail(domain)), Lower(Bare(domain))) <==> !IsWhitespace(domain[0])
  {
    var front := TailParts(domain);
    if front == "" {
      assert Tail(domain) == Bare(domain);
      EndsInTail(name, Tail(domain));
    } else {
      SpaceIsNoDot(front, Bare(domain), name);
    }
  }
}
