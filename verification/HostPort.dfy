/**
 Host and port text (`split_host_port`, `format_host_port`, `normalize_dns_server_values`).

 Parsing and printing IP addresses belongs to the standard library: it is the parameter
 `ip`, which maps the text of an address to its canonical text and everything else to None.
 */
module HostPort {
  import opened Base
  import opened Text

  const DEFAULT_DNS_PORT: nat := 53
  const PORT_LIMIT: nat := 65536

  // ---------------------------------------------------------------- searching

  /** The first position of `c`, or the length. */
  function Find(s: string, c: char): (i: nat)
    ensures i <= |s|
    ensures c !in s[..i]
    ensures i < |s| ==> s[i] == c
    ensures i < |s| <==> c in s
  {
    if s == "" || s[0] == c then 0 else 1 + Find(s[1..], c)
  }

  /** The last position of `c`, or the length. */
  function FindLast(s: string, c: char): (i: nat)
    ensures i <= |s|
    ensures i < |s| ==> s[i] == c && c !in s[i + 1..]
    ensures i < |s| <==> c in s
  {
    if s == "" then 0
    else if s[|s| - 1] == c then |s| - 1
    else if FindLast(s[..|s| - 1], c) < |s| - 1 then FindLast(s[..|s| - 1], c)
    else |s|
  }

  // ---------------------------------------------------------------- ports

  predicate IsDigit(c: char) {
    '0' <= c <= '9'
  }

  function DigitValue(c: char): (d: nat)
    requires IsDigit(c)
  {
    c as int - '0' as int
  }

  function ParseDigits(s: string): (r: Option<nat>) {
    if s == "" || !IsDigit(s[|s| - 1]) then None
    else if |s| == 1 then Some(DigitValue(s[0]))
    else match ParseDigits(s[..|s| - 1])
         case None => None
         case Some(n) => Some(n * 10 + DigitValue(s[|s| - 1]))
  }

  /** `str::parse::<u16>`, which admits a leading plus sign. */
  function ParsePort(s: string): (r: Option<nat>)
    ensures r.Some? ==> r.value < PORT_LIMIT
  {
    var digits := if s != "" && s[0] == '+' then s[1..] else s;
    match ParseDigits(digits)
    case Some(n) => if n < PORT_LIMIT then Some(n) else None
    case None => None
  }

  function DigitChar(d: nat): (c: char)
    requires d < 10
    ensures IsDigit(c) && DigitValue(c) == d
  {
    ('0' as int + d) as char
  }

  function Decimal(n: nat): (s: string)
    ensures s != "" && forall c <- s :: IsDigit(c)
  {
    if n < 10 then [DigitChar(n)] else Decimal(n / 10) + [DigitChar(n % 10)]
  }

  lemma {:induction false} DecimalRoundTrip(n: nat)
    ensures ParseDigits(Decimal(n)) == Some(n)
  {
    if n >= 10 {
      DecimalRoundTrip(n / 10);
      assert Decimal(n)[..|Decimal(n)| - 1] == Decimal(n / 10);
    }
  }

  lemma PortRoundTrip(p: nat)
    requires p < PORT_LIMIT
    ensures ParsePort(Decimal(p)) == Some(p)
  {
    DecimalRoundTrip(p);
    assert IsDigit(Decimal(p)[0]);
  }

  // ---------------------------------------------------------------- split and format

  /** What is used of the textual form of IP addresses. */
  ghost predicate IpText(ip: string -> Option<string>) {
    && (forall s :: ip(s).Some? && ':' in s ==> TwoColons(s))
    && (forall s :: ip(s).Some? ==> Stable(ip(s).value))
  }

  ghost predicate TwoColons(s: string) {
    exists i, j :: 0 <= i < j < |s| && s[i] == ':' && s[j] == ':'
  }

  /** The errors, by name. */
  datatype Fault = MissingBracket | InvalidBracketedHost | InvalidPort | MissingHost | UnbracketedIpv6 | InvalidValue

  function SplitBracketed(s: string): (r: Result<(string, nat), Fault>) {
    var close := Find(s, ']');
    if close == |s| then Err(MissingBracket) else
    var host, rest := s[..close], s[close + 1..];
    if rest == "" then Ok((host, DEFAULT_DNS_PORT))
    else if rest[0] != ':' then Err(InvalidBracketedHost)
    else match ParsePort(rest[1..])
         case Some(p) => Ok((host, p))
         case None => Err(InvalidPort)
  }

  function SplitPlain(s: string): (r: Result<(string, nat), Fault>) {
    var colon := FindLast(s, ':');
    if colon == |s| then Ok((s, DEFAULT_DNS_PORT)) else
    var host := s[..colon];
    if host == "" then Err(MissingHost)
    else if ':' in host then Err(UnbracketedIpv6)
    else match ParsePort(s[colon + 1..])
         case Some(p) => Ok((host, p))
         case None => Err(InvalidPort)
  }

  function SplitHostPort(ip: string -> Option<string>, value: string): (r: Result<(string, nat), Fault>) {
    SplitTrimmed(ip, Trim(value))
  }

  function SplitTrimmed(ip: string -> Option<string>, s: string): (r: Result<(string, nat), Fault>) {
    if s == "" then Err(MissingHost)
    else if s[0] == '[' then SplitBracketed(s[1..])
    else match ip(s)
         case Some(text) => Ok((text, DEFAULT_DNS_PORT))
         case None => SplitPlain(s)
  }

  function FormatHostPort(host: string, port: nat): (r: string) {
    if ':' in host && host[0] != '[' then "[" + host + "]:" + Decimal(port) else host + ":" + Decimal(port)
  }

  /** The hosts that survive being printed and parsed. */
  predicate Stable(h: string) {
    && h != "" && h[0] != '['
    && if ':' in h then ']' !in h else !IsWhitespace(h[0])
  }

  lemma FormatEndsInDigit(h: string, p: nat)
    ensures var f := FormatHostPort(h, p); f != "" && IsDigit(f[|f| - 1]) && !IsWhitespace(f[|f| - 1])
  {
  }

  lemma FindIs(s: string, c: char, i: nat)
    requires i < |s| && s[i] == c && c !in s[..i]
    ensures Find(s, c) == i
  {
  }

  lemma FindLastIs(s: string, c: char, i: nat)
    requires i < |s| && s[i] == c && c !in s[i + 1..]
    ensures FindLast(s, c) == i
  {
  }

  lemma NoColonInDecimal(p: nat)
    ensures ':' !in Decimal(p) && ']' !in Decimal(p)
  {
  }

  /** A bracketed host comes back up to its first closing bracket. */
  lemma BracketedSplit(h: string, p: nat)
    requires p < PORT_LIMIT && ']' !in h
    ensures SplitBracketed(h + "]:" + Decimal(p)) == Ok((h, p))
  {
    CutAt(h, "]:", Decimal(p));
    FindIs(h + "]:" + Decimal(p), ']', |h|);
    PortRoundTrip(p);
  }

  lemma CutAt(h: string, mid: string, rest: string)
    requires |mid| == 2
    ensures var s := h + mid + rest;
            && s[..|h|] == h && s[|h|] == mid[0]
            && s[|h| + 1..] != "" && s[|h| + 1..][0] == mid[1] && s[|h| + 1..][1..] == rest
  {
  }

  lemma PlainSplit(h: string, p: nat)
    requires p < PORT_LIMIT && h != "" && ':' !in h
    ensures SplitPlain(h + ":" + Decimal(p)) == Ok((h, p))
  {
    var s := h + ":" + Decimal(p);
    NoColonInDecimal(p);
    assert s[|h| + 1..] == Decimal(p);
    FindLastIs(s, ':', |h|);
    assert s[..|h|] == h;
    PortRoundTrip(p);
  }

  /** Text with a single colon is not an IP address. */
  lemma OneColon(ip: string -> Option<string>, h: string, p: nat)
    requires IpText(ip) && ':' !in h
    ensures ip(h + ":" + Decimal(p)) == None
  {
    var s := h + ":" + Decimal(p);
    NoColonInDecimal(p);
    assert s[|h|] == ':';
    assert !TwoColons(s);
  }

  /** What is printed for a host without whitespace in front is split as it is. */
  lemma PrintedIsTrimmed(ip: string -> Option<string>, h: string, p: nat)
    requires (':' in h && h[0] != '[') || h == "" || !IsWhitespace(h[0])
    ensures SplitHostPort(ip, FormatHostPort(h, p)) == SplitTrimmed(ip, FormatHostPort(h, p))
  {
    FormatEndsInDigit(h, p);
    FormatStart(h, p);
    TrimNothing(FormatHostPort(h, p));
  }

  lemma HeadOff(a: string, b: string, c: string)
    requires a != ""
    ensures (a + b + c)[1..] == a[1..] + b + c
  {
  }

  lemma TailOf(x: string, a: string, b: string, c: string)
    requires |x| == 1
    ensures (x + a + b + c)[1..] == a + b + c
  {
  }

  lemma FormatStart(h: string, p: nat)
    ensures var f := FormatHostPort(h, p);
            f != "" && f[0] == if ':' in h && h[0] != '[' then '[' else if h == "" then ':' else h[0]
  {
  }

  lemma BracketedRoundTrip(ip: string -> Option<string>, h: string, p: nat)
    requires p < PORT_LIMIT && Stable(h) && ':' in h
    ensures SplitHostPort(ip, FormatHostPort(h, p)) == Ok((h, p))
  {
    PrintedIsTrimmed(ip, h, p);
    FormatStart(h, p);
    TailOf("[", h, "]:", Decimal(p));
    BracketedSplit(h, p);
  }

  lemma PlainRoundTrip(ip: string -> Option<string>, h: string, p: nat)
    requires p < PORT_LIMIT && Stable(h) && ':' !in h && ip(h + ":" + Decimal(p)) == None
    ensures SplitHostPort(ip, FormatHostPort(h, p)) == Ok((h, p))
  {
    PrintedIsTrimmed(ip, h, p);
    FormatStart(h, p);
    PlainSplit(h, p);
  }

  /** A split after an opening bracket returns a host shorter than what follows the bracket. */
  lemma BracketedShorter(s: string)
    requires SplitBracketed(s).Ok?
    ensures var h := SplitBracketed(s).value.0; h == s[..Find(s, ']')] && |h| < |s|
  {
  }

  lemma EmptyHostBreaks(ip: string -> Option<string>, p: nat)
    requires ip(":" + Decimal(p)) == None
    ensures SplitHostPort(ip, FormatHostPort("", p)).Err?
  {
    PrintedIsTrimmed(ip, "", p);
    FormatStart("", p);
    assert FormatHostPort("", p) == ":" + Decimal(p);
    NoHostSplit(p);
  }

  lemma NoHostSplit(p: nat)
    ensures SplitPlain(":" + Decimal(p)).Err?
  {
    var f := ":" + Decimal(p);
    NoColonInDecimal(p);
    assert f[1..] == Decimal(p);
    FindLastIs(f, ':', 0);
  }

  lemma OpeningBracketBreaks(ip: string -> Option<string>, h: string, p: nat)
    requires h != "" && h[0] == '['
    ensures SplitHostPort(ip, FormatHostPort(h, p)) != Ok((h, p))
    ensures ']' !in h ==> SplitHostPort(ip, FormatHostPort(h, p)).Err?
  {
    PrintedIsTrimmed(ip, h, p);
    FormatStart(h, p);
    HeadOff(h, ":", Decimal(p));
    InnerBracket(h, p, FormatHostPort(h, p)[1..]);
  }

  /** What is split off inside the brackets is shorter than the host, which started with one of its own. */
  lemma InnerBracket(h: string, p: nat, s: string)
    requires h != "" && s == h[1..] + ":" + Decimal(p)
    ensures SplitBracketed(s).Ok? ==> ']' in h && |SplitBracketed(s).value.0| < |h|
  {
    if SplitBracketed(s).Ok? {
      BracketedShorter(s);
      ClosingIsInHost(h[1..], p, Find(s, ']'), 0);
      assert h[1..][Find(s, ']')] == ']';
    }
  }

  lemma ClosingBracketBreaks(ip: string -> Option<string>, h: string, p: nat)
    requires h != "" && h[0] != '[' && ':' in h && ']' in h
    ensures SplitHostPort(ip, FormatHostPort(h, p)) != Ok((h, p))
  {
    PrintedIsTrimmed(ip, h, p);
    FormatStart(h, p);
    var s := FormatHostPort(h, p)[1..];
    TailOf("[", h, "]:", Decimal(p));
    EarlyClose(h, s, "]:", Decimal(p));
  }

  /** A host that contains a closing bracket ends there when it is split. */
  lemma EarlyClose(h: string, s: string, mid: string, rest: string)
    requires ']' in h && s == h + mid + rest
    ensures SplitBracketed(s).Ok? ==> |SplitBracketed(s).value.0| < |h|
  {
    var i := Find(h, ']');
    assert s[..i] == h[..i];
    FindIs(s, ']', i);
  }

  /** No host comes out of a split with whitespace in front, unless it was in brackets. */
  lemma SplitHostIsTrimmed(ip: string -> Option<string>, value: string)
    requires IpText(ip) && SplitHostPort(ip, value).Ok?
    ensures Trim(value) != ""
    ensures var h := SplitHostPort(ip, value).value.0;
            Trim(value)[0] != '[' && h != "" && ':' !in h ==> !IsWhitespace(h[0])
  {
    PlainHostStart(ip, Trim(value));
  }

  lemma PlainHostStart(ip: string -> Option<string>, s: string)
    requires IpText(ip) && s != "" && !IsWhitespace(s[0]) && SplitTrimmed(ip, s).Ok?
    ensures var h := SplitTrimmed(ip, s).value.0;
            s[0] != '[' && h != "" && ':' !in h ==> !IsWhitespace(h[0])
  {
    if s[0] != '[' && ip(s).Some? {
      assert Stable(ip(s).value);
    }
  }

  lemma LeadingSpaceBreaks(ip: string -> Option<string>, h: string, p: nat)
    requires IpText(ip) && h != "" && ':' !in h && IsWhitespace(h[0])
    ensures SplitHostPort(ip, FormatHostPort(h, p)) != Ok((h, p))
  {
    var f := FormatHostPort(h, p);
    if SplitHostPort(ip, f).Ok? {
      if Trim(f)[0] == '[' {
        SpacedBracketBreaks(ip, h, p);
      } else {
        SplitHostIsTrimmed(ip, f);
      }
    }
  }

  lemma SpacedBracketBreaks(ip: string -> Option<string>, h: string, p: nat)
    requires h != "" && ':' !in h && IsWhitespace(h[0])
    requires var s := Trim(FormatHostPort(h, p)); s != "" && s[0] == '['
    ensures SplitHostPort(ip, FormatHostPort(h, p)) != Ok((h, p))
  {
    var f := FormatHostPort(h, p);
    TrimOfSpaced(h, p);
    var s := Trim(f)[1..];
    if SplitBracketed(s).Ok? {
      BracketedShorter(s);
      ClosingIsInHost(h, p, Find(s, ']'), |f| - |s|);
    }
  }

  /** In "host:port" a closing bracket can only belong to the host. */
  lemma ClosingIsInHost(h: string, p: nat, i: nat, skip: nat)
    requires var f := h + ":" + Decimal(p); skip + i < |f| && f[skip + i] == ']'
    ensures skip + i < |h|
  {
    NoColonInDecimal(p);
  }

  lemma TrimOfSpaced(h: string, p: nat)
    requires h != "" && ':' !in h && IsWhitespace(h[0])
    ensures var f, s := FormatHostPort(h, p), Trim(FormatHostPort(h, p)); |s| < |f| && s == f[|f| - |s|..]
  {
    FormatEndsInDigit(h, p);
  }

  lemma UnstableBreaks(ip: string -> Option<string>, h: string, p: nat)
    requires IpText(ip) && !Stable(h)
    ensures SplitHostPort(ip, FormatHostPort(h, p)) != Ok((h, p))
  {
    if h == "" {
      OneColon(ip, h, p);
      assert "" + ":" + Decimal(p) == ":" + Decimal(p);
      EmptyHostBreaks(ip, p);
    } else if h[0] == '[' {
      OpeningBracketBreaks(ip, h, p);
    } else if ':' in h {
      ClosingBracketBreaks(ip, h, p);
    } else {
      LeadingSpaceBreaks(ip, h, p);
    }
  }

  /**
   Printing and parsing is the identity on exactly the stable hosts: non-empty, not
   starting with '[', and without ']' if they contain ':', without whitespace in front if
   they do not.
   */
  lemma HostPortRoundTrip(ip: string -> Option<string>, h: string, p: nat)
    requires IpText(ip) && p < PORT_LIMIT
    ensures SplitHostPort(ip, FormatHostPort(h, p)) == Ok((h, p)) <==> Stable(h)
  {
    if !Stable(h) {
      UnstableBreaks(ip, h, p);
    } else if ':' in h {
      BracketedRoundTrip(ip, h, p);
    } else {
      OneColon(ip, h, p);
      PlainRoundTrip(ip, h, p);
    }
  }

  // ---------------------------------------------------------------- normalisation

  datatype Entry = Skip | Bad | Good(text: string)

  /** What the loop makes of one raw value. */
  function EntryOf(ip: string -> Option<string>, raw: string): (e: Entry) {
    if Trim(raw) == "" then Skip
    else match SplitHostPort(ip, Trim(raw))
         case Err(_) => Bad
         case Ok((h, p)) => Good(FormatHostPort(h, p))
  }

  function Entries(ip: string -> Option<string>): (f: string -> Entry) {
    (raw: string) => EntryOf(ip, raw)
  }

  /** `out` is the strictly sorted list of the texts of `values`, none of which is bad. */
  ghost predicate Normalizes(f: string -> Entry, values: seq<string>, out: seq<string>) {
    && (forall raw <- values :: f(raw) != Bad)
    && StrictlySorted(out)
    && (forall raw <- values :: f(raw).Good? ==> f(raw).text in out)
    && (forall s <- out :: exists raw :: raw in values && f(raw) == Good(s))
  }

  method Collect(f: string -> Entry, values: seq<string>) returns (r: Option<seq<string>>)
    ensures r.None? <==> exists raw :: raw in values && f(raw) == Bad
    ensures r.Some? ==>
              && (forall raw <- values :: f(raw).Good? ==> f(raw).text in r.value)
              && (forall s <- r.value :: exists raw :: raw in values && f(raw) == Good(s))
  {
    var out: seq<string> := [];
    for i := 0 to |values|
      invariant forall raw <- values[..i] :: f(raw) != Bad
      invariant forall raw <- values[..i] :: f(raw).Good? ==> f(raw).text in out
      invariant forall s <- out :: exists raw :: raw in values[..i] && f(raw) == Good(s)
    {
      var raw := values[i];
      assert values[..i + 1] == values[..i] + [raw];
      match f(raw)
      case Skip =>
      case Bad =>
        assert raw in values;
        return None;
      case Good(text) =>
        assert raw in values[..i + 1];
        out := out + [text];
    }
    assert values[..|values|] == values;
    return Some(out);
  }

  /** `normalize_dns_server_values`: an error if some entry does not parse. */
  method NormalizeDnsServerValues(ip: string -> Option<string>, values: seq<string>)
    returns (r: Result<seq<string>, Fault>)
    ensures r.Err? <==> exists raw :: raw in values && Entries(ip)(raw) == Bad
    ensures r.Ok? ==> Normalizes(Entries(ip), values, r.value)
  {
    var out := Collect(Entries(ip), values);
    if out.None? {
      return Err(InvalidValue);
    }
    var sorted := Sort(out.value);
    assert forall s :: s in sorted <==> s in multiset(sorted);
    assert forall s :: s in out.value <==> s in multiset(out.value);
    var unique := Dedup(sorted);
    return Ok(unique);
  }

  /** The outcome does not depend on how the list was sorted or deduplicated. */
  lemma NormalizationUnique(f: string -> Entry, values: seq<string>, a: seq<string>, b: seq<string>)
    requires Normalizes(f, values, a) && Normalizes(f, values, b)
    ensures a == b
  {
    forall s
      ensures s in a <==> s in b
    {
      if s in a {
        var raw :| raw in values && f(raw) == Good(s);
      }
      if s in b {
        var raw :| raw in values && f(raw) == Good(s);
      }
    }
    StrictlySortedUnique(a, b);
  }

  /** Hosts that come out of a split: only plain ones, without spaces in front, contain ']'. */
  predicate SplitHost(h: string) {
    h != "" && (h[0] == '[' || IsWhitespace(h[0]) || ':' in h) ==> ']' !in h
  }

  lemma SplitShape(ip: string -> Option<string>, s: string)
    requires IpText(ip) && SplitHostPort(ip, s).Ok?
    ensures SplitHost(SplitHostPort(ip, s).value.0) && SplitHostPort(ip, s).value.1 < PORT_LIMIT
  {
    TrimmedShape(ip, Trim(s));
  }

  lemma TrimmedShape(ip: string -> Option<string>, s: string)
    requires IpText(ip) && (s != "" ==> !IsWhitespace(s[0])) && SplitTrimmed(ip, s).Ok?
    ensures SplitHost(SplitTrimmed(ip, s).value.0) && SplitTrimmed(ip, s).value.1 < PORT_LIMIT
  {
    if s[0] == '[' {
      BracketedShape(s[1..]);
    } else if ip(s).Some? {
      assert Stable(ip(s).value);
    }
  }

  lemma BracketedShape(s: string)
    requires SplitBracketed(s).Ok?
    ensures ']' !in SplitBracketed(s).value.0 && SplitBracketed(s).value.1 < PORT_LIMIT
  {
  }

  /** Without a bracket in front, the host and so the printed entry start with no whitespace. */
  lemma PlainEntryStart(ip: string -> Option<string>, s: string)
    requires IpText(ip) && Trim(s) != "" && Trim(s)[0] != '[' && SplitHostPort(ip, s).Ok?
    ensures var (h, p) := SplitHostPort(ip, s).value; h != "" && FormatHostPort(h, p) != ""
    ensures var (h, p) := SplitHostPort(ip, s).value; !IsWhitespace(FormatHostPort(h, p)[0])
  {
    var (h, p) := SplitHostPort(ip, s).value;
    PlainHost(ip, Trim(s));
    FormatStart(h, p);
    if ':' !in h {
      SplitHostIsTrimmed(ip, s);
    } else {
      ColonHost(ip, Trim(s));
    }
  }

  lemma PlainHost(ip: string -> Option<string>, s: string)
    requires IpText(ip) && s != "" && s[0] != '[' && SplitTrimmed(ip, s).Ok?
    ensures SplitTrimmed(ip, s).value.0 != ""
  {
    if ip(s).Some? {
      assert Stable(ip(s).value);
    }
  }

  /** A plain host with a colon is the text of an IP address, which has no bracket in front. */
  lemma ColonHost(ip: string -> Option<string>, s: string)
    requires IpText(ip) && s != "" && s[0] != '[' && SplitTrimmed(ip, s).Ok? && ':' in SplitTrimmed(ip, s).value.0
    ensures SplitTrimmed(ip, s).value.0[0] != '['
  {
    if ip(s).Some? {
      assert Stable(ip(s).value);
    } else {
      NoColonLeft(s);
    }
  }

  lemma NoColonLeft(s: string)
    requires SplitPlain(s).Ok?
    ensures ':' !in SplitPlain(s).value.0
  {
  }

  lemma NoHostRefused(ip: string -> Option<string>, p: nat)
    requires IpText(ip)
    ensures SplitHostPort(ip, FormatHostPort("", p)).Err?
  {
    OneColon(ip, "", p);
    assert "" + ":" + Decimal(p) == ":" + Decimal(p);
    EmptyHostBreaks(ip, p);
  }

  /** A printed unstable host is refused, unless it had whitespace in front and no bracket after. */
  lemma UnstablePrinted(ip: string -> Option<string>, h: string, p: nat)
    requires IpText(ip) && p < PORT_LIMIT && SplitHost(h) && !Stable(h)
    requires SplitHostPort(ip, FormatHostPort(h, p)).Ok?
    ensures h != "" && ':' !in h && IsWhitespace(h[0])
    ensures var s := Trim(FormatHostPort(h, p)); s != "" && s[0] != '['
  {
    NoHostRefused(ip, p);
    if h != "" && h[0] == '[' {
      OpeningBracketBreaks(ip, h, p);
    } else if h != "" {
      SpacedNoBracket(ip, h, p);
    }
  }

  lemma SpacedNoBracket(ip: string -> Option<string>, h: string, p: nat)
    requires h != "" && IsWhitespace(h[0]) && ':' !in h && ']' !in h
    requires SplitHostPort(ip, FormatHostPort(h, p)).Ok?
    ensures var s := Trim(FormatHostPort(h, p)); s != "" && s[0] != '['
  {
    var f := FormatHostPort(h, p);
    TrimOfSpaced(h, p);
    var s := Trim(f);
    if s[0] == '[' {
      BracketedShorter(s[1..]);
      ClosingIsInHost(h, p, Find(s[1..], ']'), |f| - |s| + 1);
    }
  }

  /** Every raw value that is kept has a stable host. */
  ghost predicate AllStable(ip: string -> Option<string>, values: seq<string>) {
    forall raw <- values :: Trim(raw) != "" && SplitHostPort(ip, Trim(raw)).Ok? ==>
                              Stable(SplitHostPort(ip, Trim(raw)).value.0)
  }

  lemma EntryIs(ip: string -> Option<string>, raw: string)
    requires Trim(raw) != ""
    ensures SplitHostPort(ip, raw).Ok? ==>
              EntryOf(ip, raw) == Good(FormatHostPort(SplitHostPort(ip, raw).value.0, SplitHostPort(ip, raw).value.1))
    ensures SplitHostPort(ip, raw).Err? ==> EntryOf(ip, raw) == Bad
    ensures SplitHostPort(ip, Trim(raw)) == SplitHostPort(ip, raw)
  {
    TrimTwice(raw);
  }

  lemma PrintedNotSkipped(h: string, p: nat)
    ensures Trim(FormatHostPort(h, p)) != ""
  {
    var f := FormatHostPort(h, p);
    FormatEndsInDigit(h, p);
    TrimStartKeepsLast(f);
  }

  lemma {:induction false} TrimStartKeepsLast(s: string)
    requires s != "" && !IsWhitespace(s[|s| - 1])
    ensures TrimStart(s) != "" && TrimStart(s)[|TrimStart(s)| - 1] == s[|s| - 1]
  {
    if IsWhitespace(s[0]) {
      TrimStartKeepsLast(s[1..]);
    }
  }

  lemma StablePrinted(ip: string -> Option<string>, h: string, p: nat)
    requires IpText(ip) && p < PORT_LIMIT && Stable(h)
    ensures EntryOf(ip, FormatHostPort(h, p)) == Good(FormatHostPort(h, p))
    ensures !IsWhitespace(FormatHostPort(h, p)[0])
  {
    HostPortRoundTrip(ip, h, p);
    PrintedNotSkipped(h, p);
    EntryIs(ip, FormatHostPort(h, p));
  }

  lemma UnstableEntry(ip: string -> Option<string>, h: string, p: nat)
    requires IpText(ip) && p < PORT_LIMIT && SplitHost(h) && !Stable(h)
    ensures var e := EntryOf(ip, FormatHostPort(h, p));
            e == Bad || (e.Good? && e.text != "" && !IsWhitespace(e.text[0]) && IsWhitespace(FormatHostPort(h, p)[0]))
  {
    var f := FormatHostPort(h, p);
    PrintedNotSkipped(h, p);
    EntryIs(ip, f);
    if SplitHostPort(ip, f).Ok? {
      UnstablePrinted(ip, h, p);
      PlainEntryStart(ip, f);
    }
  }

  /** Every output entry is a printed host and port that some raw value was split into. */
  lemma OutputIsPrinted(ip: string -> Option<string>, values: seq<string>, out: seq<string>, s: string)
    returns (raw: string, h: string, p: nat)
    requires IpText(ip) && Normalizes(Entries(ip), values, out) && s in out
    ensures raw in values && Trim(raw) != "" && SplitHostPort(ip, Trim(raw)) == Ok((h, p))
    ensures s == FormatHostPort(h, p) && SplitHost(h) && p < PORT_LIMIT
  {
    raw :| raw in values && Entries(ip)(raw) == Good(s);
    SplitShape(ip, Trim(raw));
    h, p := SplitHostPort(ip, Trim(raw)).value.0, SplitHostPort(ip, Trim(raw)).value.1;
  }

  lemma StableOutput(ip: string -> Option<string>, values: seq<string>, out: seq<string>, s: string)
    requires IpText(ip) && Normalizes(Entries(ip), values, out) && AllStable(ip, values) && s in out
    ensures Entries(ip)(s) == Good(s)
  {
    var raw, h, p := OutputIsPrinted(ip, values, out, s);
    StablePrinted(ip, h, p);
  }

  /** No output entry normalises to text with whitespace in front. */
  lemma OutputEntryStart(ip: string -> Option<string>, values: seq<string>, out: seq<string>, s: string)
    requires IpText(ip) && Normalizes(Entries(ip), values, out) && s in out
    ensures var e := Entries(ip)(s); e.Good? ==> e.text != "" && !IsWhitespace(e.text[0])
  {
    var raw, h, p := OutputIsPrinted(ip, values, out, s);
    if Stable(h) {
      FormatEndsInDigit(h, p);
      StablePrinted(ip, h, p);
    } else {
      UnstableEntry(ip, h, p);
    }
  }

  lemma NotFixed(f: string -> Entry, out: seq<string>, s: string)
    requires s in out
    requires f(s) == Bad || forall x <- out :: f(x) != Good(s)
    ensures !Normalizes(f, out, out)
  {
  }

  lemma UnstableValueBreaks(ip: string -> Option<string>, values: seq<string>, out: seq<string>, raw: string,
                            h: string, p: nat)
    requires IpText(ip) && Normalizes(Entries(ip), values, out) && raw in values && Trim(raw) != ""
    requires SplitHostPort(ip, Trim(raw)) == Ok((h, p)) && !Stable(h)
    ensures !Normalizes(Entries(ip), out, out)
  {
    var s := FormatHostPort(h, p);
    assert Entries(ip)(raw) == Good(s);
    SplitShape(ip, Trim(raw));
    UnstableEntry(ip, h, p);
    forall x <- out
      ensures Entries(ip)(s) == Bad || Entries(ip)(x) != Good(s)
    {
      OutputEntryStart(ip, values, out, x);
    }
    NotFixed(Entries(ip), out, s);
  }

  /** Normalising twice is normalising once exactly when every host is stable. */
  lemma NormalizationIdempotent(ip: string -> Option<string>, values: seq<string>, out: seq<string>)
    requires IpText(ip) && Normalizes(Entries(ip), values, out)
    ensures Normalizes(Entries(ip), out, out) <==> AllStable(ip, values)
  {
    if AllStable(ip, values) {
      forall s <- out
        ensures Entries(ip)(s) == Good(s)
      {
        StableOutput(ip, values, out, s);
      }
    } else {
      var raw :| raw in values && Trim(raw) != "" && SplitHostPort(ip, Trim(raw)).Ok?
                 && !Stable(SplitHostPort(ip, Trim(raw)).value.0);
      var parts := SplitHostPort(ip, Trim(raw)).value;
      UnstableValueBreaks(ip, values, out, raw, parts.0, parts.1);
    }
  }
}
