/** Release versions X.Y.Z, X.Y.ZbN and X.Y.ZrcN: their text, their order, and the tag before a tag. */
module ReleaseVersion {
  import opened Options
  import opened Text

  /** N is at least one: the pattern admits no "b0". */
  datatype Channel = Beta(n: nat) | Candidate(n: nat) | Stable

  datatype Version = Version(major: nat, minor: nat, patch: nat, channel: Channel)

  predicate IsVersion(v: Version) { v.channel.Stable? || v.channel.n >= 1 }

  // ---------------------------------------------------------------- text

  function PrintChannel(c: Channel): string {
    match c
    case Beta(n) => "b" + Decimal(n)
    case Candidate(n) => "rc" + Decimal(n)
    case Stable => ""
  }

  function Print(v: Version): string {
    Decimal(v.major) + "." + (Decimal(v.minor) + "." + (Decimal(v.patch) + PrintChannel(v.channel)))
  }

  /** The version pattern as a set of texts. */
  ghost predicate Matches(s: string) {
    exists a, b, c, suffix ::
      s == Joined(a, b, c, suffix) && Canonical(a) && Canonical(b) && Canonical(c) && IsSuffix(suffix)
  }

  function Joined(a: string, b: string, c: string, suffix: string): string { a + "." + (b + "." + (c + suffix)) }

  predicate IsSuffix(s: string) {
    s == "" || (s[0] == 'b' && IsPositive(s[1..])) || (|s| >= 2 && s[..2] == "rc" && IsPositive(s[2..]))
  }

  predicate IsPositive(s: string) { Canonical(s) && s != "0" }

  function TakeNumber(s: string): Option<(nat, string)> {
    var n := DigitRun(s);
    if Canonical(s[..n]) then Some((Number(s[..n]), s[n..])) else None
  }

  function ParseChannel(s: string): Option<Channel> {
    if s == "" then Some(Stable)
    else if s[0] == 'b' then
      match TakeNumber(s[1..])
      case Some((n, rest)) => if n >= 1 && rest == "" then Some(Beta(n)) else None
      case None => None
    else if |s| >= 2 && s[..2] == "rc" then
      match TakeNumber(s[2..])
      case Some((n, rest)) => if n >= 1 && rest == "" then Some(Candidate(n)) else None
      case None => None
    else None
  }

  function TakeDotted(s: string): Option<(nat, string)> {
    match TakeNumber(s)
    case Some((n, rest)) => if rest != "" && rest[0] == '.' then Some((n, rest[1..])) else None
    case None => None
  }

  /** `Version(validate_version(s))` */
  function Parse(s: string): Option<Version> {
    match TakeDotted(s)
    case None => None
    case Some((major, s1)) =>
      match TakeDotted(s1)
      case None => None
      case Some((minor, s2)) =>
        match TakeNumber(s2)
        case None => None
        case Some((patch, s3)) =>
          match ParseChannel(s3)
          case None => None
          case Some(c) => Some(Version(major, minor, patch, c))
  }

  lemma TakeCanonical(a: string, rest: string)
    requires Canonical(a) && NoDigitFirst(rest)
    ensures TakeNumber(a + rest) == Some((Number(a), rest))
  {
    RunOfDigits(a, rest);
    assert (a + rest)[..|a|] == a && (a + rest)[|a|..] == rest;
  }

  lemma TakenNumber(s: string)
    requires TakeNumber(s).Some?
    ensures var (n, rest) := TakeNumber(s).value; s == Decimal(n) + rest && NoDigitFirst(rest)
  {
    var n := DigitRun(s);
    DecimalOfNumber(s[..n]);
    assert s == s[..n] + s[n..];
  }

  lemma TakeWhole(a: string)
    requires Canonical(a)
    ensures TakeNumber(a) == Some((Number(a), ""))
  {
    TakeCanonical(a, "");
    assert a + "" == a;
  }

  lemma ParseSuffix(s: string)
    requires IsSuffix(s)
    ensures ParseChannel(s).Some? && PrintChannel(ParseChannel(s).value) == s && NoDigitFirst(s)
  {
    if s != "" {
      var k := if s[0] == 'b' then 1 else 2;
      TakeWhole(s[k..]);
      PositiveNumber(s[k..]);
      DecimalOfNumber(s[k..]);
      assert s == s[..k] + s[k..];
    }
  }

  lemma ParsedChannel(s: string)
    requires ParseChannel(s).Some?
    ensures var c := ParseChannel(s).value; PrintChannel(c) == s && IsSuffix(s) && (c.Stable? || c.n >= 1)
  {
    if s != "" {
      var k := if s[0] == 'b' then 1 else 2;
      TakenNumber(s[k..]);
      var (n, rest) := TakeNumber(s[k..]).value;
      assert s[k..] == Decimal(n);
      NumberOfDecimal(n);
      PositiveNumber(s[k..]);
      assert s == s[..k] + s[k..];
    }
  }

  lemma PrintedChannel(c: Channel)
    requires c.Stable? || c.n >= 1
    ensures IsSuffix(PrintChannel(c)) && ParseChannel(PrintChannel(c)) == Some(c)
  {
    if !c.Stable? {
      var s := PrintChannel(c);
      var k := if c.Beta? then 1 else 2;
      assert s[k..] == Decimal(c.n);
      NumberOfDecimal(c.n);
      PositiveNumber(Decimal(c.n));
      TakeWhole(Decimal(c.n));
    }
  }

  lemma TakeDottedCanonical(a: string, rest: string)
    requires Canonical(a)
    ensures TakeDotted(a + "." + rest) == Some((Number(a), rest))
  {
    TakeCanonical(a, "." + rest);
    assert a + "." + rest == a + ("." + rest);
    assert ("." + rest)[1..] == rest;
  }

  lemma TakenDotted(s: string)
    requires TakeDotted(s).Some?
    ensures var (n, rest) := TakeDotted(s).value; s == Decimal(n) + "." + rest
  {
    TakenNumber(s);
    var (n, rest) := TakeNumber(s).value;
    assert rest == "." + rest[1..];
    assert Decimal(n) + rest == Decimal(n) + "." + rest[1..];
  }

  lemma ParseJoined(a: string, b: string, c: string, suffix: string)
    requires Canonical(a) && Canonical(b) && Canonical(c) && IsSuffix(suffix)
    ensures ParseChannel(suffix).Some?
    ensures Parse(Joined(a, b, c, suffix)) ==
      Some(Version(Number(a), Number(b), Number(c), ParseChannel(suffix).value))
  {
    ParseSuffix(suffix);
    TakeDottedCanonical(a, b + "." + (c + suffix));
    TakeDottedCanonical(b, c + suffix);
    TakeCanonical(c, suffix);
    hide TakeDotted, TakeNumber, ParseChannel, IsSuffix, Canonical;
  }

  /** Printing what was parsed gives the text back. */
  lemma PrintOfParsed(s: string)
    requires Parse(s).Some?
    ensures Print(Parse(s).value) == s && IsVersion(Parse(s).value) && Matches(s)
  {
    TakenDotted(s);
    var (major, s1) := TakeDotted(s).value;
    TakenDotted(s1);
    var (minor, s2) := TakeDotted(s1).value;
    TakenNumber(s2);
    var (patch, s3) := TakeNumber(s2).value;
    ParsedChannel(s3);
    hide TakeDotted, TakeNumber, ParseChannel, IsSuffix, Canonical;
    assert s == Joined(Decimal(major), Decimal(minor), Decimal(patch), s3);
  }

  /** Parsing what was printed gives the version back. */
  lemma ParseOfPrinted(v: Version)
    requires IsVersion(v)
    ensures Parse(Print(v)) == Some(v)
  {
    PrintedChannel(v.channel);
    ParseJoined(Decimal(v.major), Decimal(v.minor), Decimal(v.patch), PrintChannel(v.channel));
    NumberOfDecimal(v.major);
    NumberOfDecimal(v.minor);
    NumberOfDecimal(v.patch);
    hide Parse, ParseChannel, PrintChannel;
  }

  /** Exactly the texts of the pattern are versions. */
  lemma ParsesThePattern(s: string)
    ensures Parse(s).Some? <==> Matches(s)
  {
    if Matches(s) {
      var a, b, c, suffix :|
        s == Joined(a, b, c, suffix) && Canonical(a) && Canonical(b) && Canonical(c) && IsSuffix(suffix);
      ParseJoined(a, b, c, suffix);
    }
    if Parse(s).Some? { PrintOfParsed(s); }
  }

  // ---------------------------------------------------------------- order

  function Rank(c: Channel): nat { if c.Beta? then 0 else if c.Candidate? then 1 else 2 }

  function Serial(c: Channel): nat { if c.Stable? then 0 else c.n }

  predicate ChannelBelow(c: Channel, d: Channel) {
    Rank(c) < Rank(d) || (Rank(c) == Rank(d) && Serial(c) < Serial(d))
  }

  /** The order of PEP 440 on these versions. */
  predicate Below(v: Version, w: Version) {
    v.major < w.major ||
    (v.major == w.major && v.minor < w.minor) ||
    (v.major == w.major && v.minor == w.minor && v.patch < w.patch) ||
    (v.major == w.major && v.minor == w.minor && v.patch == w.patch && ChannelBelow(v.channel, w.channel))
  }

  lemma BelowIsAStrictTotalOrder(u: Version, v: Version, w: Version)
    ensures !Below(v, v)
    ensures Below(u, v) && Below(v, w) ==> Below(u, w)
    ensures Below(u, v) || u == v || Below(v, u)
    ensures !(Below(u, v) && Below(v, u))
  {
  }

  /** What the order is: by the three numbers in turn, and for one release the betas by their number, then the
      candidates by theirs, then the stable version. */
  lemma BelowGoesByParts(v: Version, w: Version, n: nat, m: nat)
    ensures v.major < w.major ==> Below(v, w)
    ensures v.major == w.major && v.minor < w.minor ==> Below(v, w)
    ensures v.major == w.major && v.minor == w.minor && v.patch < w.patch ==> Below(v, w)
    ensures Below(v.(channel := Beta(n)), v.(channel := Beta(m))) <==> n < m
    ensures Below(v.(channel := Candidate(n)), v.(channel := Candidate(m))) <==> n < m
    ensures Below(v.(channel := Beta(n)), v.(channel := Candidate(m)))
    ensures Below(v.(channel := Candidate(n)), v.(channel := Stable)) && Below(v.(channel := Beta(n)), v.(channel := Stable))
  {
  }

  // ---------------------------------------------------------------- the previous tag

  /** `Version(version_from_tag(tag))` */
  function ParseTag(tag: string): Option<Version> {
    if tag != "" && tag[0] == 'v' then Parse(tag[1..]) else None
  }

  /** Exactly the texts of the pattern behind a "v" are tags of versions. */
  lemma TagsExactly(tag: string)
    ensures ParseTag(tag).Some? <==> tag != "" && tag[0] == 'v' && Matches(tag[1..])
    ensures ParseTag(tag).Some? ==> Parse(tag[1..]) == ParseTag(tag)
  {
    if tag != "" && tag[0] == 'v' { ParsesThePattern(tag[1..]); }
    hide Parse, Matches;
  }

  lemma TagOfVersion(tag: string)
    requires ParseTag(tag).Some?
    ensures tag == "v" + Print(ParseTag(tag).value)
  {
    hide Parse, Print, Matches, IsVersion;
    PrintOfParsed(tag[1..]);
    assert tag == [tag[0]] + tag[1..];
  }

  /** A valid tag of the list below the given version. */
  predicate Older(tags: seq<string>, current: Version, tag: string) {
    tag in tags && ParseTag(tag).Some? && Below(ParseTag(tag).value, current)
  }

  /** The greatest valid tag strictly below the version, or none exactly when there is none. */
  predicate IsPrevious(tags: seq<string>, current: Version, r: Option<string>) {
    match r
    case None => forall tag :: tag in tags ==> !Older(tags, current, tag)
    case Some(best) =>
      Older(tags, current, best) &&
      forall tag :: tag in tags && Older(tags, current, tag) ==> !Below(ParseTag(best).value, ParseTag(tag).value)
  }

  datatype Selection = InvalidCurrent | Selected(tag: Option<string>)

  /** The candidates by version, as the loop has collected them from some tags. */
  predicate Collected(candidates: map<Version, string>, tags: seq<string>, current: Version) {
    (forall v :: v in candidates ==>
      Older(tags, current, candidates[v]) && ParseTag(candidates[v]) == Some(v)) &&
    forall tag :: tag in tags && Older(tags, current, tag) ==> ParseTag(tag).value in candidates
  }

  lemma CollectOne(candidates: map<Version, string>, tags: seq<string>, i: nat, current: Version)
    requires i < |tags| && Collected(candidates, tags[..i], current)
    ensures
      var version := ParseTag(tags[i]);
      Collected(if version.Some? && Below(version.value, current) then candidates[version.value := tags[i]] else candidates,
        tags[..i + 1], current)
  {
    hide ParseTag, Below;
    assert tags[..i + 1] == tags[..i] + [tags[i]];
  }

  method Greatest(versions: set<Version>) returns (best: Version)
    requires versions != {}
    ensures best in versions && forall v :: v in versions ==> !Below(best, v)
  {
    best :| best in versions;
    var rest := versions - {best};
    while rest != {}
      invariant rest <= versions && best in versions
      invariant forall v :: v in versions && v !in rest ==> !Below(best, v)
      decreases |rest|
    {
      var v :| v in rest;
      rest := rest - {v};
      if Below(best, v) {
        forall u | u in versions && u !in rest ensures !Below(v, u) { BelowIsAStrictTotalOrder(best, v, u); }
        best := v;
      }
    }
  }

  method SelectPreviousTag(tags: seq<string>, currentTag: string) returns (r: Selection)
    ensures r.InvalidCurrent? <==> ParseTag(currentTag).None?
    ensures r.Selected? ==> IsPrevious(tags, ParseTag(currentTag).value, r.tag)
  {
    var current := ParseTag(currentTag);
    if current.None? { return InvalidCurrent; }
    var candidates: map<Version, string> := map[];
    for i := 0 to |tags|
      invariant Collected(candidates, tags[..i], current.value)
    {
      var version := ParseTag(tags[i]);
      CollectOne(candidates, tags, i, current.value);
      if version.Some? && Below(version.value, current.value) {
        candidates := candidates[version.value := tags[i]];
      }
    }
    assert tags[..|tags|] == tags;
    hide ParseTag, Below;
    if candidates == map[] { return Selected(None); }
    assert candidates.Keys != {};
    var best := Greatest(candidates.Keys);
    r := Selected(Some(candidates[best]));
  }

  /** The selection depends only on which valid tags there are: not on their order, on repetitions, or on tags
      that are not versions. */
  lemma PreviousIsUnique(tags: seq<string>, others: seq<string>, current: Version, r: Option<string>, q: Option<string>)
    requires IsPrevious(tags, current, r) && IsPrevious(others, current, q)
    requires forall tag :: ParseTag(tag).Some? ==> (tag in tags <==> tag in others)
    ensures r == q
  {
    if r.Some? { assert Older(others, current, r.value); }
    if q.Some? { assert Older(tags, current, q.value); }
    if r.Some? && q.Some? {
      BelowIsAStrictTotalOrder(ParseTag(r.value).value, ParseTag(q.value).value, current);
      TagOfVersion(r.value);
      TagOfVersion(q.value);
    }
  }
}
