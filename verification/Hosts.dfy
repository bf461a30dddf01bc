/** Host routing of src/backends.rs: how a configured host is parsed and which route a Host header
    selects, against a specification by dot-separated labels. */
module Hosts {
  import opened Prelude

  // ------------------------------------------------------------------ strings

  function LowerChar(c: char): char {
    if 'A' <= c <= 'Z' then (c as int + 32) as char else c
  }

  /** to_ascii_lowercase. */
  function Lower(s: string): (r: string)
    ensures |r| == |s|
  {
    seq(|s|, i requires 0 <= i < |s| => LowerChar(s[i]))
  }

  /** The part before the first ':'. */
  function BeforeColon(s: string): (r: string)
    ensures r <= s && ':' !in r && (r == s || s[|r|] == ':')
  {
    if s == "" || s[0] == ':' then "" else [s[0]] + BeforeColon(s[1..])
  }

  predicate EndsWith(s: string, suffix: string) {
    |suffix| <= |s| && s[|s| - |suffix|..] == suffix
  }

  function Utf8Width(c: char): nat {
    if c < '\U{80}' then 1 else if c < '\U{800}' then 2 else if c < '\U{10000}' then 3 else 4
  }

  /** The length in bytes. */
  function ByteLength(s: string): nat {
    if s == "" then 0 else ByteLength(s[..|s| - 1]) + Utf8Width(s[|s| - 1])
  }

  // -------------------------------------------------------------- HostMatch::parse

  datatype HostMatch = Exact(host: string) | Wildcard(suffix: string)

  datatype HostError = EmptySuffix | SecondStar | MisplacedStar

  function Parse(host: string): Result<HostMatch, HostError> {
    if "*." <= host then
      var rest := host[2..];
      if rest == "" then Err(EmptySuffix)
      else if '*' in rest then Err(SecondStar)
      else Ok(Wildcard(Lower("." + rest)))
    else if '*' in host then Err(MisplacedStar)
    else Ok(Exact(Lower(host)))
  }

  // ---------------------------------------------------------------- find_group

  function FirstExact(kinds: seq<HostMatch>, h: string): (r: Option<nat>)
    ensures r.Some? ==> r.value < |kinds|
  {
    if kinds == [] then None
    else if kinds[0] == Exact(h) then Some(0)
    else
      var r := FirstExact(kinds[1..], h);
      if r.None? then None else Some(r.value + 1)
  }

  predicate SuffixMatch(k: HostMatch, h: string) { k.Wildcard? && EndsWith(h, k.suffix) }

  /** max_by_key over the byte lengths of the matching suffixes: the last of the longest. */
  function LongestWildcard(kinds: seq<HostMatch>, h: string): (r: Option<nat>)
    ensures r.Some? ==> r.value < |kinds|
  {
    if kinds == [] then None
    else
      var i := |kinds| - 1;
      var r := LongestWildcard(kinds[..i], h);
      if SuffixMatch(kinds[i], h)
         && (r.None? || !kinds[r.value].Wildcard? || ByteLength(kinds[i].suffix) >= ByteLength(kinds[r.value].suffix))
      then Some(i) else r
  }

  function FindGroup(kinds: seq<HostMatch>, host: string): (r: Option<nat>)
    ensures r.Some? ==> r.value < |kinds|
  {
    var h := Lower(BeforeColon(host));
    var exact := FirstExact(kinds, h);
    if exact.Some? then exact else LongestWildcard(kinds, h)
  }

  // ------------------------------------------------------ specification by labels

  /** The dot-separated labels of a host; empty labels count. */
  function Labels(s: string): (ls: seq<string>)
    ensures |ls| >= 1
  {
    if s == "" then [""]
    else
      var ls := Labels(s[1..]);
      if s[0] == '.' then [""] + ls else [[s[0]] + ls[0]] + ls[1..]
  }

  function Join(ls: seq<string>): string
    requires |ls| >= 1
  {
    if |ls| == 1 then ls[0] else ls[0] + "." + Join(ls[1..])
  }

  /** h has all of the labels after the star at its end and at least one more in front. */
  predicate LabelMatch(k: HostMatch, h: string) {
    k.Wildcard? && k.suffix != "" &&
    var ls, tail := Labels(h), Labels(k.suffix[1..]);
    |ls| > |tail| && ls[|ls| - |tail|..] == tail
  }

  function LabelCount(k: HostMatch): nat
    requires k.Wildcard? && k.suffix != ""
  {
    |Labels(k.suffix[1..])|
  }

  /** What parsing guarantees of a wildcard. */
  predicate Dotted(k: HostMatch) { k.Wildcard? ==> k.suffix != "" && k.suffix[0] == '.' }

  predicate AllDotted(kinds: seq<HostMatch>) { forall i :: 0 <= i < |kinds| ==> Dotted(kinds[i]) }

  /** k is the route for h: an exact match, or in the absence of one the wildcard that shares most
      labels. */
  ghost predicate BestMatch(kinds: seq<HostMatch>, h: string, k: HostMatch) {
    && k in kinds
    && (k == Exact(h)
        || (Exact(h) !in kinds && k.Wildcard? && LabelMatch(k, h)
            && forall j :: 0 <= j < |kinds| && LabelMatch(kinds[j], h) ==> LabelCount(kinds[j]) <= LabelCount(k)))
  }

  ghost predicate NoMatch(kinds: seq<HostMatch>, h: string) {
    Exact(h) !in kinds && forall j :: 0 <= j < |kinds| ==> !LabelMatch(kinds[j], h)
  }

  // -------------------------------------------------------------------- proofs

  lemma {:induction false} LabelsJoin(s: string)
    ensures Join(Labels(s)) == s
  {
    if s != "" {
      LabelsJoin(s[1..]);
      var ls := Labels(s[1..]);
      hide Join;
      assert s == [s[0]] + s[1..];
      if s[0] == '.' {
        assert ([""] + ls)[1..] == ls;
        JoinFirst([""] + ls);
      } else {
        JoinGrows(s[0], ls);
      }
    }
  }

  lemma JoinGrows(c: char, ls: seq<string>)
    requires |ls| >= 1
    ensures Join([[c] + ls[0]] + ls[1..]) == [c] + Join(ls)
  {
    var longer := [[c] + ls[0]] + ls[1..];
    hide Join;
    assert longer[0] == [c] + ls[0] && longer[1..] == ls[1..];
    JoinFirst(longer);
    JoinFirst(ls);
    if |ls| > 1 {
      Prepend(c, ls[0], Join(ls[1..]));
    }
  }

  lemma JoinFirst(ls: seq<string>)
    requires |ls| >= 1
    ensures Join(ls) == if |ls| == 1 then ls[0] else ls[0] + "." + Join(ls[1..])
  {
  }

  lemma Prepend(c: char, first: string, rest: string)
    ensures ([c] + first) + "." + rest == [c] + (first + "." + rest)
  {
  }

  lemma {:induction false} LabelsConcat(p: string, r: string)
    ensures Labels(p + "." + r) == Labels(p) + Labels(r)
  {
    hide Labels;
    var s := p + "." + r;
    LabelsStep(p);
    LabelsStep(s);
    if p == "" {
      assert s[1..] == r && s[0] == '.';
      assert [""] + Labels(r) == Labels(p) + Labels(r);
    } else {
      LabelsConcat(p[1..], r);
      assert s[1..] == p[1..] + "." + r && s[0] == p[0];
      StepConcat(p[0], Labels(p[1..]), Labels(r));
    }
  }

  function PutFirst(c: char, ls: seq<string>): seq<string>
    requires |ls| >= 1
  {
    if c == '.' then [""] + ls else [[c] + ls[0]] + ls[1..]
  }

  lemma LabelsStep(s: string)
    ensures Labels(s) == if s == "" then [""] else PutFirst(s[0], Labels(s[1..]))
  {
  }

  lemma StepConcat(c: char, a: seq<string>, b: seq<string>)
    requires |a| >= 1
    ensures PutFirst(c, a + b) == PutFirst(c, a) + b
  {
  }

  lemma {:induction false} JoinConcat(a: seq<string>, b: seq<string>)
    requires |a| >= 1 && |b| >= 1
    ensures Join(a + b) == Join(a) + "." + Join(b)
  {
    if |a| == 1 {
      assert (a + b)[1..] == b;
    } else {
      JoinConcat(a[1..], b);
      assert (a + b)[1..] == a[1..] + b;
      assert a[0] + "." + (Join(a[1..]) + "." + Join(b)) == (a[0] + "." + Join(a[1..])) + "." + Join(b);
    }
  }

  lemma SuffixGivesLabels(k: HostMatch, h: string)
    requires k.Wildcard? && Dotted(k) && SuffixMatch(k, h)
    ensures LabelMatch(k, h)
  {
    hide Labels;
    var p, r := h[..|h| - |k.suffix|], k.suffix[1..];
    assert k.suffix == "." + r && h == p + "." + r;
    LabelsConcat(p, r);
  }

  lemma LabelsGiveSuffix(k: HostMatch, h: string)
    requires k.Wildcard? && Dotted(k) && LabelMatch(k, h)
    ensures SuffixMatch(k, h)
  {
    hide Labels, Join;
    var r := k.suffix[1..];
    var ls, tail := Labels(h), Labels(r);
    var front := ls[..|ls| - |tail|];
    assert k.suffix == "." + r && ls == front + tail;
    JoinConcat(front, tail);
    LabelsJoin(h);
    LabelsJoin(r);
    assert h == Join(front) + k.suffix;
  }

  /** Ending in ".rest" is having the labels of rest at the end and at least one in front. */
  lemma SuffixIsLabels(k: HostMatch, h: string)
    requires k.Wildcard? && Dotted(k)
    ensures SuffixMatch(k, h) <==> LabelMatch(k, h)
  {
    hide Labels, Join;
    if SuffixMatch(k, h) {
      SuffixGivesLabels(k, h);
    }
    if LabelMatch(k, h) {
      LabelsGiveSuffix(k, h);
    }
  }

  lemma {:induction false} ByteLengthConcat(a: string, b: string)
    ensures ByteLength(a + b) == ByteLength(a) + ByteLength(b)
    ensures a != "" ==> ByteLength(a) > 0
  {
    if b == "" {
      assert a + b == a;
    } else {
      ByteLengthConcat(a, b[..|b| - 1]);
      assert (a + b)[..|a + b| - 1] == a + b[..|b| - 1];
    }
  }

  /** Of two suffixes that match the same host, the one longer in bytes is the one with more labels. */
  lemma LongerMeansMoreLabels(k: HostMatch, l: HostMatch, h: string)
    requires Dotted(k) && Dotted(l) && SuffixMatch(k, h) && SuffixMatch(l, h)
    ensures ByteLength(k.suffix) <= ByteLength(l.suffix) <==> LabelCount(k) <= LabelCount(l)
    ensures LabelCount(k) == LabelCount(l) ==> k == l
  {
    if |k.suffix| <= |l.suffix| {
      ShorterSuffix(k, l, h);
    } else {
      ShorterSuffix(l, k, h);
    }
  }

  lemma ShorterSuffix(k: HostMatch, l: HostMatch, h: string)
    requires Dotted(k) && Dotted(l) && SuffixMatch(k, h) && SuffixMatch(l, h)
    requires |k.suffix| <= |l.suffix|
    ensures k == l || (ByteLength(k.suffix) < ByteLength(l.suffix) && LabelCount(k) < LabelCount(l))
  {
    hide Labels, ByteLength;
    var p := l.suffix[..|l.suffix| - |k.suffix|];
    assert l.suffix[|l.suffix| - |k.suffix|..] == h[|h| - |k.suffix|..];
    assert l.suffix == p + k.suffix;
    if p == "" {
      assert l.suffix == k.suffix;
    } else {
      LongerSuffix(p, k.suffix);
    }
  }

  lemma SomeBytes(p: string)
    requires p != ""
    ensures ByteLength(p) > 0
  {
  }

  /** A proper extension of a suffix at a label boundary has more bytes and more labels. */
  lemma LongerSuffix(p: string, suffix: string)
    requires p != "" && p[0] == '.' && suffix != "" && suffix[0] == '.'
    ensures ByteLength(suffix) < ByteLength(p + suffix)
    ensures |Labels(suffix[1..])| < |Labels((p + suffix)[1..])|
  {
    hide Labels, ByteLength, Utf8Width;
    ByteLengthConcat(p, suffix);
    SomeBytes(p);
    assert (p + suffix)[1..] == p[1..] + "." + suffix[1..];
    LabelsConcat(p[1..], suffix[1..]);
  }

  lemma {:induction false} FirstExactFinds(kinds: seq<HostMatch>, h: string)
    ensures var r := FirstExact(kinds, h);
      if Exact(h) in kinds then
        r.Some? && kinds[r.value] == Exact(h) && Exact(h) !in kinds[..r.value]
      else r == None
  {
    if kinds != [] && kinds[0] != Exact(h) {
      FirstExactFinds(kinds[1..], h);
      var r := FirstExact(kinds[1..], h);
      assert kinds == [kinds[0]] + kinds[1..];
      if r.Some? {
        assert kinds[..r.value + 1] == [kinds[0]] + kinds[1..][..r.value];
      }
    }
  }

  lemma {:induction false} LongestWildcardFinds(kinds: seq<HostMatch>, h: string)
    requires AllDotted(kinds)
    ensures var r := LongestWildcard(kinds, h);
      if r.None? then
        forall j :: 0 <= j < |kinds| ==> !LabelMatch(kinds[j], h)
      else
        && LabelMatch(kinds[r.value], h)
        && forall j :: 0 <= j < |kinds| && LabelMatch(kinds[j], h) ==> LabelCount(kinds[j]) <= LabelCount(kinds[r.value])
  {
    if kinds != [] {
      var i := |kinds| - 1;
      LongestWildcardFinds(kinds[..i], h);
      var r := LongestWildcard(kinds[..i], h);
      assert Dotted(kinds[i]);
      if kinds[i].Wildcard? {
        SuffixIsLabels(kinds[i], h);
        if r.Some? && SuffixMatch(kinds[i], h) {
          assert Dotted(kinds[r.value]);
          SuffixIsLabels(kinds[r.value], h);
          LongerMeansMoreLabels(kinds[i], kinds[r.value], h);
          LongerMeansMoreLabels(kinds[r.value], kinds[i], h);
        }
      }
    }
  }

  /** find_group meets the specification by labels: the exact match wins, otherwise the wildcard that
      shares most labels with the host and leaves at least one over; no route only if none matches. */
  lemma FindGroupByLabels(kinds: seq<HostMatch>, host: string)
    requires AllDotted(kinds)
    ensures var h, r := Lower(BeforeColon(host)), FindGroup(kinds, host);
      if r.Some? then BestMatch(kinds, h, kinds[r.value]) else NoMatch(kinds, h)
  {
    var h := Lower(BeforeColon(host));
    FirstExactFinds(kinds, h);
    LongestWildcardFinds(kinds, h);
  }

  /** There is one best match at most. */
  lemma BestMatchUnique(kinds: seq<HostMatch>, others: seq<HostMatch>, h: string, k: HostMatch, l: HostMatch)
    requires AllDotted(kinds) && (forall m :: m in kinds <==> m in others)
    requires BestMatch(kinds, h, k) && BestMatch(others, h, l)
    ensures k == l
  {
    if k.Wildcard? && l.Wildcard? {
      var i :| 0 <= i < |kinds| && kinds[i] == k;
      var j :| 0 <= j < |kinds| && kinds[j] == l;
      assert Dotted(kinds[i]) && Dotted(kinds[j]);
      SuffixIsLabels(k, h);
      SuffixIsLabels(l, h);
      LongerMeansMoreLabels(k, l, h);
    }
  }

  lemma NoMatchCarries(kinds: seq<HostMatch>, others: seq<HostMatch>, h: string)
    requires (forall m :: m in kinds <==> m in others) && NoMatch(kinds, h)
    ensures NoMatch(others, h)
  {
    forall j | 0 <= j < |others|
      ensures !LabelMatch(others[j], h)
    {
      assert others[j] in kinds;
    }
  }

  /** The match found does not depend on the order of the routes. */
  lemma RouteOrderIrrelevant(kinds: seq<HostMatch>, others: seq<HostMatch>, host: string)
    requires AllDotted(kinds) && (forall m :: m in kinds <==> m in others)
    ensures var r, q := FindGroup(kinds, host), FindGroup(others, host);
      (r.Some? <==> q.Some?) && (r.Some? ==> kinds[r.value] == others[q.value])
  {
    var h, r, q := Lower(BeforeColon(host)), FindGroup(kinds, host), FindGroup(others, host);
    forall i | 0 <= i < |others|
      ensures Dotted(others[i])
    {
      assert others[i] in kinds;
    }
    FindGroupByLabels(kinds, host);
    FindGroupByLabels(others, host);
    if r.None? {
      NoMatchCarries(kinds, others, h);
    } else if q.None? {
      NoMatchCarries(others, kinds, h);
    } else {
      BestMatchUnique(kinds, others, h, kinds[r.value], others[q.value]);
    }
  }

  // ----------------------------------------------------------- case and port

  lemma {:induction false} LowerBeforeColon(s: string)
    ensures BeforeColon(Lower(s)) == Lower(BeforeColon(s))
  {
    BeforeColonFirst(s);
    BeforeColonFirst(Lower(s));
    ColonIsNoLetter(s);
    if s != "" && s[0] != ':' {
      LowerBeforeColon(s[1..]);
      hide BeforeColon, LowerChar;
      assert Lower(s)[1..] == Lower(s[1..]);
      LowerFirst(s[0], BeforeColon(s[1..]));
    }
  }

  lemma BeforeColonFirst(s: string)
    ensures BeforeColon(s) == if s == "" || s[0] == ':' then "" else [s[0]] + BeforeColon(s[1..])
  {
  }

  lemma ColonIsNoLetter(s: string)
    ensures s != "" ==> Lower(s)[0] == LowerChar(s[0]) && (LowerChar(s[0]) == ':' <==> s[0] == ':')
  {
  }

  lemma LowerFirst(c: char, s: string)
    ensures Lower([c] + s) == [LowerChar(c)] + Lower(s)
  {
  }

  lemma {:induction false} BeforeColonIgnoresRest(s: string, rest: string)
    ensures BeforeColon(s + ":" + rest) == BeforeColon(s)
  {
    if s == "" {
      assert (s + ":" + rest)[0] == ':';
    } else if s[0] != ':' {
      BeforeColonIgnoresRest(s[1..], rest);
      assert (s + ":" + rest)[1..] == s[1..] + ":" + rest;
    }
  }

  /** The port, and anything else after the first ':', is ignored, and so is ASCII case. */
  lemma CaseAndPortIgnored(kinds: seq<HostMatch>, host: string, other: string, rest: string)
    ensures FindGroup(kinds, host + ":" + rest) == FindGroup(kinds, host)
    ensures Lower(host) == Lower(other) ==> FindGroup(kinds, host) == FindGroup(kinds, other)
  {
    BeforeColonIgnoresRest(host, rest);
    LowerBeforeColon(host);
    LowerBeforeColon(other);
  }

  lemma LowerOfConcat(s: string)
    requires "*." <= s
    ensures Lower(s) == "*." + Lower(s[2..]) && Lower("." + s[2..]) == "." + Lower(s[2..])
  {
    assert s == "*." + s[2..];
  }

  lemma StarInLower(s: string)
    ensures '*' in Lower(s) <==> '*' in s
  {
    forall i | 0 <= i < |s|
      ensures s[i] == '*' <==> Lower(s)[i] == '*'
    {
    }
    if '*' in s {
      var i :| 0 <= i < |s| && s[i] == '*';
      assert Lower(s)[i] == '*';
    }
  }

  /** A parsed wildcard starts at a label boundary, and two hosts parse to the same match exactly when
      both are valid and they are equal up to ASCII case. */
  lemma ParseUpToCase(a: string, b: string)
    requires Parse(a).Ok?
    ensures Dotted(Parse(a).value)
    ensures Parse(a) == Parse(b) <==> Lower(a) == Lower(b)
  {
    assert "*." <= a <==> "*." <= Lower(a);
    assert "*." <= b <==> "*." <= Lower(b);
    StarInLower(a);
    StarInLower(b);
    if "*." <= a {
      LowerOfConcat(a);
      StarInLower(a[2..]);
    }
    if "*." <= b {
      LowerOfConcat(b);
      StarInLower(b[2..]);
    }
    if "*." <= a && "*." <= b {
      assert Lower(a)[2..] == Lower(a[2..]) && Lower(b)[2..] == Lower(b[2..]);
      assert ("." + Lower(a[2..]))[1..] == Lower(a[2..]) && ("." + Lower(b[2..]))[1..] == Lower(b[2..]);
    }
  }

  // --------------------------------------------- routing by the configured hosts

  /** The same character, or a letter of the alphabet in upper and in lower case. */
  predicate SameLetter(a: char, b: char) {
    a == b || ('A' <= a <= 'Z' && 'a' <= b <= 'z' && a as int - 'A' as int == b as int - 'a' as int)
    || ('a' <= a <= 'z' && 'A' <= b <= 'Z' && a as int - 'a' as int == b as int - 'A' as int)
  }

  predicate SameText(s: string, t: string) { |s| == |t| && forall i :: 0 <= i < |s| ==> SameLetter(s[i], t[i]) }

  predicate Starred(host: string) { "*." <= host }

  /** A configured host serves a name: it is the name, or it is "*.tail" and the name ends in ".tail". */
  predicate Serves(host: string, name: string) {
    if Starred(host) then |name| >= |host| - 1 && SameText(name[|name| - (|host| - 1)..], host[1..]) else SameText(host, name)
  }

  lemma SameLetterIsLower(a: char, b: char)
    ensures SameLetter(a, b) <==> LowerChar(a) == LowerChar(b)
  {
  }

  lemma SameTextIsLower(s: string, t: string)
    ensures SameText(s, t) <==> Lower(s) == Lower(t)
  {
    hide SameLetter, LowerChar;
    forall a: char, b: char
      ensures SameLetter(a, b) <==> LowerChar(a) == LowerChar(b)
    {
      SameLetterIsLower(a, b);
    }
    if Lower(s) == Lower(t) {
      forall i | 0 <= i < |s|
        ensures LowerChar(s[i]) == LowerChar(t[i])
      {
        assert Lower(s)[i] == Lower(t)[i];
      }
    }
  }

  lemma LowerTail(s: string, n: nat)
    requires n <= |s|
    ensures Lower(s)[|s| - n..] == Lower(s[|s| - n..])
  {
  }

  /** What a parsed host matches. */
  lemma ParsedServes(host: string, kind: HostMatch, name: string)
    requires Parse(host) == Ok(kind)
    ensures Dotted(kind) && (kind.Wildcard? <==> Starred(host)) && (kind.Wildcard? ==> |kind.suffix| == |host| - 1)
    ensures kind == Exact(Lower(name)) <==> !Starred(host) && Serves(host, name)
    ensures SuffixMatch(kind, Lower(name)) <==> Starred(host) && Serves(host, name)
  {
    if Starred(host) {
      assert "." + host[2..] == host[1..];
      if |name| >= |host| - 1 {
        LowerTail(name, |host| - 1);
        SameTextIsLower(name[|name| - (|host| - 1)..], host[1..]);
      }
    } else {
      SameTextIsLower(host, name);
    }
    hide SameText, LowerChar;
  }

  /** Rejected are stars anywhere but in a leading "*.", and "*." alone. */
  lemma ParseRejectsExactly(host: string)
    ensures Parse(host).Err?
      <==> host == "*." || exists i :: 0 <= i < |host| && host[i] == '*' && !(i == 0 && Starred(host))
  {
    if Starred(host) {
      assert host[2..] == "" <==> host == "*.";
      forall i | 2 <= i < |host|
        ensures host[i] == host[2..][i - 2]
      {
      }
      if '*' in host[2..] {
        var j :| 0 <= j < |host[2..]| && host[2..][j] == '*';
        assert host[j + 2] == '*';
      }
    }
  }

  /** And with which error. */
  lemma ParseErrors(host: string)
    ensures Parse(host) == Err(EmptySuffix) <==> host == "*."
    ensures Parse(host) == Err(SecondStar) <==> Starred(host) && '*' in host[2..]
    ensures Parse(host) == Err(MisplacedStar) <==> !Starred(host) && '*' in host
  {
    if Starred(host) {
      assert host[2..] == "" <==> host == "*.";
    }
  }

  lemma NoColon(name: string, rest: string)
    requires ':' !in name
    ensures BeforeColon(name) == name && BeforeColon(name + ":" + rest) == name
  {
    var whole := name + ":" + rest;
    var r := BeforeColon(whole);
    assert whole[|name|] == ':';
    assert forall k :: 0 <= k < |name| ==> whole[k] == name[k] && name[k] in name;
    assert forall k :: 0 <= k < |r| ==> whole[k] == r[k] && r[k] in r;
    assert |r| == |name| && whole[..|name|] == name;
    hide BeforeColon;
  }

  /** Of two suffixes that match, the one with more labels has more characters. */
  lemma MoreLabelsIsLonger(k: HostMatch, l: HostMatch, h: string)
    requires k.Wildcard? && l.Wildcard? && Dotted(k) && Dotted(l) && SuffixMatch(k, h) && SuffixMatch(l, h)
    requires LabelCount(k) <= LabelCount(l)
    ensures |k.suffix| <= |l.suffix|
  {
    hide Labels, ByteLength;
    if |l.suffix| < |k.suffix| {
      ShorterSuffix(l, k, h);
    }
  }

  ghost predicate AllParsed(hosts: seq<string>, kinds: seq<HostMatch>) {
    |hosts| == |kinds| && forall i :: 0 <= i < |hosts| ==> Parse(hosts[i]) == Ok(kinds[i])
  }

  /** Nothing that serves the name comes before the route: not a plain host before a star, nor a longer star. */
  ghost predicate Preferred(hosts: seq<string>, name: string, r: nat)
    requires r < |hosts|
  {
    Serves(hosts[r], name)
    && (Starred(hosts[r]) ==>
          forall i :: 0 <= i < |hosts| && Serves(hosts[i], name) ==> Starred(hosts[i]) && |hosts[i]| <= |hosts[r]|)
  }

  /** A Host header with or without a port finds a route exactly when the configured host of some route serves the
      name before the port, and then the preferred one. */
  lemma RoutesByHost(hosts: seq<string>, kinds: seq<HostMatch>, name: string, rest: string)
    requires AllParsed(hosts, kinds) && ':' !in name
    ensures FindGroup(kinds, name + ":" + rest) == FindGroup(kinds, name)
    ensures FindGroup(kinds, name).Some? <==> exists i :: 0 <= i < |hosts| && Serves(hosts[i], name)
    ensures FindGroup(kinds, name).Some? ==> Preferred(hosts, name, FindGroup(kinds, name).value)
  {
    var h := Lower(name);
    NoColon(name, rest);
    forall i | 0 <= i < |hosts|
      ensures Dotted(kinds[i]) && (kinds[i].Wildcard? <==> Starred(hosts[i]))
      ensures kinds[i].Wildcard? ==> |kinds[i].suffix| == |hosts[i]| - 1
      ensures kinds[i] == Exact(h) <==> !Starred(hosts[i]) && Serves(hosts[i], name)
      ensures SuffixMatch(kinds[i], h) <==> Starred(hosts[i]) && Serves(hosts[i], name)
    {
      ParsedServes(hosts[i], kinds[i], name);
    }
    FirstExactFinds(kinds, h);
    WildcardFinds(kinds, h);
    hide Serves, Starred, SuffixMatch, Parse, FirstExact, LongestWildcard;
  }

  lemma WildcardFinds(kinds: seq<HostMatch>, h: string)
    requires AllDotted(kinds)
    ensures var r := LongestWildcard(kinds, h);
      if r.None? then forall j :: 0 <= j < |kinds| ==> !SuffixMatch(kinds[j], h)
      else SuffixMatch(kinds[r.value], h)
           && forall j :: 0 <= j < |kinds| && SuffixMatch(kinds[j], h) ==> |kinds[j].suffix| <= |kinds[r.value].suffix|
  {
    hide LongestWildcard, LabelMatch, LabelCount, SuffixMatch;
    LongestWildcardFinds(kinds, h);
    var r := LongestWildcard(kinds, h);
    forall j | 0 <= j < |kinds|
      ensures Dotted(kinds[j]) && (SuffixMatch(kinds[j], h) ==> kinds[j].Wildcard?)
      ensures SuffixMatch(kinds[j], h) <==> LabelMatch(kinds[j], h)
    {
      WildcardsMatch(kinds[j], h);
    }
    if r.Some? {
      forall j | 0 <= j < |kinds| && SuffixMatch(kinds[j], h)
        ensures |kinds[j].suffix| <= |kinds[r.value].suffix|
      {
        MoreLabelsIsLonger(kinds[j], kinds[r.value], h);
      }
    }
  }

  lemma WildcardsMatch(k: HostMatch, h: string)
    requires Dotted(k)
    ensures SuffixMatch(k, h) || LabelMatch(k, h) ==> k.Wildcard?
    ensures SuffixMatch(k, h) <==> LabelMatch(k, h)
  {
    hide Labels;
    if k.Wildcard? {
      SuffixIsLabels(k, h);
    }
  }
}
