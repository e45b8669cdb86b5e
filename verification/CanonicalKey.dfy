/**
  The canonical form of a parsed URL from which cache keys are derived (sections 6.2.2.1 and
  6.2.3 of RFC 3986).
 */
module CanonicalKey {
  import opened Ordering
  import opened Sequences

  /** `sort.Strings`. */
  function SortStrings(xs: seq<string>): seq<string> {
    Sort(LessEq, xs)
  }

  lemma {:induction false} SortStringsFacts(xs: seq<string>)
    ensures multiset(SortStrings(xs)) == multiset(xs)
  {
    LessEqIsTotal();
    SortSorts(LessEq, xs);
  }

  /** Sorting forgets everything but the multiset. */
  lemma {:induction false} SortForgetsOrder(xs: seq<string>, ys: seq<string>)
    requires multiset(xs) == multiset(ys)
    ensures SortStrings(xs) == SortStrings(ys)
  {
    hide TotalOrder, Sorted, Sort;
    LessEqIsTotal();
    SortSorts(LessEq, xs);
    SortSorts(LessEq, ys);
    SortedUnique(LessEq, SortStrings(xs), SortStrings(ys));
  }

  // ---------------------------------------------------------------- queries

  type Pair = (string, string)

  /** The values of a key in order of appearance. */
  function Values(pairs: seq<Pair>, key: string): seq<string> {
    if pairs == [] then []
    else Values(pairs[..|pairs| - 1], key) + (if pairs[|pairs| - 1].0 == key then [pairs[|pairs| - 1].1] else [])
  }

  function QueryKeys(pairs: seq<Pair>): set<string> {
    set pair <- pairs :: pair.0
  }

  /** The query as `url.Values`, every value list sorted. */
  function SortedQuery(pairs: seq<Pair>): map<string, seq<string>> {
    map key | key in QueryKeys(pairs) :: SortStrings(Values(pairs, key))
  }

  /** The keys in the order of `Values.Encode`. */
  ghost function SortedKeys(keys: set<string>): seq<string> {
    SortStrings(Listed(keys))
  }

  function PairsOf(key: string, values: seq<string>): seq<Pair> {
    seq(|values|, i requires 0 <= i < |values| => (key, values[i]))
  }

  /** The pairs that are encoded for a list of keys. */
  function Flatten(query: map<string, seq<string>>, keys: seq<string>): seq<Pair> {
    if keys == [] then []
    else
      var last := keys[|keys| - 1];
      Flatten(query, keys[..|keys| - 1]) + (if last in query then PairsOf(last, query[last]) else [])
  }

  /** The canonical query. */
  ghost function CanonicalQuery(pairs: seq<Pair>): seq<Pair> {
    Flatten(SortedQuery(pairs), SortedKeys(QueryKeys(pairs)))
  }

  // ---------------------------------------------------------------- conservation of pairs

  lemma {:induction false} ValuesCount(pairs: seq<Pair>, key: string, value: string)
    ensures multiset(Values(pairs, key))[value] == multiset(pairs)[(key, value)]
  {
    if pairs != [] {
      var init, last := pairs[..|pairs| - 1], pairs[|pairs| - 1];
      ValuesCount(init, key, value);
      assert pairs == init + [last];
    }
  }

  lemma {:induction false} PairsCount(key: string, values: seq<string>, k: string, v: string)
    ensures multiset(PairsOf(key, values))[(k, v)] == if k == key then multiset(values)[v] else 0
  {
    if values != [] {
      var last := |values| - 1;
      PairsCount(key, values[..last], k, v);
      assert values == values[..last] + [values[last]];
      assert PairsOf(key, values) == PairsOf(key, values[..last]) + [(key, values[last])];
    }
  }

  lemma {:induction false} FlattenLast(query: map<string, seq<string>>, keys: seq<string>, k: string, v: string)
    requires keys != []
    ensures var init, last := keys[..|keys| - 1], keys[|keys| - 1];
            && multiset(keys)[k] == multiset(init)[k] + (if k == last then 1 else 0)
            && multiset(Flatten(query, keys))[(k, v)] ==
               multiset(Flatten(query, init))[(k, v)] + (if k in query && k == last then multiset(query[k])[v] else 0)
  {
    var init, last := keys[..|keys| - 1], keys[|keys| - 1];
    assert keys == init + [last];
    if last in query {
      PairsCount(last, query[last], k, v);
    }
  }

  lemma {:induction false} FlattenCount(query: map<string, seq<string>>, keys: seq<string>, k: string, v: string)
    requires multiset(keys)[k] <= 1
    ensures multiset(Flatten(query, keys))[(k, v)] ==
            if k in query && multiset(keys)[k] == 1 then multiset(query[k])[v] else 0
  {
    hide PairsOf;
    if keys != [] {
      FlattenLast(query, keys, k, v);
      FlattenCount(query, keys[..|keys| - 1], k, v);
    }
  }

  /** Canonicalisation loses no pair, adds none and keeps multiplicities. */
  lemma {:induction false} CanonicalQueryKeepsPairs(pairs: seq<Pair>)
    ensures multiset(CanonicalQuery(pairs)) == multiset(pairs)
  {
    var query, keys := SortedQuery(pairs), SortedKeys(QueryKeys(pairs));
    forall pair: Pair ensures multiset(CanonicalQuery(pairs))[pair] == multiset(pairs)[pair] {
      var (k, v) := pair;
      SortStringsFacts(Listed(QueryKeys(pairs)));
      ListedFacts(QueryKeys(pairs));
      FlattenCount(query, keys, k, v);
      SortStringsFacts(Values(pairs, k));
      ValuesCount(pairs, k, v);
      if k !in query {
        assert pair !in pairs;
      }
    }
  }

  /** The canonical query depends on the multiset of pairs alone. */
  lemma {:induction false} CanonicalQueryOfMultiset(p: seq<Pair>, q: seq<Pair>)
    requires multiset(p) == multiset(q)
    ensures CanonicalQuery(p) == CanonicalQuery(q)
  {
    forall pair ensures pair in p <==> pair in q {
      assert pair in multiset(p) <==> pair in multiset(q);
    }
    assert QueryKeys(p) == QueryKeys(q);
    forall key | key in QueryKeys(p)
      ensures SortStrings(Values(p, key)) == SortStrings(Values(q, key))
    {
      forall v ensures multiset(Values(p, key))[v] == multiset(Values(q, key))[v] {
        ValuesCount(p, key, v);
        ValuesCount(q, key, v);
      }
      SortForgetsOrder(Values(p, key), Values(q, key));
    }
    assert SortedQuery(p) == SortedQuery(q);
  }

  lemma {:induction false} CanonicalQueryIff(p: seq<Pair>, q: seq<Pair>)
    ensures CanonicalQuery(p) == CanonicalQuery(q) <==> multiset(p) == multiset(q)
    ensures CanonicalQuery(CanonicalQuery(p)) == CanonicalQuery(p)
  {
    CanonicalQueryKeepsPairs(p);
    CanonicalQueryKeepsPairs(q);
    if multiset(p) == multiset(q) {
      CanonicalQueryOfMultiset(p, q);
    }
    CanonicalQueryOfMultiset(CanonicalQuery(p), p);
  }

  /** The pairs come in the order of their keys, and those of one key in the order of their values. */
  ghost predicate PairsInOrder(pairs: seq<Pair>) {
    forall i, j :: 0 <= i < j < |pairs| ==>
      Less(pairs[i].0, pairs[j].0) || (pairs[i].0 == pairs[j].0 && LessEq(pairs[i].1, pairs[j].1))
  }

  /** Every key of the first pairs is in the list of keys. */
  lemma {:induction false} FlattenKeys(query: map<string, seq<string>>, keys: seq<string>)
    ensures forall pair <- Flatten(query, keys) :: pair.0 in keys
  {
    if keys != [] {
      FlattenKeys(query, keys[..|keys| - 1]);
    }
  }

  lemma {:induction false} FlattenInOrder(query: map<string, seq<string>>, keys: seq<string>)
    requires forall i, j :: 0 <= i < j < |keys| ==> Less(keys[i], keys[j])
    requires forall key <- query :: Sorted(LessEq, query[key])
    ensures PairsInOrder(Flatten(query, keys))
  {
    hide Less;
    if keys != [] {
      var init, last := keys[..|keys| - 1], keys[|keys| - 1];
      FlattenInOrder(query, init);
      FlattenKeys(query, init);
      var front := Flatten(query, init);
      forall i | 0 <= i < |front| ensures Less(front[i].0, last) {
        assert front[i] in front;
      }
    }
  }

  lemma {:induction false} CanonicalQueryIsSorted(pairs: seq<Pair>)
    ensures PairsInOrder(CanonicalQuery(pairs))
  {
    hide Less, PairsInOrder, Values, Flatten;
    var keys := SortedKeys(QueryKeys(pairs));
    LessEqIsTotal();
    SortSorts(LessEq, Listed(QueryKeys(pairs)));
    ListedFacts(QueryKeys(pairs));
    OnceEach(keys, QueryKeys(pairs));
    forall key | key in QueryKeys(pairs) ensures Sorted(LessEq, SortStrings(Values(pairs, key))) {
      SortSorts(LessEq, Values(pairs, key));
    }
    FlattenInOrder(SortedQuery(pairs), keys);
  }

  // ---------------------------------------------------------------- encoding

  /** What is needed of percent escaping. */
  ghost predicate GoodEscape(escape: string -> string) {
    && (forall a, b :: escape(a) == escape(b) ==> a == b)
    && (forall a :: '&' !in escape(a) && '=' !in escape(a))
  }

  function EncodePair(escape: string -> string, pair: Pair): string {
    escape(pair.0) + "=" + escape(pair.1)
  }

  /** The encoded query with a separator before every pair but the first. */
  function Encode(escape: string -> string, pairs: seq<Pair>): string {
    if pairs == [] then ""
    else EncodePair(escape, pairs[0]) + (if |pairs| == 1 then "" else "&" + Encode(escape, pairs[1..]))
  }

  lemma {:induction false} FirstCharacter(a: string, r: string, separator: char)
    requires separator !in a && (r == "" || r[0] == separator)
    ensures a == "" <==> a + r == "" || (a + r)[0] == separator
  {
    if a == "" {
      assert a + r == r;
    } else {
      assert (a + r)[0] == a[0];
    }
  }

  /** Two strings cut at the first separator have equal parts. */
  lemma {:induction false} CutUnique(a: string, b: string, r: string, s: string, separator: char)
    requires separator !in a && separator !in b
    requires (r == "" || r[0] == separator) && (s == "" || s[0] == separator)
    requires a + r == b + s
    ensures a == b && r == s
  {
    FirstCharacter(a, r, separator);
    FirstCharacter(b, s, separator);
    if a == "" {
      assert a + r == r && b + s == s;
    } else {
      assert a[0] == (a + r)[0] == (b + s)[0] == b[0];
      assert (a + r)[1..] == a[1..] + r && (b + s)[1..] == b[1..] + s;
      CutUnique(a[1..], b[1..], r, s, separator);
      assert a == [a[0]] + a[1..] && b == [b[0]] + b[1..];
    }
  }

  lemma {:induction false} EncodePairInjective(escape: string -> string, p: Pair, q: Pair)
    requires GoodEscape(escape)
    requires EncodePair(escape, p) == EncodePair(escape, q)
    ensures p == q
  {
    assert EncodePair(escape, p) == escape(p.0) + ("=" + escape(p.1));
    assert EncodePair(escape, q) == escape(q.0) + ("=" + escape(q.1));
    CutUnique(escape(p.0), escape(q.0), "=" + escape(p.1), "=" + escape(q.1), '=');
    assert escape(p.1) == ("=" + escape(p.1))[1..] && escape(q.1) == ("=" + escape(q.1))[1..];
  }

  /** Different canonical queries have different encodings. */
  lemma {:induction false} EncodeInjective(escape: string -> string, p: seq<Pair>, q: seq<Pair>)
    requires GoodEscape(escape)
    requires Encode(escape, p) == Encode(escape, q)
    ensures p == q
  {
    EncodeEmpty(escape, p);
    EncodeEmpty(escape, q);
    if p != [] {
      var r := if |p| == 1 then "" else "&" + Encode(escape, p[1..]);
      var s := if |q| == 1 then "" else "&" + Encode(escape, q[1..]);
      assert '&' !in EncodePair(escape, p[0]) && '&' !in EncodePair(escape, q[0]);
      CutUnique(EncodePair(escape, p[0]), EncodePair(escape, q[0]), r, s, '&');
      EncodePairInjective(escape, p[0], q[0]);
      if |p| > 1 {
        assert r[1..] == Encode(escape, p[1..]) && s[1..] == Encode(escape, q[1..]);
        EncodeInjective(escape, p[1..], q[1..]);
      }
      assert p == [p[0]] + p[1..] && q == [q[0]] + q[1..];
    }
  }

  lemma {:induction false} EncodeEmpty(escape: string -> string, p: seq<Pair>)
    ensures Encode(escape, p) == "" <==> p == []
  {
    if p != [] {
      assert '=' in EncodePair(escape, p[0]);
    }
  }

  /** Encoded canonical queries are equal exactly when the pairs are, order aside. */
  lemma {:induction false} EncodedQueryIff(escape: string -> string, p: seq<Pair>, q: seq<Pair>)
    requires GoodEscape(escape)
    ensures Encode(escape, CanonicalQuery(p)) == Encode(escape, CanonicalQuery(q)) <==> multiset(p) == multiset(q)
  {
    hide CanonicalQuery, Encode;
    CanonicalQueryIff(p, q);
    if Encode(escape, CanonicalQuery(p)) == Encode(escape, CanonicalQuery(q)) {
      EncodeInjective(escape, CanonicalQuery(p), CanonicalQuery(q));
    }
  }

  // ---------------------------------------------------------------- hosts

  /** ASCII lower case. */
  function LowerChar(c: char): char {
    if 'A' <= c <= 'Z' then (c as int + 32) as char else c
  }

  function Lower(s: string): string {
    seq(|s|, i requires 0 <= i < |s| => LowerChar(s[i]))
  }

  function FormatHost(host: string): string {
    if ':' in host then "[" + host + "]" else host
  }

  /** `net.JoinHostPort`. */
  function JoinHostPort(host: string, port: string): string {
    FormatHost(host) + ":" + port
  }

  predicate IsDefaultPort(scheme: string, port: string) {
    (scheme == "https" && port == "443") || (scheme == "http" && port == "80")
  }

  function NormalizeHost(scheme: string, hostname: string, port: string): string {
    var host := Lower(hostname);
    if port == "" then FormatHost(host)
    else if IsDefaultPort(scheme, port) then FormatHost(host)
    else JoinHostPort(host, port)
  }

  /** The port that matters: the default one is the same as none. */
  function EffectivePort(scheme: string, port: string): string {
    if IsDefaultPort(scheme, port) then "" else port
  }

  predicate Digits(s: string) {
    forall c <- s :: '0' <= c <= '9'
  }

  /** The position of the last colon, or the length of the string. */
  function LastColon(s: string): (i: nat)
    ensures i <= |s| && (i < |s| ==> s[i] == ':')
    ensures forall j :: i < j < |s| ==> s[j] != ':'
    ensures i == |s| ==> ':' !in s
  {
    if s == "" then 0
    else if s[|s| - 1] == ':' then |s| - 1
    else
      var i := LastColon(s[..|s| - 1]);
      if i == |s| - 1 then |s| else i
  }

  predicate Bracketed(s: string) {
    |s| >= 2 && s[0] == '[' && s[|s| - 1] == ']'
  }

  function StripBrackets(s: string): string {
    if Bracketed(s) then s[1..|s| - 1] else s
  }

  /** The host component cut at its port, brackets kept. */
  function CutPort(hostPort: string): (string, string) {
    var i := LastColon(hostPort);
    if i < |hostPort| && Digits(hostPort[i + 1..]) then (hostPort[..i], hostPort[i + 1..]) else (hostPort, "")
  }

  /** `URL.Hostname` and `URL.Port` of a host component. */
  function SplitHost(hostPort: string): (string, string) {
    (StripBrackets(CutPort(hostPort).0), CutPort(hostPort).1)
  }

  lemma {:induction false} LowerFacts(s: string)
    ensures |Lower(s)| == |s| && Lower(Lower(s)) == Lower(s)
    ensures ':' in Lower(s) <==> ':' in s
    ensures Bracketed(Lower(s)) <==> Bracketed(s)
  {
    if ':' in s {
      var i :| 0 <= i < |s| && s[i] == ':';
      assert Lower(s)[i] == ':';
    }
    if ':' in Lower(s) {
      var i :| 0 <= i < |s| && Lower(s)[i] == ':';
      assert s[i] == ':';
    }
  }

  lemma {:induction false} LastColonAt(front: string, back: string)
    requires ':' !in back
    ensures LastColon(front + ":" + back) == |front|
  {
    hide LastColon;
    var s := front + ":" + back;
    assert s[|front|] == ':';
    assert s[|front| + 1..] == back;
    assert forall j :: |front| < j < |s| ==> s[j] == back[j - |front| - 1];
  }

  /** A canonical host component is cut where it was joined. */
  lemma {:induction false} CutFormatted(host: string, port: string)
    requires Digits(port)
    ensures CutPort(FormatHost(host)) == (FormatHost(host), "")
    ensures CutPort(JoinHostPort(host, port)) == (FormatHost(host), port)
  {
    hide LastColon;
    var formatted := FormatHost(host);
    var i := LastColon(formatted);
    if ':' in host {
      assert formatted[1..|formatted| - 1] == host;
      assert formatted[|formatted| - 1] == ']';
      if i < |formatted| {
        assert formatted[i + 1..][|formatted| - i - 2] == ']';
        assert ']' in formatted[i + 1..];
        assert !Digits(formatted[i + 1..]);
      }
    }
    LastColonAt(formatted, port);
    var joined := JoinHostPort(host, port);
    assert joined == formatted + ":" + port;
    assert joined[..|formatted|] == formatted && joined[|formatted| + 1..] == port;
  }

  lemma {:induction false} StripFormatted(host: string)
    ensures StripBrackets(FormatHost(host)) == host <==> (Bracketed(host) ==> ':' in host)
  {
    if ':' in host {
      assert Bracketed("[" + host + "]") && ("[" + host + "]")[1..|host| + 1] == host;
    }
  }

  lemma {:induction false} FormatInjective(g: string, h: string)
    requires FormatHost(g) == FormatHost(h)
    ensures g == h
  {
    assert ':' in "[" + g + "]" <==> ':' in g by {
      assert forall i :: 0 <= i < |g| ==> ("[" + g + "]")[i + 1] == g[i];
    }
    assert ':' in "[" + h + "]" <==> ':' in h by {
      assert forall i :: 0 <= i < |h| ==> ("[" + h + "]")[i + 1] == h[i];
    }
    assert ("[" + g + "]")[1..|g| + 1] == g && ("[" + h + "]")[1..|h| + 1] == h;
  }

  /** A canonical host is the formatted lower-case hostname and the effective port. */
  lemma {:induction false} CutNormalized(scheme: string, hostname: string, port: string)
    requires Digits(port)
    ensures CutPort(NormalizeHost(scheme, hostname, port)) == (FormatHost(Lower(hostname)), EffectivePort(scheme, port))
  {
    hide CutPort, Lower, FormatHost, Digits;
    CutFormatted(Lower(hostname), port);
  }

  /** The strings are equal but for the case of ASCII letters. */
  predicate SameUpToCase(a: string, b: string) {
    |a| == |b| && forall i :: 0 <= i < |a| ==>
      || a[i] == b[i]
      || ('A' <= a[i] <= 'Z' && b[i] as int == a[i] as int + 32)
      || ('A' <= b[i] <= 'Z' && a[i] as int == b[i] as int + 32)
  }

  lemma {:induction false} LowerIff(a: string, b: string)
    ensures Lower(a) == Lower(b) <==> SameUpToCase(a, b)
    ensures forall i :: 0 <= i < |Lower(a)| ==> !('A' <= Lower(a)[i] <= 'Z')
  {
    if Lower(a) == Lower(b) {
      assert |a| == |Lower(a)| && |b| == |Lower(b)|;
      forall i | 0 <= i < |a| ensures LowerChar(a[i]) == LowerChar(b[i]) {
        assert Lower(a)[i] == Lower(b)[i];
      }
    }
  }

  /** The ports are equal, or each of them is missing or the default one of the scheme. */
  predicate PortsAgree(scheme: string, p: string, q: string) {
    || p == q
    || (scheme == "https" && (p == "" || p == "443") && (q == "" || q == "443"))
    || (scheme == "http" && (p == "" || p == "80") && (q == "" || q == "80"))
  }

  lemma {:induction false} NormalizeHostParts(scheme: string, h1: string, p1: string, h2: string, p2: string)
    requires Digits(p1) && Digits(p2)
    ensures NormalizeHost(scheme, h1, p1) == NormalizeHost(scheme, h2, p2) <==>
            Lower(h1) == Lower(h2) && EffectivePort(scheme, p1) == EffectivePort(scheme, p2)
  {
    hide CutPort, Lower, FormatHost, Digits;
    CutNormalized(scheme, h1, p1);
    CutNormalized(scheme, h2, p2);
    if FormatHost(Lower(h1)) == FormatHost(Lower(h2)) {
      FormatInjective(Lower(h1), Lower(h2));
    }
  }

  /** Canonical hosts agree exactly when hostnames agree up to case and the ports agree but for a default one. */
  lemma {:induction false} NormalizeHostIff(scheme: string, h1: string, p1: string, h2: string, p2: string)
    requires Digits(p1) && Digits(p2)
    ensures NormalizeHost(scheme, h1, p1) == NormalizeHost(scheme, h2, p2) <==>
            SameUpToCase(h1, h2) && PortsAgree(scheme, p1, p2)
  {
    hide CutPort, Lower, NormalizeHost, Digits, SameUpToCase;
    LowerIff(h1, h2);
    NormalizeHostParts(scheme, h1, p1, h2, p2);
  }

  /** Exactly 443 is dropped for https and 80 for http. */
  lemma {:induction false} DefaultPortsAreDropped(scheme: string, host: string, port: string)
    requires Digits(port)
    ensures NormalizeHost(scheme, host, port) == NormalizeHost(scheme, host, "") <==>
            port == "" || (scheme == "https" && port == "443") || (scheme == "http" && port == "80")
  {
    hide NormalizeHost, Digits, SameUpToCase;
    NoDigits();
    SameAsItself(host);
    NormalizeHostIff(scheme, host, port, host, "");
  }

  lemma NoDigits()
    ensures Digits("")
  {
  }

  lemma SameAsItself(s: string)
    ensures SameUpToCase(s, s)
  {
  }

  // ---------------------------------------------------------------- URLs

  /** A parsed URL: its host component as written, its query as a list of pairs, its fragment and
      the fields that canonicalisation leaves alone. */
  datatype ParsedURL<Rest> = ParsedURL(
    scheme: string, host: string, path: string, query: seq<Pair>, fragment: string, rest: Rest)

  ghost function Normalize<Rest>(u: ParsedURL<Rest>): ParsedURL<Rest> {
    var scheme := Lower(u.scheme);
    var (hostname, port) := SplitHost(u.host);
    ParsedURL(scheme, NormalizeHost(scheme, hostname, port), if u.path == "" then "/" else u.path,
              CanonicalQuery(u.query), "", u.rest)
  }

  /** A canonical form is its own canonical form, unless the hostname without its brackets is still
      in brackets and holds no colon: then every pass strips one more pair. */
  lemma {:induction false} NormalizeIdempotentIff<Rest>(u: ParsedURL<Rest>)
    ensures Normalize(Normalize(u)) == Normalize(u) <==>
            var hostname := SplitHost(u.host).0; (Bracketed(hostname) ==> ':' in hostname)
  {
    hide CutPort, Lower, Bracketed, StripBrackets, FormatHost, Digits, CanonicalQuery, NormalizeHost;
    var scheme := Lower(u.scheme);
    var (hostname, port) := SplitHost(u.host);
    LowerFacts(u.scheme);
    LowerFacts(hostname);
    PortIsDigits(u.host);
    CutNormalized(scheme, hostname, port);
    var again := SplitHost(NormalizeHost(scheme, hostname, port));
    assert again == (StripBrackets(FormatHost(Lower(hostname))), EffectivePort(scheme, port));
    StripFormatted(Lower(hostname));
    LowerStripped(FormatHost(Lower(hostname)));
    LowerFormatted(Lower(hostname));
    PortIsDigits(NormalizeHost(scheme, hostname, port));
    NormalizeHostParts(scheme, hostname, port, again.0, again.1);
    CanonicalQueryIff(u.query, u.query);
  }

  /** A host in two pairs of brackets keeps neither. */
  lemma BracketsAreStripped()
    ensures var u := ParsedURL("https", "[[a]]", "/", [], "", ());
            Normalize(u).host == "[a]" && Normalize(Normalize(u)).host == "a"
  {
    hide CutPort, CanonicalQuery;
    NoPort("[[a]]");
    NoPort("[a]");
    assert "[[a]]"[1..4] == "[a]" && "[a]"[1..2] == "a";
    assert Lower("[a]") == "[a]" && Lower("a") == "a";
    assert SplitHost("[[a]]") == ("[a]", "") && SplitHost("[a]") == ("a", "");
  }

  /** A host as `url.Parse` delivers it, in brackets only for an IPv6 address, is canonicalised once and for
      all. */
  lemma {:induction false} BracketedAddressesAreIdempotent<Rest>(u: ParsedURL<Rest>)
    requires Bracketed(CutPort(u.host).0) ==> ':' in CutPort(u.host).0
    ensures Normalize(Normalize(u)) == Normalize(u)
  {
    hide CutPort, Normalize;
    NormalizeIdempotentIff(u);
    var host := CutPort(u.host).0;
    if Bracketed(host) {
      var i :| 0 <= i < |host| && host[i] == ':';
      assert host[1..|host| - 1][i - 1] == ':';
    }
  }

  lemma NoPort(host: string)
    requires ':' !in host
    ensures CutPort(host) == (host, "")
  {
  }

  /** An upper-case URL with the default port and one without either. */
  lemma GitHubUrl()
    ensures var u := ParsedURL("HTTPS", "API.GITHUB.COM:443", "", [], "top", ());
            Normalize(u) == ParsedURL("https", "api.github.com", "/", [], "", ())
  {
    hide CutPort, Lower, FormatHost, Bracketed;
    CutHere("API.GITHUB.COM", "443");
    assert "API.GITHUB.COM" + ":" + "443" == "API.GITHUB.COM:443";
    LowerNames();
    NotBracketed("API.GITHUB.COM");
    assert FormatHost("api.github.com") == "api.github.com" by { NoColon("api.github.com"); }
    assert CanonicalQuery([]) == [] by {
      CanonicalQueryKeepsPairs([]);
      assert |CanonicalQuery([])| == |multiset(CanonicalQuery([]))|;
    }
    assert NormalizeHost("https", "API.GITHUB.COM", "443") == "api.github.com";
  }

  lemma LowerNames()
    ensures Lower("HTTPS") == "https" && Lower("API.GITHUB.COM") == "api.github.com"
  {
  }

  lemma NotBracketed(s: string)
    ensures s != "" && s[0] != '[' ==> !Bracketed(s)
  {
  }

  lemma NoColon(s: string)
    ensures ':' !in s ==> FormatHost(s) == s
  {
  }

  lemma {:induction false} CutHere(front: string, port: string)
    requires Digits(port)
    ensures CutPort(front + ":" + port) == (front, port)
  {
    hide LastColon;
    LastColonAt(front, port);
    var s := front + ":" + port;
    assert s[..|front|] == front && s[|front| + 1..] == port;
  }

  lemma {:induction false} LowerStripped(s: string)
    ensures Lower(StripBrackets(s)) == StripBrackets(Lower(s))
  {
    LowerFacts(s);
  }

  lemma {:induction false} LowerFormatted(s: string)
    ensures Lower(FormatHost(s)) == FormatHost(Lower(s))
  {
    LowerFacts(s);
  }

  lemma {:induction false} PortIsDigits(hostPort: string)
    ensures Digits(CutPort(hostPort).1)
  {
  }

  /** Two URLs have the same canonical form exactly when they agree on the scheme up to case, the
      hostname up to case, the effective port, the path (with the root for none), the other fields
      and the multiset of query pairs; fragments never matter. */
  lemma {:induction false} SameCanonicalForm<Rest>(u: ParsedURL<Rest>, v: ParsedURL<Rest>)
    ensures Normalize(u) == Normalize(v) <==>
            && SameUpToCase(u.scheme, v.scheme)
            && SameUpToCase(SplitHost(u.host).0, SplitHost(v.host).0)
            && PortsAgree(Lower(u.scheme), SplitHost(u.host).1, SplitHost(v.host).1)
            && (if u.path == "" then "/" else u.path) == (if v.path == "" then "/" else v.path)
            && multiset(u.query) == multiset(v.query)
            && u.rest == v.rest
  {
    hide CutPort, Lower, SameUpToCase, PortsAgree, StripBrackets, FormatHost, Digits, CanonicalQuery,
         NormalizeHost, EffectivePort;
    var scheme := Lower(u.scheme);
    var (h1, p1) := SplitHost(u.host);
    var (h2, p2) := SplitHost(v.host);
    PortIsDigits(u.host);
    PortIsDigits(v.host);
    LowerIff(u.scheme, v.scheme);
    NormalizeHostIff(scheme, h1, p1, h2, p2);
    CanonicalQueryIff(u.query, v.query);
  }

  // ---------------------------------------------------------------- the code

  /** `URL.Query`: group the pairs by key. */
  method ParseQuery(pairs: seq<Pair>) returns (query: map<string, seq<string>>)
    ensures query.Keys == QueryKeys(pairs)
    ensures forall key <- query :: query[key] == Values(pairs, key)
  {
    query := map[];
    for i := 0 to |pairs|
      invariant query.Keys == QueryKeys(pairs[..i])
      invariant forall key <- query :: query[key] == Values(pairs[..i], key)
    {
      var (key, value) := pairs[i];
      assert pairs[..i + 1] == pairs[..i] + [pairs[i]];
      NoValues(pairs[..i], key);
      query := query[key := (if key in query then query[key] else []) + [value]];
    }
    assert pairs[..|pairs|] == pairs;
  }

  lemma {:induction false} NoValues(pairs: seq<Pair>, key: string)
    ensures key !in QueryKeys(pairs) ==> Values(pairs, key) == []
  {
    if pairs != [] {
      NoValues(pairs[..|pairs| - 1], key);
      assert pairs == pairs[..|pairs| - 1] + [pairs[|pairs| - 1]];
    }
  }

  /** The keys of a map as an iteration meets them. */
  method SomeOrder(members: set<string>) returns (keys: seq<string>)
    ensures multiset(keys) == multiset(members)
  {
    keys := [];
    var rest := members;
    while rest != {}
      invariant rest <= members
      invariant multiset(keys) == multiset(members - rest)
      decreases rest
    {
      var key :| key in rest;
      keys := keys + [key];
      assert members - (rest - {key}) == members - rest + {key};
      rest := rest - {key};
    }
    assert members - rest == members;
  }

  /** `Values.Encode` up to escaping: the pairs in the order of sorted keys. */
  method EncodeOrder(query: map<string, seq<string>>) returns (pairs: seq<Pair>)
    ensures pairs == Flatten(query, SortedKeys(query.Keys))
  {
    hide SortStrings, Listed;
    var keys := SomeOrder(query.Keys);
    ListedFacts(query.Keys);
    SortForgetsOrder(keys, Listed(query.Keys));
    keys := SortStrings(keys);
    pairs := [];
    for i := 0 to |keys|
      invariant pairs == Flatten(query, keys[..i])
    {
      assert keys[..i + 1][..i] == keys[..i];
      if keys[i] in query {
        pairs := pairs + PairsOf(keys[i], query[keys[i]]);
      }
    }
    assert keys[..|keys|] == keys;
  }

  method NormalizeParsedURL<Rest>(u: ParsedURL<Rest>) returns (parsed: ParsedURL<Rest>)
    ensures parsed == Normalize(u)
  {
    hide Lower, SplitHost, NormalizeHost, Values, SortStrings, Flatten, SortedKeys, QueryKeys;
    parsed := u;
    parsed := parsed.(scheme := Lower(parsed.scheme));
    var (hostname, port) := SplitHost(parsed.host);
    parsed := parsed.(host := NormalizeHost(parsed.scheme, hostname, port), fragment := "");
    if parsed.path == "" {
      parsed := parsed.(path := "/");
    }
    var query := ParseQuery(parsed.query);
    query := SortValues(query);
    assert query == SortedQuery(u.query) && query.Keys == QueryKeys(u.query);
    var pairs := EncodeOrder(query);
    assert pairs == CanonicalQuery(u.query);
    parsed := parsed.(query := pairs);
  }

  /** The loop that sorts every value list. */
  method SortValues(query: map<string, seq<string>>) returns (sorted: map<string, seq<string>>)
    ensures sorted == map key | key in query :: SortStrings(query[key])
  {
    hide SortStrings;
    sorted := query;
    var rest := query.Keys;
    while rest != {}
      invariant rest <= query.Keys == sorted.Keys
      invariant forall key <- query :: sorted[key] == if key in rest then query[key] else SortStrings(query[key])
      decreases rest
    {
      var key :| key in rest;
      sorted := sorted[key := SortStrings(sorted[key])];
      rest := rest - {key};
    }
  }
}
