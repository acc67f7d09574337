/** The proxy tester (`test_proxies_distrowatch.py`): loading the public proxy
    lists, the CloudScraper and Playwright checks of one proxy, and the tally
    of working and failed proxies. The network and the browser are outside
    the model: what they answer arrives as parameters. */
module Proxies {
  import opened Wrappers
  import opened Text
  import opened Sequences

  // ------------------------------------------------------------ the lists

  datatype Scheme = Http | Socks5 | Socks4

  function SchemeName(s: Scheme): string {
    match s
    case Http => "http"
    case Socks5 => "socks5"
    case Socks4 => "socks4"
  }

  /** The lists are read in this order. */
  const Sources: seq<Scheme> := [Http, Socks5, Socks4]

  /** A scheme's place in `Sources`. */
  function SourceIndex(s: Scheme): (i: nat)
    ensures i < |Sources| && Sources[i] == s
  {
    match s
    case Http => 0
    case Socks5 => 1
    case Socks4 => 2
  }

  /** A proxy: `{'type': ..., 'address': ...}`. */
  datatype Proxy = Proxy(scheme: Scheme, address: string)

  /** What `requests.get(url, timeout=10)` gave for a list: a response with
      its status and text, or an exception. */
  datatype ListResponse = Answered(status: int, text: string) | ListRaised

  /** A stripped line that is kept: non-empty and not a `#` comment. */
  predicate IsKeptLine(line: string) {
    |line| > 0 && !StartsWith(line, "#")
  }

  /** `response.text.strip().split('\n')` */
  function Lines(text: string): seq<string> {
    SplitOn(Strip(text), '\n')
  }

  /** What one line contributes: itself stripped, when that is kept. */
  function KeepLine(line: string): (r: seq<string>)
    ensures |r| <= 1
  {
    var proxy := Strip(line);
    if IsKeptLine(proxy) then [proxy] else []
  }

  /** The stripped lines that are kept, in order. */
  function KeptLines(lines: seq<string>): seq<string> {
    FlatMap(KeepLine, lines)
  }

  lemma KeptLinesStep(lines: seq<string>, j: nat)
    requires j < |lines|
    ensures KeptLines(lines[..j + 1]) == KeptLines(lines[..j]) + KeepLine(lines[j])
  {
    assert lines[..j + 1][..j] == lines[..j];
  }

  /** A single line is kept, stripped, exactly when the stripped line is
      non-empty and no comment. */
  lemma KeptLinesOne(line: string)
    ensures KeptLines([line]) == if IsKeptLine(Strip(line)) then [Strip(line)] else []
  {
    FlatMapSnoc(KeepLine, [], line);
    assert [] + [line] == [line];
  }

  /** The filter keeps the order of the list and the multiplicity of its
      lines: two stretches of lines keep what each keeps, one after the other. */
  lemma KeptLinesAppend(a: seq<string>, b: seq<string>)
    ensures KeptLines(a + b) == KeptLines(a) + KeptLines(b)
  {
    FlatMapAppend(KeepLine, a, b);
  }

  /** A line is kept exactly when, stripped, it is non-empty and not a
      comment; what is kept is the stripped line. */
  lemma {:induction false} KeptLinesMembers(lines: seq<string>)
    ensures forall x :: x in KeptLines(lines) ==> IsKeptLine(x) && exists l :: l in lines && Strip(l) == x
    ensures forall l :: l in lines && IsKeptLine(Strip(l)) ==> Strip(l) in KeptLines(lines)
  {
    if |lines| > 0 {
      var init := lines[..|lines| - 1];
      KeptLinesMembers(init);
      assert lines == init + [lines[|lines| - 1]];
      forall x | x in KeptLines(lines) ensures IsKeptLine(x) && exists l :: l in lines && Strip(l) == x {
        if x in KeptLines(init) {
          var l :| l in init && Strip(l) == x;
          assert l in lines;
        } else {
          assert Strip(lines[|lines| - 1]) == x;
        }
      }
    }
  }

  /** The addresses tagged with the scheme of their list. */
  function Tagged(s: Scheme, addresses: seq<string>): (r: seq<Proxy>)
    ensures |r| == |addresses|
    ensures forall i :: 0 <= i < |r| ==> r[i] == Proxy(s, addresses[i])
  {
    seq(|addresses|, i requires 0 <= i < |addresses| => Proxy(s, addresses[i]))
  }

  lemma TaggedSnoc(s: Scheme, addresses: seq<string>, a: string)
    ensures Tagged(s, addresses + [a]) == Tagged(s, addresses) + [Proxy(s, a)]
  {
    assert (addresses + [a])[..|addresses|] == addresses;
  }

  lemma AppendAssoc<T>(a: seq<T>, b: seq<T>, c: seq<T>)
    ensures (a + b) + c == a + (b + c)
  {
  }

  /** The proxies one list contributes: none unless it answered 200. */
  function ProxiesFrom(s: Scheme, response: ListResponse): seq<Proxy> {
    if response.Answered? && response.status == 200 then Tagged(s, KeptLines(Lines(response.text)))
    else []
  }

  /** Every proxy of a list carries that list's scheme. */
  lemma ProxiesFromScheme(t: Scheme, response: ListResponse)
    ensures forall p :: p in ProxiesFrom(t, response) ==> p.scheme == t
  {
  }

  /** The contributions of the first `n` lists, in list order. */
  function Concatenated(lists: Scheme -> seq<Proxy>, n: nat): seq<Proxy>
    requires n <= |Sources|
  {
    if n == 0 then [] else Concatenated(lists, n - 1) + lists(Sources[n - 1])
  }

  /** Each list's contribution, given what its URL answered. */
  function ListsOf(fetch: Scheme -> ListResponse): Scheme -> seq<Proxy> {
    s => ProxiesFrom(s, fetch(s))
  }

  /** The proxies of the first `n` lists. */
  function LoadedFrom(fetch: Scheme -> ListResponse, n: nat): seq<Proxy>
    requires n <= |Sources|
  {
    Concatenated(ListsOf(fetch), n)
  }

  /** `load_proxy_lists()` with the answer of each list's URL. */
  function AllProxies(fetch: Scheme -> ListResponse): seq<Proxy> {
    LoadedFrom(fetch, |Sources|)
  }

  /** Each list contributes proxies of its own scheme only. */
  predicate OwnSchemes(lists: Scheme -> seq<Proxy>) {
    forall t, p :: p in lists(t) ==> p.scheme == t
  }

  lemma ListsOfOwnSchemes(fetch: Scheme -> ListResponse)
    ensures OwnSchemes(ListsOf(fetch))
  {
    forall t ensures forall p :: p in ListsOf(fetch)(t) ==> p.scheme == t {
      ProxiesFromScheme(t, fetch(t));
    }
  }

  /** The proxies of one scheme, in order. */
  function OfScheme(ps: seq<Proxy>, s: Scheme): (r: seq<Proxy>)
    ensures |r| <= |ps|
  {
    if |ps| == 0 then []
    else
      var init, last := OfScheme(ps[..|ps| - 1], s), ps[|ps| - 1];
      if last.scheme == s then init + [last] else init
  }

  /** The proxies of a scheme are those of the sequence with that scheme. */
  lemma {:induction false} OfSchemeMembers(ps: seq<Proxy>, s: Scheme)
    ensures forall p :: p in OfScheme(ps, s) <==> p in ps && p.scheme == s
  {
    if |ps| > 0 {
      OfSchemeMembers(ps[..|ps| - 1], s);
      assert ps == ps[..|ps| - 1] + [ps[|ps| - 1]];
    }
  }

  lemma {:induction false} OfSchemeAppend(a: seq<Proxy>, b: seq<Proxy>, s: Scheme)
    ensures OfScheme(a + b, s) == OfScheme(a, s) + OfScheme(b, s)
    decreases |b|
  {
    if |b| == 0 {
      assert a + b == a;
    } else {
      assert (a + b)[..|a + b| - 1] == a + b[..|b| - 1];
      OfSchemeAppend(a, b[..|b| - 1], s);
    }
  }

  /** A sequence of proxies all of scheme `t` keeps all of them for `t` and
      none for another scheme. */
  lemma {:induction false} OfSchemeUniform(ps: seq<Proxy>, t: Scheme, s: Scheme)
    requires forall p :: p in ps ==> p.scheme == t
    ensures OfScheme(ps, s) == if t == s then ps else []
  {
    if |ps| > 0 {
      assert ps[|ps| - 1] in ps;
      assert ps == ps[..|ps| - 1] + [ps[|ps| - 1]];
      OfSchemeUniform(ps[..|ps| - 1], t, s);
    }
  }

  /** The step of `OfSchemeConcatenated`: the scheme's proxies are in the
      prefix when its list came earlier, in the appended list when it is
      that list, and nowhere otherwise. */
  lemma OfSchemeJoin(init: seq<Proxy>, tail: seq<Proxy>, s: Scheme, k: nat, m: nat, mine: seq<Proxy>)
    requires OfScheme(init, s) == if k < m then mine else []
    requires OfScheme(tail, s) == if k == m then mine else []
    ensures OfScheme(init + tail, s) == if k < m + 1 then mine else []
  {
    OfSchemeAppend(init, tail, s);
    if k < m {
      assert mine + [] == mine;
    } else if k == m {
      assert [] + mine == mine;
    } else {
      assert OfScheme(init, s) + OfScheme(tail, s) == [];
    }
  }

  lemma {:induction false} OfSchemeConcatenated(lists: Scheme -> seq<Proxy>, n: nat, s: Scheme)
    requires n <= |Sources| && OwnSchemes(lists)
    ensures OfScheme(Concatenated(lists, n), s) == if SourceIndex(s) < n then lists(s) else []
  {
    if n > 0 {
      var t := Sources[n - 1];
      assert SourceIndex(t) == n - 1;
      OfSchemeConcatenated(lists, n - 1, s);
      OfSchemeUniform(lists(t), t, s);
      OfSchemeJoin(Concatenated(lists, n - 1), lists(t), s, SourceIndex(s), n - 1, lists(s));
    }
  }

  /** Each scheme's proxies are exactly the kept lines of its own list,
      tagged with it; a list that failed or answered other than 200
      contributes none. */
  lemma ProxiesOfEachScheme(fetch: Scheme -> ListResponse, s: Scheme)
    ensures OfScheme(AllProxies(fetch), s) == ProxiesFrom(s, fetch(s))
  {
    ListsOfOwnSchemes(fetch);
    OfSchemeConcatenated(ListsOf(fetch), |Sources|, s);
  }

  /** Proxies come in list order: no proxy follows one of a later list. */
  predicate InSourceOrder(ps: seq<Proxy>) {
    forall i, j :: 0 <= i < j < |ps| ==> SourceIndex(ps[i].scheme) <= SourceIndex(ps[j].scheme)
  }

  /** Every proxy comes from one of the first `n` lists. */
  predicate FromFirst(ps: seq<Proxy>, n: nat) {
    forall p :: p in ps ==> SourceIndex(p.scheme) < n
  }

  lemma AppendInSourceOrder(init: seq<Proxy>, tail: seq<Proxy>, t: Scheme)
    requires InSourceOrder(init) && FromFirst(init, SourceIndex(t))
    requires forall p :: p in tail ==> p.scheme == t
    ensures InSourceOrder(init + tail) && FromFirst(init + tail, SourceIndex(t) + 1)
  {
    var ps := init + tail;
    forall i, j | 0 <= i < j < |ps| ensures SourceIndex(ps[i].scheme) <= SourceIndex(ps[j].scheme) {
      if j >= |init| {
        assert ps[j] in tail;
        if i < |init| { assert ps[i] in init; } else { assert ps[i] in tail; }
      }
    }
    forall p | p in ps ensures SourceIndex(p.scheme) < SourceIndex(t) + 1 {
      if p !in init { assert p in tail; }
    }
  }

  lemma {:induction false} ConcatenatedInSourceOrder(lists: Scheme -> seq<Proxy>, n: nat)
    requires n <= |Sources| && OwnSchemes(lists)
    ensures InSourceOrder(Concatenated(lists, n)) && FromFirst(Concatenated(lists, n), n)
  {
    if n > 0 {
      var t := Sources[n - 1];
      ConcatenatedInSourceOrder(lists, n - 1);
      AppendInSourceOrder(Concatenated(lists, n - 1), lists(t), t);
    }
  }

  /** The lists follow each other: every http proxy precedes every socks5
      proxy, which precedes every socks4 proxy. */
  lemma LoadedInSourceOrder(fetch: Scheme -> ListResponse)
    ensures InSourceOrder(AllProxies(fetch))
  {
    ListsOfOwnSchemes(fetch);
    ConcatenatedInSourceOrder(ListsOf(fetch), |Sources|);
  }

  /** The inner loop of `load_proxy_lists`: one answered list's lines
      stripped, filtered and appended. */
  method AppendList(all: seq<Proxy>, scheme: Scheme, lines: seq<string>) returns (all': seq<Proxy>, count: nat)
    ensures all' == all + Tagged(scheme, KeptLines(lines))
    ensures count == |KeptLines(lines)|
  {
    all', count := all, 0;
    ghost var kept: seq<string> := [];
    var j := 0;
    while j < |lines|
      invariant j <= |lines|
      invariant kept == KeptLines(lines[..j])
      invariant all' == all + Tagged(scheme, kept) && count == |kept|
    {
      KeptLinesStep(lines, j);
      var proxy := Strip(lines[j]);
      if IsKeptLine(proxy) {
        assert KeepLine(lines[j]) == [proxy];
        TaggedSnoc(scheme, kept, proxy);
        AppendAssoc(all, Tagged(scheme, kept), [Proxy(scheme, proxy)]);
        all' := all' + [Proxy(scheme, proxy)];
        count := count + 1;
        kept := kept + [proxy];
      }
      j := j + 1;
    }
    assert lines[..j] == lines;
  }

  /** A list whose proxies are loaded: it answered 200. */
  predicate Usable(response: ListResponse) {
    response.Answered? && response.status == 200
  }

  /** A map holding, for each of the first `n` lists that is wanted, its
      value: the shape of the counts printed while loading. */
  predicate CountsUpTo(counts: map<Scheme, nat>, n: nat, wanted: Scheme -> bool, value: Scheme -> nat) {
    && (forall s :: s in counts <==> SourceIndex(s) < n && wanted(s))
    && (forall s :: s in counts ==> counts[s] == value(s))
  }

  lemma CountsStep(counts: map<Scheme, nat>, n: nat, wanted: Scheme -> bool, value: Scheme -> nat)
    requires n < |Sources| && CountsUpTo(counts, n, wanted, value)
    ensures var t := Sources[n];
      CountsUpTo(if wanted(t) then counts[t := value(t)] else counts, n + 1, wanted, value)
  {
    var t := Sources[n];
    assert SourceIndex(t) == n;
    var c := if wanted(t) then counts[t := value(t)] else counts;
    forall s ensures s in c <==> SourceIndex(s) < n + 1 && wanted(s) {
      if s != t {
        assert SourceIndex(s) != n;
      }
    }
  }

  /** The count printed for an answered list: its kept lines. */
  function KeptCount(response: ListResponse): nat {
    if response.Answered? then |KeptLines(Lines(response.text))| else 0
  }

  /** What loading the first `n` lists has produced: their proxies, and the
      count of each usable one. */
  predicate LoadedUpTo(fetch: Scheme -> ListResponse, all: seq<Proxy>, counts: map<Scheme, nat>, n: nat)
    requires n <= |Sources|
  {
    all == LoadedFrom(fetch, n) && CountsUpTo(counts, n, s => Usable(fetch(s)), s => KeptCount(fetch(s)))
  }

  lemma LoadedFromStep(fetch: Scheme -> ListResponse, n: nat)
    requires n < |Sources|
    ensures LoadedFrom(fetch, n + 1) == LoadedFrom(fetch, n) + ProxiesFrom(Sources[n], fetch(Sources[n]))
  {
  }

  /** One pass of the loop of `load_proxy_lists`: the `n`-th list fetched,
      and when it answered 200 its kept lines appended and counted. */
  method LoadList(fetch: Scheme -> ListResponse, n: nat, all: seq<Proxy>, counts: map<Scheme, nat>)
    returns (all': seq<Proxy>, counts': map<Scheme, nat>)
    requires n < |Sources| && LoadedUpTo(fetch, all, counts, n)
    ensures LoadedUpTo(fetch, all', counts', n + 1)
  {
    var scheme := Sources[n];
    var response := fetch(scheme);
    LoadedFromStep(fetch, n);
    CountsStep(counts, n, s => Usable(fetch(s)), s => KeptCount(fetch(s)));
    if response.Answered? && response.status == 200 {
      var count;
      var lines := SplitOn(Strip(response.text), '\n');
      all', count := AppendList(all, scheme, lines);
      counts' := counts[scheme := count];
    } else {
      all', counts' := all, counts;
      assert ProxiesFrom(scheme, response) == [];
    }
  }

  /** `load_proxy_lists`: the lists in order, each answered list's lines
      stripped and filtered, and the count printed per answered list. */
  method LoadProxyLists(fetch: Scheme -> ListResponse) returns (all: seq<Proxy>, counts: map<Scheme, nat>)
    ensures all == AllProxies(fetch)
    ensures forall s :: s in counts <==> fetch(s).Answered? && fetch(s).status == 200
    ensures forall s :: s in counts ==> counts[s] == |KeptLines(Lines(fetch(s).text))|
  {
    all, counts := [], map[];
    LoadedNothing(fetch);
    var si := 0;
    while si < |Sources|
      invariant si <= |Sources|
      invariant LoadedUpTo(fetch, all, counts, si)
    {
      all, counts := LoadList(fetch, si, all, counts);
      si := si + 1;
    }
    LoadedEverything(fetch, all, counts);
  }

  lemma LoadedNothing(fetch: Scheme -> ListResponse)
    ensures LoadedUpTo(fetch, [], map[], 0)
  {
    assert LoadedFrom(fetch, 0) == [];
  }

  lemma LoadedEverything(fetch: Scheme -> ListResponse, all: seq<Proxy>, counts: map<Scheme, nat>)
    requires LoadedUpTo(fetch, all, counts, |Sources|)
    ensures all == AllProxies(fetch)
    ensures forall s :: s in counts <==> fetch(s).Answered? && fetch(s).status == 200
    ensures forall s :: s in counts ==> counts[s] == |KeptLines(Lines(fetch(s).text))|
  {
    forall s ensures s in counts <==> Usable(fetch(s)) {
      assert SourceIndex(s) < |Sources|;
    }
  }

  // ------------------------------------------------------------ one proxy

  /** A status as the checks report it: an HTTP code or a label. */
  datatype Status = Code(code: int) | Label(text: string)

  /** `(success, status, method)` */
  datatype Check = Check(success: bool, status: Status, via: string)

  /** What `scraper.get(TEST_URL, proxies=..., timeout=8)` gave: a response,
      or an exception described by the `requests` classes it belongs to (a
      connect timeout is both a timeout and a connection error) and its class
      name. */
  datatype CsOutcome =
    | Got(status: int, body: string)
    | CsRaised(isTimeout: bool, isProxyError: bool, isSslError: bool, isConnectionError: bool, name: string)

  /** The body test both checks use. */
  predicate LooksLikeDistroWatch(body: string) {
    Contains(Lower(body), "distrowatch") || Contains(body, "Last 1 month")
  }

  /** `test_proxy_cloudscraper`: the first `except` clause that matches the
      exception decides the label. */
  function CloudScraperCheck(o: CsOutcome): (r: Check)
    ensures r.via == "CloudScraper"
    ensures r.success <==> o.Got? && o.status == 200 && LooksLikeDistroWatch(o.body)
    ensures o.Got? ==> r.status == Code(o.status)
    ensures o.CsRaised? ==> r.status.Label?
  {
    match o
    case Got(status, body) =>
      Check(status == 200 && LooksLikeDistroWatch(body), Code(status), "CloudScraper")
    case CsRaised(isTimeout, isProxyError, isSslError, isConnectionError, name) =>
      var tag :=
        if isTimeout then "TIMEOUT"
        else if isProxyError then "PROXY_ERROR"
        else if isSslError then "SSL_ERROR"
        else if isConnectionError then "CONNECTION_ERROR"
        else name;
      Check(false, Label(tag), "CloudScraper")
  }

  /** A connect timeout, which `requests` makes both a timeout and a
      connection error, is reported as a timeout; a proxy error, which is
      also a connection error, as a proxy error. */
  lemma CloudScraperErrorPrecedence(proxyError: bool, sslError: bool, name: string)
    ensures CloudScraperCheck(CsRaised(true, proxyError, sslError, true, name)).status == Label("TIMEOUT")
    ensures CloudScraperCheck(CsRaised(false, true, sslError, true, name)).status == Label("PROXY_ERROR")
  {
  }

  /** What the browser gave for the test page: a navigation whose response may
      be missing, a Playwright timeout, or another exception by class name. */
  datatype BrowserOutcome = Loaded(status: Option<int>, content: string) | PwTimeout | PwRaised(name: string)

  /** The schemes Playwright can use. */
  predicate BrowserScheme(s: Scheme) { s == Http || s == Socks5 }

  /** The `server` setting handed to the browser. */
  function ServerFor(s: Scheme, host: string, port: int): string {
    SchemeName(s) + "://" + host + ":" + IntToString(port)
  }

  /** `test_proxy_playwright`, with the browser as a function from the proxy
      server setting to what navigation gives. */
  function PlaywrightCheck(p: Proxy, browse: string -> BrowserOutcome): (r: Check)
    ensures r.via == "Playwright"
    ensures !BrowserScheme(p.scheme) ==> r.status == Label("UNSUPPORTED")
    ensures BrowserScheme(p.scheme) && |SplitOn(p.address, ':')| != 2 ==> r.status == Label("INVALID_FORMAT")
    ensures r.success ==> BrowserScheme(p.scheme) && r.status == Code(200)
  {
    if !BrowserScheme(p.scheme) then Check(false, Label("UNSUPPORTED"), "Playwright")
    else
      var parts := SplitOn(p.address, ':');
      if |parts| != 2 then Check(false, Label("INVALID_FORMAT"), "Playwright")
      else
        match ParseInt(parts[1])
        case None => Check(false, Label("ValueError"), "Playwright")
        case Some(port) =>
          match browse(ServerFor(p.scheme, parts[0], port))
          case PwTimeout => Check(false, Label("TIMEOUT"), "Playwright")
          case PwRaised(name) => Check(false, Label(name), "Playwright")
          case Loaded(status, content) =>
            match status
            case None => Check(false, Label("AttributeError"), "Playwright")
            case Some(code) =>
              if code == 200 && LooksLikeDistroWatch(content) then Check(true, Code(200), "Playwright")
              else Check(false, Code(code), "Playwright")
  }

  /** The address is usable exactly when it holds a single `:`. */
  lemma PlaywrightAddressFormat(p: Proxy, browse: string -> BrowserOutcome)
    requires BrowserScheme(p.scheme)
    ensures multiset(p.address)[':'] != 1 ==> PlaywrightCheck(p, browse) == Check(false, Label("INVALID_FORMAT"), "Playwright")
    ensures multiset(p.address)[':'] == 1 ==>
      var parts := SplitOn(p.address, ':');
      |parts| == 2 && p.address == parts[0] + ":" + parts[1]
  {
    SplitOnCount(p.address, ':');
    JoinSplitRoundTrip(p.address, ':');
    var parts := SplitOn(p.address, ':');
    if |parts| == 2 {
      assert JoinWith(parts, [':']) == JoinWith(parts[..1], [':']) + [':'] + parts[1];
    }
  }

  /** Once the address splits as `host:port`, the outcome follows the port and
      the browser: a port `int()` rejects gives `ValueError`; a Playwright
      timeout gives `TIMEOUT`; any other exception gives its class name; a
      navigation without a response gives `AttributeError`; a response reports
      its status, and succeeds exactly when that is 200 and the page looks
      like DistroWatch. */
  lemma PlaywrightOutcomes(p: Proxy, browse: string -> BrowserOutcome, host: string, port: string)
    requires BrowserScheme(p.scheme) && SplitOn(p.address, ':') == [host, port]
    ensures var r := PlaywrightCheck(p, browse);
      && (ParseInt(port).None? ==> r == Check(false, Label("ValueError"), "Playwright"))
      && (ParseInt(port).Some? ==>
            var o := browse(ServerFor(p.scheme, host, ParseInt(port).value));
            && (o.PwTimeout? ==> r == Check(false, Label("TIMEOUT"), "Playwright"))
            && (o.PwRaised? ==> r == Check(false, Label(o.name), "Playwright"))
            && (o.Loaded? && o.status.None? ==> r == Check(false, Label("AttributeError"), "Playwright"))
            && (o.Loaded? && o.status.Some? ==>
                  && r.status == Code(o.status.value)
                  && (r.success <==> o.status.value == 200 && LooksLikeDistroWatch(o.content))))
  {
  }

  /** A successful browser check went through a browser configured with the
      proxy's own scheme, host and port, and read the test page there. */
  lemma PlaywrightSuccess(p: Proxy, browse: string -> BrowserOutcome)
    requires PlaywrightCheck(p, browse).success
    ensures var parts := SplitOn(p.address, ':');
      && |parts| == 2 && ParseInt(parts[1]).Some?
      && var o := browse(ServerFor(p.scheme, parts[0], ParseInt(parts[1]).value));
         o == Loaded(Some(200), o.content) && LooksLikeDistroWatch(o.content)
  {
    var parts := SplitOn(p.address, ':');
    assert BrowserScheme(p.scheme) && |parts| == 2;
    var port := ParseInt(parts[1]);
    assert port.Some?;
    var o := browse(ServerFor(p.scheme, parts[0], port.value));
    assert o.Loaded? && o.status == Some(200);
  }

  // ------------------------------------------------------------ the tally

  /** What the network gives the i-th proxy test: the CloudScraper outcome,
      and the browser's behaviour should it be tried. */
  datatype Trial = Trial(cs: CsOutcome, browse: string -> BrowserOutcome)

  /** One proxy: CloudScraper first, Playwright when that failed and the
      scheme allows it. */
  function TestOne(p: Proxy, t: Trial): Check {
    var cs := CloudScraperCheck(t.cs);
    if !cs.success && BrowserScheme(p.scheme) then PlaywrightCheck(p, t.browse) else cs
  }

  /** A proxy works when either method reaches the page through it; a
      CloudScraper success, or a scheme the browser cannot use, leaves the
      CloudScraper verdict standing. */
  lemma TestOneOutcome(p: Proxy, t: Trial)
    ensures CloudScraperCheck(t.cs).success || !BrowserScheme(p.scheme) ==> TestOne(p, t) == CloudScraperCheck(t.cs)
    ensures TestOne(p, t).success <==>
      CloudScraperCheck(t.cs).success || (BrowserScheme(p.scheme) && PlaywrightCheck(p, t.browse).success)
  {
  }

  /** Playwright decides exactly when CloudScraper failed on a proxy whose
      scheme the browser supports. */
  lemma PlaywrightOnlyAsFallback(p: Proxy, t: Trial)
    ensures TestOne(p, t).via == "Playwright" <==> !CloudScraperCheck(t.cs).success && BrowserScheme(p.scheme)
  {
  }

  /** A working proxy and the method that reached the test page through it. */
  datatype WorkingProxy = WorkingProxy(proxy: Proxy, via: string)

  datatype Tally = Tally(working: seq<WorkingProxy>, failed: nat)

  /** The tally after one more proxy, whose test gave `c`. */
  function Record(before: Tally, p: Proxy, c: Check): Tally {
    if c.success then Tally(before.working + [WorkingProxy(p, c.via)], before.failed)
    else Tally(before.working, before.failed + 1)
  }

  /** The working proxies and the failure count, given each proxy's verdict. */
  function TallyOfChecks(proxies: seq<Proxy>, checks: seq<Check>): (r: Tally)
    requires |checks| == |proxies|
    ensures |r.working| + r.failed == |proxies|
  {
    if |proxies| == 0 then Tally([], 0)
    else
      var n := |proxies| - 1;
      Record(TallyOfChecks(proxies[..n], checks[..n]), proxies[n], checks[n])
  }

  /** The verdict of each proxy's test. */
  function Checks(proxies: seq<Proxy>, trials: seq<Trial>): (r: seq<Check>)
    requires |trials| == |proxies|
    ensures |r| == |proxies|
    ensures forall i :: 0 <= i < |r| ==> r[i] == TestOne(proxies[i], trials[i])
  {
    Pairwise(TestOne, proxies, trials)
  }

  /** The working proxies and the failure count after testing `proxies`. */
  function TallyOf(proxies: seq<Proxy>, trials: seq<Trial>): (r: Tally)
    requires |trials| == |proxies|
    ensures |r.working| + r.failed == |proxies|
  {
    TallyOfChecks(proxies, Checks(proxies, trials))
  }

  lemma ChecksAppend(p: seq<Proxy>, t: seq<Trial>, q: seq<Proxy>, u: seq<Trial>)
    requires |t| == |p| && |u| == |q|
    ensures Checks(p + q, t + u) == Checks(p, t) + Checks(q, u)
  {
    PairwiseAppend(TestOne, p, t, q, u);
  }

  /** A single proxy is working, with the method that reached the page, when
      its test succeeds, and one failure otherwise. */
  lemma TallyOne(p: Proxy, t: Trial)
    ensures TallyOf([p], [t]) ==
      if TestOne(p, t).success then Tally([WorkingProxy(p, TestOne(p, t).via)], 0) else Tally([], 1)
  {
    var c := Checks([p], [t]);
    assert c == [TestOne(p, t)];
    assert [p][..0] == [] && c[..0] == [];
  }

  lemma {:induction false} TallyOfChecksAppend(p: seq<Proxy>, c: seq<Check>, q: seq<Proxy>, d: seq<Check>)
    requires |c| == |p| && |d| == |q|
    ensures TallyOfChecks(p + q, c + d).working == TallyOfChecks(p, c).working + TallyOfChecks(q, d).working
    ensures TallyOfChecks(p + q, c + d).failed == TallyOfChecks(p, c).failed + TallyOfChecks(q, d).failed
  {
    if |q| == 0 {
      assert p + q == p && c + d == c;
    } else {
      var n := |q| - 1;
      TallyOfChecksAppend(p, c, q[..n], d[..n]);
      assert (p + q)[..|p| + n] == p + q[..n];
      assert (c + d)[..|c| + n] == c + d[..n];
      assert (p + q)[|p| + n] == q[n] && (c + d)[|c| + n] == d[n];
      if d[n].success {
        var w := WorkingProxy(q[n], d[n].via);
        AppendAssoc(TallyOfChecks(p, c).working, TallyOfChecks(q[..n], d[..n]).working, [w]);
      }
    }
  }

  /** The tally keeps the order of the proxies: testing two stretches of them
      gives the working proxies of the first followed by those of the second,
      and the sum of their failures. */
  lemma TallyAppend(p: seq<Proxy>, t: seq<Trial>, q: seq<Proxy>, u: seq<Trial>)
    requires |t| == |p| && |u| == |q|
    ensures TallyOf(p + q, t + u).working == TallyOf(p, t).working + TallyOf(q, u).working
    ensures TallyOf(p + q, t + u).failed == TallyOf(p, t).failed + TallyOf(q, u).failed
  {
    ChecksAppend(p, t, q, u);
    TallyOfChecksAppend(p, Checks(p, t), q, Checks(q, u));
  }

  /** The number of working proxies of one scheme. */
  function CountScheme(ws: seq<WorkingProxy>, s: Scheme): (n: nat)
    ensures n <= |ws|
  {
    if |ws| == 0 then 0
    else CountScheme(ws[..|ws| - 1], s) + (if ws[|ws| - 1].proxy.scheme == s then 1 else 0)
  }

  /** The per-scheme counts printed at the end add up to the working count. */
  lemma {:induction false} CountsBySchemeAddUp(ws: seq<WorkingProxy>)
    ensures CountScheme(ws, Http) + CountScheme(ws, Socks5) + CountScheme(ws, Socks4) == |ws|
  {
    if |ws| > 0 {
      CountsBySchemeAddUp(ws[..|ws| - 1]);
    }
  }

  /** The `i`-th verdict is a success, recorded as `w`. */
  predicate RecordedAt(proxies: seq<Proxy>, checks: seq<Check>, i: nat, w: WorkingProxy)
    requires i < |proxies| == |checks|
  {
    checks[i].success && w == WorkingProxy(proxies[i], checks[i].via)
  }

  lemma {:induction false} WorkingFromSuccesses(proxies: seq<Proxy>, checks: seq<Check>)
    requires |checks| == |proxies|
    ensures forall w :: w in TallyOfChecks(proxies, checks).working ==>
      exists i :: 0 <= i < |proxies| && RecordedAt(proxies, checks, i, w)
  {
    if |proxies| > 0 {
      var n := |proxies| - 1;
      WorkingFromSuccesses(proxies[..n], checks[..n]);
      forall w | w in TallyOfChecks(proxies, checks).working
        ensures exists i :: 0 <= i < |proxies| && RecordedAt(proxies, checks, i, w)
      {
        if w in TallyOfChecks(proxies[..n], checks[..n]).working {
          var i :| 0 <= i < n && RecordedAt(proxies[..n], checks[..n], i, w);
          assert proxies[..n][i] == proxies[i] && checks[..n][i] == checks[i];
          assert RecordedAt(proxies, checks, i, w);
        } else {
          assert RecordedAt(proxies, checks, n, w);
        }
      }
    }
  }

  /** The `i`-th test succeeded, by the method `w` records for that proxy. */
  predicate Succeeded(proxies: seq<Proxy>, trials: seq<Trial>, i: nat, w: WorkingProxy)
    requires i < |proxies| == |trials|
  {
    var check := TestOne(proxies[i], trials[i]);
    check.success && w == WorkingProxy(proxies[i], check.via)
  }

  /** Every working proxy had a successful test, and records the method that
      succeeded. */
  lemma WorkingAreSuccesses(proxies: seq<Proxy>, trials: seq<Trial>)
    requires |trials| == |proxies|
    ensures forall w :: w in TallyOf(proxies, trials).working ==> exists i :: 0 <= i < |proxies| && Succeeded(proxies, trials, i, w)
  {
    var checks := Checks(proxies, trials);
    WorkingFromSuccesses(proxies, checks);
    forall w | w in TallyOf(proxies, trials).working ensures exists i :: 0 <= i < |proxies| && Succeeded(proxies, trials, i, w) {
      var i :| 0 <= i < |proxies| && RecordedAt(proxies, checks, i, w);
      assert Succeeded(proxies, trials, i, w);
    }
  }

  lemma {:induction false} SuccessRecorded(proxies: seq<Proxy>, checks: seq<Check>, i: nat)
    requires i < |proxies| == |checks| && checks[i].success
    ensures WorkingProxy(proxies[i], checks[i].via) in TallyOfChecks(proxies, checks).working
  {
    var n := |proxies| - 1;
    if i < n {
      SuccessRecorded(proxies[..n], checks[..n], i);
      assert proxies[..n][i] == proxies[i] && checks[..n][i] == checks[i];
    }
  }

  /** Conversely, every proxy whose test succeeds is among the working ones,
      with the method that succeeded. */
  lemma SuccessesAreWorking(proxies: seq<Proxy>, trials: seq<Trial>, i: nat)
    requires i < |proxies| == |trials| && TestOne(proxies[i], trials[i]).success
    ensures WorkingProxy(proxies[i], TestOne(proxies[i], trials[i]).via) in TallyOf(proxies, trials).working
  {
    SuccessRecorded(proxies, Checks(proxies, trials), i);
  }

  /** The positions whose verdict is a failure. */
  ghost function FailedIn(checks: seq<Check>): set<nat> {
    set i: nat | i < |checks| && !checks[i].success
  }

  /** The positions whose test fails. */
  ghost function FailedAt(proxies: seq<Proxy>, trials: seq<Trial>): set<nat>
    requires |trials| == |proxies|
  {
    set i: nat | i < |proxies| && !TestOne(proxies[i], trials[i]).success
  }

  lemma FailedInSnoc(checks: seq<Check>)
    requires 0 < |checks|
    ensures var n := |checks| - 1;
      FailedIn(checks) == FailedIn(checks[..n]) + (if checks[n].success then {} else {n})
  {
    var n := |checks| - 1;
    forall i: nat | i < n ensures checks[..n][i] == checks[i] {
    }
  }

  lemma FailedInBelow(checks: seq<Check>)
    ensures forall i :: i in FailedIn(checks) ==> i < |checks|
  {
  }

  /** Adding a number above all members adds one to the size. */
  lemma AddAbove(s: set<nat>, n: nat)
    requires forall i :: i in s ==> i < n
    ensures |s + {n}| == |s| + 1
  {
    assert n !in s;
  }

  lemma FailedInSize(checks: seq<Check>)
    requires 0 < |checks|
    ensures var n := |checks| - 1;
      |FailedIn(checks)| == |FailedIn(checks[..n])| + (if checks[n].success then 0 else 1)
  {
    var n := |checks| - 1;
    var prev := FailedIn(checks[..n]);
    FailedInSnoc(checks);
    if !checks[n].success {
      FailedInBelow(checks[..n]);
      AddAbove(prev, n);
    } else {
      assert FailedIn(checks) == prev + {};
    }
  }

  lemma TallyOfChecksLast(proxies: seq<Proxy>, checks: seq<Check>)
    requires 0 < |proxies| == |checks|
    ensures var n := |proxies| - 1;
      TallyOfChecks(proxies, checks).failed ==
        TallyOfChecks(proxies[..n], checks[..n]).failed + (if checks[n].success then 0 else 1)
  {
  }

  lemma {:induction false} FailedInCounted(proxies: seq<Proxy>, checks: seq<Check>)
    requires |checks| == |proxies|
    ensures TallyOfChecks(proxies, checks).failed == |FailedIn(checks)|
  {
    if |proxies| == 0 {
      assert FailedIn(checks) == {};
    } else {
      var n := |proxies| - 1;
      FailedInCounted(proxies[..n], checks[..n]);
      FailedInSize(checks);
      TallyOfChecksLast(proxies, checks);
    }
  }

  /** `failed_count` is the number of proxies whose test failed. */
  lemma FailedCountsFailures(proxies: seq<Proxy>, trials: seq<Trial>)
    requires |trials| == |proxies|
    ensures TallyOf(proxies, trials).failed == |FailedAt(proxies, trials)|
  {
    var checks := Checks(proxies, trials);
    FailedInCounted(proxies, checks);
    assert FailedAt(proxies, trials) == FailedIn(checks);
  }

  /** One proxy tested: CloudScraper first, then Playwright when CloudScraper
      failed on a scheme the browser supports. */
  method TestProxy(proxy: Proxy, trial: Trial) returns (check: Check)
    ensures check == TestOne(proxy, trial)
  {
    check := CloudScraperCheck(trial.cs);
    if !check.success && BrowserScheme(proxy.scheme) {
      check := PlaywrightCheck(proxy, trial.browse);
    }
  }

  lemma TallyOfChecksSnoc(proxies: seq<Proxy>, checks: seq<Check>, i: nat)
    requires i < |proxies| == |checks|
    ensures TallyOfChecks(proxies[..i + 1], checks[..i + 1]) == Record(TallyOfChecks(proxies[..i], checks[..i]), proxies[i], checks[i])
  {
    assert proxies[..i + 1][..i] == proxies[..i] && checks[..i + 1][..i] == checks[..i];
  }

  /** The loop of `main`: each proxy tested once, sorted into working or
      failed. */
  method TestProxies(proxies: seq<Proxy>, trials: seq<Trial>) returns (working: seq<WorkingProxy>, failed: nat)
    requires |trials| == |proxies|
    ensures working == TallyOf(proxies, trials).working
    ensures failed == TallyOf(proxies, trials).failed
  {
    ghost var checks := Checks(proxies, trials);
    working, failed := [], 0;
    var i := 0;
    while i < |proxies|
      invariant i <= |proxies|
      invariant Tally(working, failed) == TallyOfChecks(proxies[..i], checks[..i])
    {
      TallyOfChecksSnoc(proxies, checks, i);
      var proxy := proxies[i];
      var check := TestProxy(proxy, trials[i]);
      if check.success {
        working := working + [WorkingProxy(proxy, check.via)];
      } else {
        failed := failed + 1;
      }
      i := i + 1;
    }
    assert proxies[..i] == proxies && checks[..i] == checks;
  }

  // ------------------------------------------------------------ the run

  /** How `main` ends: no proxy loaded, none working, or the working ones
      written out with the test time, the number tested and the number
      working. */
  datatype ProxyRun =
    | NoProxies
    | NoneWorking(failed: nat)
    | Saved(testedAt: string, totalTested: nat, workingCount: nat, proxies: seq<WorkingProxy>)

  /** `main()` with the lists' answers, one trial per loaded proxy and the
      ISO text of the current UTC time. */
  function ProxyRunOf(fetch: Scheme -> ListResponse, trials: seq<Trial>, now: string): ProxyRun
    requires |trials| == |AllProxies(fetch)|
  {
    var all := AllProxies(fetch);
    if |all| == 0 then NoProxies
    else
      var t := TallyOf(all, trials);
      if |t.working| == 0 then NoneWorking(t.failed)
      else Saved(now + "Z", |all|, |t.working|, t.working)
  }

  /** What a written result holds: as many proxies as it says work, no more
      than were tested. */
  lemma ProxyRunSaved(fetch: Scheme -> ListResponse, trials: seq<Trial>, now: string)
    requires |trials| == |AllProxies(fetch)| && ProxyRunOf(fetch, trials, now).Saved?
    ensures var r := ProxyRunOf(fetch, trials, now);
      && r.workingCount == |r.proxies| <= r.totalTested == |AllProxies(fetch)|
      && CountScheme(r.proxies, Http) + CountScheme(r.proxies, Socks5) + CountScheme(r.proxies, Socks4) == r.workingCount
  {
    CountsBySchemeAddUp(TallyOf(AllProxies(fetch), trials).working);
  }

  /** `main()`: load, then test every proxy in order. */
  method RunProxyTest(fetch: Scheme -> ListResponse, trials: seq<Trial>, now: string) returns (run: ProxyRun)
    requires |trials| == |AllProxies(fetch)|
    ensures run == ProxyRunOf(fetch, trials, now)
  {
    var all, counts := LoadProxyLists(fetch);
    if |all| == 0 {
      return NoProxies;
    }
    var working, failed := TestProxies(all, trials);
    if |working| == 0 {
      return NoneWorking(failed);
    }
    return Saved(now + "Z", |all|, |working|, working);
  }
}
