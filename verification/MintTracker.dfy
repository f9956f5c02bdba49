/** The mint health tracker over all configured mints, as a value: passes, failed payments, the
    cached count of reachable mints and the two callbacks that depend on it. */
module MintTracker {
  import opened Basics
  import opened Words
  import opened MintProbes

  datatype Record = Record(reach: Reach, throttle: Throttle)

  datatype Tracker = Tracker(config: seq<string>, records: map<string, Record>, count: int,
                             hadReachable: bool, limit: uint8)

  /** What a pass learned, gathered before it takes the lock; a mint outside it was not asked. */
  type Results = map<string, Probe>

  datatype Fired = Fired(firstReachable: bool, setChanged: bool)

  const QUIET: Fired := Fired(false, false)

  datatype Pass = BootPass | ProactivePass | AggressivePass

  function Rec(t: Tracker, url: string): Record {
    if url in t.records then t.records[url] else Record(UNLEARNED, CLEAR)
  }

  predicate IsReachable(t: Tracker, url: string) { Rec(t, url).reach.up }

  function Reachable(t: Tracker): set<string> {
    set url | url in t.config && IsReachable(t, url)
  }

  /** The reachable mints among some configured ones, one by one as a pass counts them. */
  function CountUp(t: Tracker, urls: seq<string>): nat {
    if urls == [] then 0
    else CountUp(t, urls[..|urls| - 1]) + if IsReachable(t, urls[|urls| - 1]) then 1 else 0
  }

  /** Mints are configured once, and only configured mints are ever reachable. */
  predicate Valid(t: Tracker) {
    && Distinct(t.config)
    && (forall url :: url in t.records && t.records[url].reach.up ==> url in t.config)
    && t.count == |Reachable(t)|
  }

  function UpAmong(t: Tracker, urls: seq<string>): set<string> {
    set url | url in urls && IsReachable(t, url)
  }

  /** Counting along a configuration without repeats counts the reachable set. */
  lemma {:induction false} CountIsCardinality(t: Tracker, urls: seq<string>)
    requires Distinct(urls)
    ensures CountUp(t, urls) == |UpAmong(t, urls)|
  {
    if urls == [] {
      assert UpAmong(t, urls) == {};
    } else {
      CountIsCardinality(t, urls[..|urls| - 1]);
      OneMoreAmong(t, urls);
    }
  }

  lemma OneMoreAmong(t: Tracker, urls: seq<string>)
    requires urls != [] && Distinct(urls)
    ensures var init, last := urls[..|urls| - 1], urls[|urls| - 1];
            && last !in UpAmong(t, init)
            && UpAmong(t, urls) == if IsReachable(t, last) then UpAmong(t, init) + {last} else UpAmong(t, init)
  {
    var init, last := urls[..|urls| - 1], urls[|urls| - 1];
    assert urls == init + [last];
  }

  // ------------------------------------------------------------ one mint in one pass

  function EventOf(pass: Pass, a: Answer): Event {
    match pass
    case BootPass => Boot(a)
    case ProactivePass => Proactive(a)
    case AggressivePass => Aggressive(a)
  }

  function Learn(r: Record, pass: Pass, limit: uint8, p: Probe, now: int): Record {
    Record(React(r.reach, EventOf(pass, p.answer)), Hear(r.throttle, limit, p, now))
  }

  function Visited(r: Record, url: string, pass: Pass, limit: uint8, results: Results, now: int): Record {
    if url in results then Learn(r, pass, limit, results[url], now) else r
  }

  // ------------------------------------------------------------ whole passes

  /** After a pass: every configured mint visited, every other record as it was. */
  ghost predicate Swept(t: Tracker, t': Tracker, pass: Pass, results: Results, now: int) {
    && t'.config == t.config && t'.limit == t.limit
    && forall url :: Rec(t', url) == if url in t.config then Visited(Rec(t, url), url, pass, t.limit, results, now)
                                     else Rec(t, url)
  }

  /** The callbacks a pass fires: the first-reachable one once, the set-changed one when the
      number of reachable mints is not the cached one. Boot fires neither. */
  function Callbacks(t: Tracker, t': Tracker, pass: Pass): Fired {
    if pass == BootPass then QUIET
    else Fired(!t.hadReachable && t'.count > 0, t'.count != t.count)
  }

  ghost predicate PassStep(t: Tracker, t': Tracker, pass: Pass, results: Results, now: int, fired: Fired) {
    && Swept(t, t', pass, results, now)
    && t'.count == CountUp(t', t.config)
    && t'.hadReachable == (t.hadReachable || t'.count > 0)
    && fired == Callbacks(t, t', pass)
  }

  function MarkUnreachable(t: Tracker, url: string): (Tracker, Fired) {
    var r := Rec(t, url);
    (t.(records := t.records[url := r.(reach := React(r.reach, Marked))],
        count := if r.reach.up then t.count - 1 else t.count),
     Fired(false, r.reach.up))
  }

  lemma PassKeeps(t: Tracker, t': Tracker, pass: Pass, results: Results, now: int, fired: Fired)
    requires Valid(t) && PassStep(t, t', pass, results, now, fired)
    ensures Valid(t')
    ensures pass != BootPass ==> (fired.setChanged <==> |Reachable(t')| != |Reachable(t)|)
  {
    forall url | url in t'.records && t'.records[url].reach.up ensures url in t'.config {
      assert Rec(t', url) == t'.records[url];
      assert Rec(t, url).reach.up ==> url in t.config;
    }
    CountIsCardinality(t', t.config);
    assert UpAmong(t', t.config) == Reachable(t');
  }

  lemma MarkKeeps(t: Tracker, url: string)
    requires Valid(t)
    ensures var (t', fired) := MarkUnreachable(t, url);
            Valid(t') && (fired.setChanged <==> |Reachable(t')| != |Reachable(t)|)
            && (fired.setChanged <==> Reachable(t') != Reachable(t))
  {
    var t' := MarkUnreachable(t, url).0;
    assert forall u :: u != url ==> Rec(t', u) == Rec(t, u);
    if IsReachable(t, url) {
      assert Reachable(t) == Reachable(t') + {url};
    } else {
      assert Reachable(t) == Reachable(t');
    }
  }

  // ------------------------------------------------------------ any number of steps

  datatype Happening =
    | Passed(pass: Pass, results: Results, now: int)
    | PaymentFailed(url: string)

  /** One step of a run, with the callbacks it fired. */
  datatype Move = Move(what: Happening, fired: Fired, next: Tracker)

  ghost predicate Moves(t: Tracker, m: Move) {
    match m.what
    case Passed(pass, results, now) => PassStep(t, m.next, pass, results, now, m.fired)
    case PaymentFailed(url) => (m.next, m.fired) == MarkUnreachable(t, url)
  }

  function End(t: Tracker, run: seq<Move>): Tracker {
    if run == [] then t else run[|run| - 1].next
  }

  ghost predicate IsRun(t: Tracker, run: seq<Move>) {
    run != [] ==> IsRun(t, run[..|run| - 1]) && Moves(End(t, run[..|run| - 1]), run[|run| - 1])
  }

  function Fresh(config: seq<string>, limit: uint8): Tracker {
    Tracker(config, map[], 0, false, limit)
  }

  lemma MoveKeeps(t: Tracker, m: Move)
    requires Valid(t) && Moves(t, m)
    ensures Valid(m.next) && m.next.config == t.config && m.next.limit == t.limit
    ensures (m.what.Passed? ==> m.what.pass != BootPass) ==>
              (m.fired.setChanged <==> |Reachable(m.next)| != |Reachable(t)|)
  {
    match m.what {
      case Passed(pass, results, now) => PassKeeps(t, m.next, pass, results, now, m.fired);
      case PaymentFailed(url) => MarkKeeps(t, url);
    }
  }

  /** Over every run the cached count is the true number of reachable mints. */
  lemma {:induction false} CountAlwaysTrue(config: seq<string>, limit: uint8, run: seq<Move>)
    requires Distinct(config) && IsRun(Fresh(config, limit), run)
    ensures var t := End(Fresh(config, limit), run);
            Valid(t) && t.config == config && t.limit == limit && t.count == |Reachable(t)|
  {
    var t0 := Fresh(config, limit);
    if run == [] {
      assert Reachable(t0) == {};
    } else {
      CountAlwaysTrue(config, limit, run[..|run| - 1]);
      MoveKeeps(End(t0, run[..|run| - 1]), run[|run| - 1]);
    }
  }

  /** So whoever sees it first - a payment, a proactive pass or an aggressive one - no change
      between an empty and a nonempty reachable set goes unannounced after boot. */
  lemma EmptinessAnnounced(config: seq<string>, limit: uint8, run: seq<Move>, m: Move)
    requires Distinct(config) && IsRun(Fresh(config, limit), run) && Moves(End(Fresh(config, limit), run), m)
    requires m.what.Passed? ==> m.what.pass != BootPass
    ensures var t := End(Fresh(config, limit), run);
            && (m.fired.setChanged <==> |Reachable(t)| != |Reachable(m.next)|)
            && ((Reachable(t) == {}) != (Reachable(m.next) == {}) ==> m.fired.setChanged)
  {
    CountAlwaysTrue(config, limit, run);
    var t := End(Fresh(config, limit), run);
    MoveKeeps(t, m);
    EmptyIsZero(Reachable(t));
    EmptyIsZero(Reachable(m.next));
  }

  lemma EmptyIsZero(s: set<string>)
    ensures s == {} <==> |s| == 0
  {
  }

  // ------------------------------------------------------------ what it does not announce

  /** A pass in which one mint goes down and another comes up changes the set and fires nothing. */
  lemma SwapUnannounced(t: Tracker, t': Tracker, results: Results, now: int, fired: Fired)
    requires t.config == ["a", "b"] && Valid(t) && PassStep(t, t', ProactivePass, results, now, fired)
    requires Rec(t, "a").reach == Reach(true, 0, 2) && Rec(t, "b").reach == Reach(false, 2, 0)
    requires results == map["a" := Probe(Failed, 0), "b" := Probe(OK, 0)]
    ensures Reachable(t) == {"a"} && Reachable(t') == {"b"} && !fired.setChanged
  {
    assert "a" in t.config && "b" in t.config by { assert t.config[0] == "a" && t.config[1] == "b"; }
    assert !IsReachable(t', "a") && IsReachable(t', "b");
    assert Reachable(t) == {"a"};
    assert Reachable(t') == {"b"};
    PassKeeps(t, t', ProactivePass, results, now, fired);
  }

  // ------------------------------------------------------------ each mint's own history

  predicate Asked(t: Tracker, m: Move, url: string) {
    m.what.Passed? && url in t.config && url in m.what.results
  }

  function EventFor(t: Tracker, m: Move, url: string): Event {
    match m.what
    case Passed(pass, results, now) => if Asked(t, m, url) then EventOf(pass, results[url].answer) else Skipped
    case PaymentFailed(u) => if u == url then Marked else Skipped
  }

  /** What a run did to one mint: the events of its reachable bit ... */
  function HistoryOf(t: Tracker, run: seq<Move>, url: string): seq<Event> {
    if run == [] then []
    else HistoryOf(t, run[..|run| - 1], url) + [EventFor(t, run[|run| - 1], url)]
  }

  /** ... and the answers its throttle streak heard. */
  function HeardBy(t: Tracker, run: seq<Move>, url: string): seq<Heard> {
    if run == [] then []
    else
      var m := run[|run| - 1];
      HeardBy(t, run[..|run| - 1], url)
      + if Asked(t, m, url) then [Heard(m.what.results[url], m.what.now)] else []
  }

  /** What one step does to one mint's record. */
  lemma StepOnMint(t: Tracker, m: Move, url: string)
    requires Moves(t, m)
    ensures m.next.config == t.config && m.next.limit == t.limit
    ensures Rec(m.next, url).reach == React(Rec(t, url).reach, EventFor(t, m, url))
    ensures Rec(m.next, url).throttle
         == if Asked(t, m, url) then Hear(Rec(t, url).throttle, t.limit, m.what.results[url], m.what.now)
            else Rec(t, url).throttle
  {
  }

  /** Over every run, each mint's record is a function of its own history alone. */
  lemma {:induction false} RecordIsHistory(config: seq<string>, limit: uint8, run: seq<Move>, url: string)
    requires IsRun(Fresh(config, limit), run)
    ensures var t0 := Fresh(config, limit);
            var t := End(t0, run);
            && t.config == config && t.limit == limit
            && Rec(t, url).reach == After(HistoryOf(t0, run, url))
            && Rec(t, url).throttle == Throttling(HeardBy(t0, run, url), limit)
    decreases |run|
  {
    var t0 := Fresh(config, limit);
    if run == [] {
    } else {
      var last := |run| - 1;
      RecordIsHistory(config, limit, run[..last], url);
      var t := End(t0, run[..last]);
      StepOnMint(t, run[last], url);
      AfterMore(HistoryOf(t0, run[..last], url), EventFor(t, run[last], url));
      if Asked(t, run[last], url) {
        HeardMore(HeardBy(t0, run[..last], url), limit, Heard(run[last].what.results[url], run[last].what.now));
      } else {
        assert HeardBy(t0, run, url) == HeardBy(t0, run[..last], url);
      }
    }
  }

  lemma AfterMore(h: seq<Event>, e: Event)
    ensures After(h + [e]) == React(After(h), e)
  {
    assert (h + [e])[..|h|] == h;
  }

  lemma HeardMore(h: seq<Heard>, limit: uint8, x: Heard)
    ensures Throttling(h + [x], limit) == Hear(Throttling(h, limit), limit, x.probe, x.now)
  {
    assert (h + [x])[..|h|] == h;
  }

  /** Every run: a mint is reachable exactly when unbounded counting of its history says so, as
      long as no failure in that history is hidden by the wrap. */
  lemma ReachableIsHysteresis(config: seq<string>, limit: uint8, run: seq<Move>, url: string)
    requires IsRun(Fresh(config, limit), run)
    requires NeverHidden(HistoryOf(Fresh(config, limit), run, url))
    ensures IsReachable(End(Fresh(config, limit), run), url)
       <==> Up(HistoryOf(Fresh(config, limit), run, url))
  {
    RecordIsHistory(config, limit, run, url);
    WrappingIff(HistoryOf(Fresh(config, limit), run, url));
  }

  // ------------------------------------------------------------ the advertisement

  function ReachableList(t: Tracker, urls: seq<string>): seq<string> {
    if urls == [] then []
    else ReachableList(t, urls[..|urls| - 1])
         + if IsReachable(t, urls[|urls| - 1]) then [urls[|urls| - 1]] else []
  }

  function UnthrottledList(t: Tracker, urls: seq<string>): seq<string> {
    if urls == [] then []
    else
      var url := urls[|urls| - 1];
      UnthrottledList(t, urls[..|urls| - 1])
      + if IsReachable(t, url) && !Rec(t, url).throttle.persistent then [url] else []
  }

  /** The reachable mints without the persistently throttled ones, unless that leaves none. */
  function Advertised(t: Tracker): seq<string> {
    var some := UnthrottledList(t, t.config);
    if some == [] then ReachableList(t, t.config) else some
  }

  lemma {:induction false} ListsExact(t: Tracker, urls: seq<string>)
    ensures forall url :: url in ReachableList(t, urls) <==> url in urls && IsReachable(t, url)
    ensures forall url :: url in UnthrottledList(t, urls) <==>
              url in urls && IsReachable(t, url) && !Rec(t, url).throttle.persistent
  {
    if urls == [] {
    } else {
      ListsExact(t, urls[..|urls| - 1]);
      assert urls == urls[..|urls| - 1] + [urls[|urls| - 1]];
    }
  }

  /** Only reachable mints are advertised; some are whenever any is reachable; and a persistently
      throttled one only when every reachable one is. */
  lemma AdvertisedIsReachable(t: Tracker)
    ensures forall url :: url in Advertised(t) ==> url in Reachable(t)
    ensures Advertised(t) == [] <==> Reachable(t) == {}
    ensures forall url :: url in Advertised(t) && Rec(t, url).throttle.persistent ==>
              forall other :: other in Reachable(t) ==> Rec(t, other).throttle.persistent && other in Advertised(t)
    ensures forall url :: url in Reachable(t) && !Rec(t, url).throttle.persistent ==> url in Advertised(t)
  {
    ListsExact(t, t.config);
    assert forall url :: url in Reachable(t) <==> url in ReachableList(t, t.config);
    if Advertised(t) != [] {
      assert Advertised(t)[0] in Reachable(t);
    }
  }

  /** Every run: a mint is demoted exactly by the throttled answers it gave since its last OK one. */
  lemma DemotionIsHistory(config: seq<string>, limit: uint8, run: seq<Move>, url: string)
    requires IsRun(Fresh(config, limit), run)
    requires Increasing(HeardBy(Fresh(config, limit), run, url))
    ensures Rec(End(Fresh(config, limit), run), url).throttle.persistent
       <==> limit > 0 && ThrottledSince(HeardBy(Fresh(config, limit), run, url)) >= limit
  {
    RecordIsHistory(config, limit, run, url);
    PersistentIffThrottled(HeardBy(Fresh(config, limit), run, url), limit);
  }

  // ------------------------------------------------------------ the first mint to come up

  /** Some pass of the run, boot included, ended with a mint reachable. */
  predicate HadAny(run: seq<Move>) {
    exists i :: 0 <= i < |run| && run[i].what.Passed? && Reachable(run[i].next) != {}
  }

  lemma HadAnyMore(run: seq<Move>)
    requires run != []
    ensures var before, last := run[..|run| - 1], run[|run| - 1];
            HadAny(run) <==> HadAny(before) || (last.what.Passed? && Reachable(last.next) != {})
  {
    var before, last := run[..|run| - 1], run[|run| - 1];
    if i :| 0 <= i < |run| && run[i].what.Passed? && Reachable(run[i].next) != {} {
      assert i < |before| ==> before[i] == run[i];
    }
    if i :| 0 <= i < |before| && before[i].what.Passed? && Reachable(before[i].next) != {} {
      assert run[i] == before[i];
    }
    if last.what.Passed? && Reachable(last.next) != {} { assert run[|run| - 1] == last; }
  }

  lemma {:induction false} HadIsHistory(config: seq<string>, limit: uint8, run: seq<Move>)
    requires Distinct(config) && IsRun(Fresh(config, limit), run)
    ensures End(Fresh(config, limit), run).hadReachable <==> HadAny(run)
    decreases |run|
  {
    if run == [] {
    } else {
      HadIsHistory(config, limit, run[..|run| - 1]);
      CountAlwaysTrue(config, limit, run);
      EmptyIsZero(Reachable(run[|run| - 1].next));
      HadAnyMore(run);
    }
  }

  /** Over every run: the first-reachable callback fires in a pass after boot exactly if that pass
      ends with a mint reachable and none before it did, boot included. */
  lemma FirstReachableExact(config: seq<string>, limit: uint8, run: seq<Move>)
    requires Distinct(config) && IsRun(Fresh(config, limit), run) && run != []
    ensures var before, m := run[..|run| - 1], run[|run| - 1];
            m.fired.firstReachable <==>
              m.what.Passed? && m.what.pass != BootPass && Reachable(m.next) != {} && !HadAny(before)
  {
    HadIsHistory(config, limit, run[..|run| - 1]);
    CountAlwaysTrue(config, limit, run);
    EmptyIsZero(Reachable(run[|run| - 1].next));
  }

  lemma {:induction false} RunPrefix(t: Tracker, run: seq<Move>, n: nat)
    requires IsRun(t, run) && n <= |run|
    ensures IsRun(t, run[..n])
    decreases |run|
  {
    if n == |run| {
      assert run[..n] == run;
    } else {
      RunPrefix(t, run[..|run| - 1], n);
      assert run[..|run| - 1][..n] == run[..n];
    }
  }

  lemma FiredAt(config: seq<string>, limit: uint8, run: seq<Move>, i: nat)
    requires Distinct(config) && IsRun(Fresh(config, limit), run) && i < |run| && run[i].fired.firstReachable
    ensures run[i].what.Passed? && Reachable(run[i].next) != {} && !HadAny(run[..i])
  {
    var prefix := run[..i + 1];
    RunPrefix(Fresh(config, limit), run, i + 1);
    assert prefix[..|prefix| - 1] == run[..i] && prefix[|prefix| - 1] == run[i];
    FirstReachableExact(config, limit, prefix);
  }

  /** So it fires once at most. */
  lemma FirstReachableOnce(config: seq<string>, limit: uint8, run: seq<Move>, i: nat, j: nat)
    requires Distinct(config) && IsRun(Fresh(config, limit), run)
    requires i < j < |run| && run[i].fired.firstReachable
    ensures !run[j].fired.firstReachable
  {
    FiredAt(config, limit, run, i);
    assert run[..j][i] == run[i];
    assert HadAny(run[..j]);
    if run[j].fired.firstReachable { FiredAt(config, limit, run, j); }
  }

  // ------------------------------------------------------------ the order of the advertisement

  /** Mint a is configured before b. */
  predicate Precedes(urls: seq<string>, a: string, b: string) {
    exists p, q :: 0 <= p < q < |urls| && urls[p] == a && urls[q] == b
  }

  /** Mints come in the order of the configuration. */
  predicate InOrder(list: seq<string>, urls: seq<string>) {
    forall i, j :: 0 <= i < j < |list| ==> Precedes(urls, list[i], list[j])
  }

  lemma LongerPrecedes(urls: seq<string>, url: string, a: string, b: string)
    requires Precedes(urls, a, b) || (a in urls && b == url)
    ensures Precedes(urls + [url], a, b)
  {
    if Precedes(urls, a, b) {
      var p, q :| 0 <= p < q < |urls| && urls[p] == a && urls[q] == b;
      assert (urls + [url])[p] == a && (urls + [url])[q] == b;
    } else {
      var p :| 0 <= p < |urls| && urls[p] == a;
      assert (urls + [url])[p] == a && (urls + [url])[|urls|] == b;
    }
  }

  lemma LongerInOrder(list: seq<string>, urls: seq<string>, url: string)
    requires InOrder(list, urls) && forall x :: x in list ==> x in urls
    ensures InOrder(list, urls + [url]) && InOrder(list + [url], urls + [url])
  {
    var more := list + [url];
    forall i, j | 0 <= i < j < |more| ensures Precedes(urls + [url], more[i], more[j]) {
      assert more[i] == list[i] && list[i] in urls;
      if j < |list| { assert more[j] == list[j]; }
      LongerPrecedes(urls, url, more[i], more[j]);
    }
    forall i, j | 0 <= i < j < |list| ensures Precedes(urls + [url], list[i], list[j]) {
      assert more[i] == list[i] && more[j] == list[j];
    }
  }

  lemma {:induction false} ListsInOrder(t: Tracker, urls: seq<string>)
    ensures InOrder(ReachableList(t, urls), urls) && InOrder(UnthrottledList(t, urls), urls)
    decreases |urls|
  {
    if urls == [] {
    } else {
      var init, url := urls[..|urls| - 1], urls[|urls| - 1];
      ListsInOrder(t, init);
      ListsExact(t, init);
      LongerInOrder(ReachableList(t, init), init, url);
      LongerInOrder(UnthrottledList(t, init), init, url);
      assert urls == init + [url];
    }
  }

  /** The advertisement keeps the order of the configuration, and so names no mint twice. */
  lemma AdvertisedInOrder(t: Tracker)
    requires Distinct(t.config)
    ensures InOrder(Advertised(t), t.config) && Distinct(Advertised(t))
  {
    ListsInOrder(t, t.config);
    var list := Advertised(t);
    forall i, j | 0 <= i < j < |list| ensures list[i] != list[j] {
      assert Precedes(t.config, list[i], list[j]);
    }
  }
}
