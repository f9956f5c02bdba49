/** The mint health tracker as the program runs it: an object whose per-mint records, cached
    count and flags change in place, pass by pass. */
module MintTrackers {
  import opened Basics
  import opened Words
  import opened MintProbes
  import M = MintTracker

  class MintHealthTracker {
    const config: seq<string>
    const limit: uint8
    var records: map<string, M.Record>
    var reachableCount: int
    var hadReachableMint: bool

    function State(): M.Tracker
      reads this
    {
      M.Tracker(config, records, reachableCount, hadReachableMint, limit)
    }

    ghost predicate Valid()
      reads this
    {
      M.Valid(State())
    }

    constructor (config: seq<string>, limit: uint8)
      requires Distinct(config)
      ensures Valid() && State() == M.Fresh(config, limit)
    {
      this.config, this.limit := config, limit;
      records, reachableCount, hadReachableMint := map[], 0, false;
      new;
      assert M.Reachable(State()) == {};
    }

    method ProbeDue(url: string, now: int) returns (due: bool)
      ensures due <==> Due(M.Rec(State(), url).throttle, now)
    {
      var notBefore := M.Rec(State(), url).throttle.notBefore;
      due := notBefore.Never? || !(now < notBefore.time);
    }

    /** Asks every mint that is not inside the wait it asked for; `world` is what each would say. */
    method Gather(world: map<string, Probe>, now: int) returns (results: M.Results)
      ensures results == map url | url in config && url in world && Due(M.Rec(State(), url).throttle, now) :: world[url]
    {
      results := map[];
      var i := 0;
      while i < |config|
        invariant 0 <= i <= |config|
        invariant results == map url | url in config[..i] && url in world && Due(M.Rec(State(), url).throttle, now)
                                     :: world[url]
      {
        assert config[..i + 1] == config[..i] + [config[i]];
        var due := ProbeDue(config[i], now);
        if due && config[i] in world {
          results := results[config[i] := world[config[i]]];
        }
        i := i + 1;
      }
      assert config[..i] == config;
    }

    /** The throttle bookkeeping of one answer. */
    method ApplyThrottleAnswer(url: string, p: Probe, now: int)
      modifies this`records
      ensures var r := M.Rec(old(State()), url);
              records == old(records)[url := r.(throttle := Hear(r.throttle, limit, p, now))]
    {
      var r := M.Rec(State(), url);
      var t := r.throttle;
      t := t.(notBefore := Never);
      if p.wait > 0 { t := t.(notBefore := At(now + p.wait)); }
      match p.answer {
        case Throttled =>
          if t.count < 255 { t := t.(count := t.count + 1); }
          if t.streakStart.Never? { t := t.(streakStart := At(now)); }
          if !t.persistent && limit != 0 && t.count >= limit && NoSuccessSince(t) {
            t := t.(persistent := true);
          }
        case OK =>
          t := t.(count := 0, streakStart := Never, lastSuccess := At(now), persistent := false);
        case Failed =>
      }
      records := records[url := r.(throttle := t)];
    }

    /** The hysteresis counters and the reachable bit after one answer; the boot probe seeds them. */
    method CountAnswer(url: string, pass: M.Pass, answer: Answer)
      modifies this`records
      ensures var r := M.Rec(old(State()), url);
              records == old(records)[url := r.(reach := React(r.reach, M.EventOf(pass, answer)))]
    {
      var r := M.Rec(State(), url);
      var up, successes, failures := r.reach.up, r.reach.successes, r.reach.failures;
      if answer != Failed {
        successes, failures := Wrap8(successes + 1), 0;
        if pass == M.BootPass { successes := RECOVERY_THRESHOLD; }
        if pass != M.ProactivePass || successes >= RECOVERY_THRESHOLD { up := true; }
      } else {
        successes, failures := 0, Wrap8(failures + 1);
        if pass == M.BootPass { up, failures := false, 1; }
        if pass == M.ProactivePass && failures >= FAILURE_THRESHOLD { up := false; }
      }
      records := records[url := r.(reach := Reach(up, successes, failures))];
    }

    /** Folds what a pass learned into the records, mint by mint in configuration order. */
    method FoldResults(pass: M.Pass, results: M.Results, now: int)
      requires Distinct(config)
      modifies this`records
      ensures M.Swept(old(State()), State(), pass, results, now)
    {
      var i := 0;
      while i < |config|
        invariant 0 <= i <= |config|
        invariant forall url :: M.Rec(State(), url)
                    == if url in config[..i] then M.Visited(M.Rec(old(State()), url), url, pass, limit, results, now)
                       else M.Rec(old(State()), url)
      {
        var url := config[i];
        assert url !in config[..i];
        assert config[..i + 1] == config[..i] + [url];
        if url in results {
          ApplyThrottleAnswer(url, results[url], now);
          CountAnswer(url, pass, results[url].answer);
        }
        i := i + 1;
      }
      assert config[..i] == config;
    }

    method CountReachable() returns (n: int)
      ensures n == M.CountUp(State(), config)
    {
      n := 0;
      var i := 0;
      while i < |config|
        invariant 0 <= i <= |config|
        invariant n == M.CountUp(State(), config[..i])
      {
        assert config[..i + 1][..i] == config[..i];
        if M.IsReachable(State(), config[i]) { n := n + 1; }
        i := i + 1;
      }
      assert config[..i] == config;
    }

    /** One pass under the lock: fold, recount, and decide which callbacks to fire. */
    method Apply(pass: M.Pass, results: M.Results, now: int) returns (fired: M.Fired)
      requires Valid()
      modifies this
      ensures Valid()
      ensures M.PassStep(old(State()), State(), pass, results, now, fired)
    {
      FoldResults(pass, results, now);
      var newCount := CountReachable();
      ghost var folded := State();
      var setChanged := newCount != reachableCount;
      fired := if pass == M.BootPass then M.QUIET
               else M.Fired(!hadReachableMint && newCount > 0, setChanged);
      reachableCount := newCount;
      if newCount > 0 { hadReachableMint := true; }
      assert forall url :: M.Rec(State(), url) == M.Rec(folded, url);
      SameCount(folded, State(), config);
      M.PassKeeps(old(State()), State(), pass, results, now, fired);
    }

    /** The boot probe: no callbacks; a mint the budget did not reach stays unlearned. */
    method RunInitialProbe(results: M.Results, now: int)
      requires Valid()
      modifies this
      ensures Valid()
      ensures M.PassStep(old(State()), State(), M.BootPass, results, now, M.QUIET)
    {
      var fired := Apply(M.BootPass, results, now);
    }

    method RunProactiveCheck(world: map<string, Probe>, now: int) returns (fired: M.Fired)
      requires Valid()
      modifies this
      ensures Valid()
      ensures var results := map url | url in config && url in world && Due(M.Rec(old(State()), url).throttle, now)
                                     :: world[url];
              M.PassStep(old(State()), State(), M.ProactivePass, results, now, fired)
    {
      var results := Gather(world, now);
      fired := Apply(M.ProactivePass, results, now);
    }

    /** Also reports whether a mint that was down came up. */
    method RunAggressiveCheck(world: map<string, Probe>, now: int) returns (fired: M.Fired, recovered: bool)
      requires Valid()
      modifies this
      ensures Valid()
      ensures var results := map url | url in config && url in world && Due(M.Rec(old(State()), url).throttle, now)
                                     :: world[url];
              M.PassStep(old(State()), State(), M.AggressivePass, results, now, fired)
      ensures recovered <==>
                exists url :: url in config && !M.IsReachable(old(State()), url) && M.IsReachable(State(), url)
    {
      var results := Gather(world, now);
      ghost var before := State();
      recovered := false;
      var i := 0;
      while i < |config|
        invariant 0 <= i <= |config|
        invariant recovered <==> exists j :: 0 <= j < i && !M.IsReachable(before, config[j])
                                   && config[j] in results && results[config[j]].answer != Failed
      {
        if config[i] in results && results[config[i]].answer != Failed && !M.IsReachable(State(), config[i]) {
          recovered := true;
        }
        i := i + 1;
      }
      fired := Apply(M.AggressivePass, results, now);
    }

    method MarkUnreachable(url: string) returns (fired: M.Fired)
      requires Valid()
      modifies this
      ensures Valid() && (State(), fired) == M.MarkUnreachable(old(State()), url)
    {
      M.MarkKeeps(State(), url);
      var r := M.Rec(State(), url);
      var fireSetChanged := r.reach.up;
      if fireSetChanged { reachableCount := reachableCount - 1; }
      records := records[url := r.(reach := r.reach.(up := false, successes := 0))];
      fired := M.Fired(false, fireSetChanged);
    }

    method GetAdvertisedMintConfigs() returns (urls: seq<string>)
      ensures urls == M.Advertised(State())
    {
      var reachable: seq<string>, advertised: seq<string> := [], [];
      var i := 0;
      while i < |config|
        invariant 0 <= i <= |config|
        invariant reachable == M.ReachableList(State(), config[..i])
        invariant advertised == M.UnthrottledList(State(), config[..i])
      {
        var url := config[i];
        assert config[..i + 1][..i] == config[..i];
        if M.IsReachable(State(), url) {
          reachable := reachable + [url];
          if !M.Rec(State(), url).throttle.persistent {
            advertised := advertised + [url];
          }
        }
        i := i + 1;
      }
      assert config[..i] == config;
      return if advertised == [] then reachable else advertised;
    }
  }

  lemma {:induction false} SameCount(t: M.Tracker, t': M.Tracker, urls: seq<string>)
    requires forall url :: M.Rec(t', url) == M.Rec(t, url)
    ensures M.CountUp(t', urls) == M.CountUp(t, urls)
  {
    if urls == [] {
    } else {
      SameCount(t, t', urls[..|urls| - 1]);
    }
  }
}
