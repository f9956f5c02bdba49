/** What the health tracker learns about one mint from its probes: the reachable bit with its
    hysteresis, and the throttle streak that takes a mint out of the advertisement. */
module MintProbes {
  import opened Basics
  import opened Words

  const RECOVERY_THRESHOLD: uint8 := 3
  const FAILURE_THRESHOLD: uint8 := 3

  /** OK: usable keysets. Throttled: HTTP 429, the mint is up. Failed: anything else. */
  datatype Answer = OK | Throttled | Failed

  datatype Probe = Probe(answer: Answer, wait: int)

  // ------------------------------------------------------------ the reachable bit

  datatype Reach = Reach(up: bool, successes: uint8, failures: uint8)

  datatype Event =
    | Boot(answer: Answer)
    | Proactive(answer: Answer)
    | Aggressive(answer: Answer)
    | Skipped
    | Marked

  const UNLEARNED: Reach := Reach(false, 0, 0)

  function React(r: Reach, e: Event): Reach {
    match e
    case Boot(a) => if a != Failed then Reach(true, RECOVERY_THRESHOLD, 0) else Reach(false, 0, 1)
    case Proactive(a) =>
      if a != Failed then
        var s := Wrap8(r.successes + 1);
        Reach(r.up || s >= RECOVERY_THRESHOLD, s, 0)
      else
        var f := Wrap8(r.failures + 1);
        Reach(r.up && f < FAILURE_THRESHOLD, 0, f)
    case Aggressive(a) =>
      if a != Failed then Reach(true, Wrap8(r.successes + 1), 0) else Reach(r.up, 0, Wrap8(r.failures + 1))
    case Skipped => r
    case Marked => Reach(false, 0, r.failures)
  }

  function After(h: seq<Event>): Reach {
    if h == [] then UNLEARNED else React(After(h[..|h| - 1]), h[|h| - 1])
  }

  /** The same history counted without limit: the answers in a row that found the mint up, with
      a good boot worth the whole threshold ... */
  function Successes(h: seq<Event>): nat {
    if h == [] then 0
    else match h[|h| - 1]
      case Boot(a) => if a == Failed then 0 else RECOVERY_THRESHOLD
      case Proactive(a) => if a == Failed then 0 else Successes(h[..|h| - 1]) + 1
      case Aggressive(a) => if a == Failed then 0 else Successes(h[..|h| - 1]) + 1
      case Skipped => Successes(h[..|h| - 1])
      case Marked => 0
  }

  /** ... the failures in a row ... */
  function Failures(h: seq<Event>): nat {
    if h == [] then 0
    else match h[|h| - 1]
      case Boot(a) => if a == Failed then 1 else 0
      case Proactive(a) => if a == Failed then Failures(h[..|h| - 1]) + 1 else 0
      case Aggressive(a) => if a == Failed then Failures(h[..|h| - 1]) + 1 else 0
      case _ => Failures(h[..|h| - 1])
  }

  /** ... and whether the mint counts as up: it takes three good answers to come up, three
      failures in a row or one failed payment to go down. */
  predicate Up(h: seq<Event>) {
    h != [] &&
    match h[|h| - 1]
    case Boot(a) => a != Failed
    case Proactive(a) => if a == Failed then Up(h[..|h| - 1]) && Failures(h) < 3
                         else Up(h[..|h| - 1]) || Successes(h) >= 3
    case Aggressive(a) => a != Failed || Up(h[..|h| - 1])
    case Skipped => Up(h[..|h| - 1])
    case Marked => false
  }

  /** At every point of the history the wrapping counters and the unbounded ones agree whether the
      mint is up. */
  predicate Agrees(h: seq<Event>) {
    h == [] || (Agrees(h[..|h| - 1]) && After(h).up == Up(h))
  }

  /** The failure e ought to take the mint down, and an 8-bit count of it would not. */
  predicate Hides(h: seq<Event>, e: Event) {
    e == Proactive(Failed) && Up(h) && Failures(h) + 1 >= 3 && Wrap8(Failures(h) + 1) < 3
  }

  predicate NeverHidden(h: seq<Event>) {
    h == [] || (NeverHidden(h[..|h| - 1]) && !Hides(h[..|h| - 1], h[|h| - 1]))
  }

  /** Aggressive probing fails only on mints that are already down, as its design supposes. */
  predicate DownWhenAggressive(h: seq<Event>) {
    h == [] || (DownWhenAggressive(h[..|h| - 1])
                && (h[|h| - 1] == Aggressive(Failed) ==> !Up(h[..|h| - 1])))
  }

  lemma Wrap8Step(n: nat)
    ensures Wrap8(Wrap8(n) + 1) == Wrap8(n + 1)
    ensures n < 0x100 ==> Wrap8(n) == n
  {
  }

  /** The 8-bit counters are the unbounded ones modulo 256, and three good answers in a row always
      mean up. */
  lemma {:induction false} CountersWrap(h: seq<Event>)
    ensures After(h).successes == Wrap8(Successes(h)) && After(h).failures == Wrap8(Failures(h))
    ensures Successes(h) >= 3 ==> Up(h)
  {
    if h == [] {
    } else {
      CountersWrap(h[..|h| - 1]);
      Wrap8Step(Successes(h[..|h| - 1]));
      Wrap8Step(Failures(h[..|h| - 1]));
    }
  }

  /** One more event leaves the two counts agreed exactly unless it hides a failure. */
  lemma AgreesStep(h: seq<Event>, e: Event)
    requires After(h).up == Up(h)
    ensures React(After(h), e).up == Up(h + [e]) <==> !Hides(h, e)
  {
    CountersWrap(h);
    Wrap8Step(Successes(h));
    Wrap8Step(Successes(h) + 1);
    Wrap8Step(Failures(h));
    Wrap8Step(Failures(h) + 1);
    assert (h + [e])[..|h + [e]| - 1] == h && (h + [e])[|h + [e]| - 1] == e;
  }

  /** The reachable bit computed with wrapping counters is, all along, the one that unbounded
      counters compute exactly when no proactive failure that ought to take the mint down brings
      the 8-bit count below the threshold. */
  lemma {:induction false} WrappingIff(h: seq<Event>)
    ensures Agrees(h) <==> NeverHidden(h)
    ensures NeverHidden(h) ==> After(h).up == Up(h)
  {
    if h == [] {
    } else {
      var before, e := h[..|h| - 1], h[|h| - 1];
      WrappingIff(before);
      assert before + [e] == h;
      if NeverHidden(before) { AgreesStep(before, e); }
    }
  }

  // ------------------------------------------------------------ when nothing is hidden

  const AGGRESSIVE_INTERVAL: int := 15 * SECOND
  const AGGRESSIVE_WINDOW: int := 300 * SECOND
  const WINDOW_PROBES: int := AGGRESSIVE_WINDOW / AGGRESSIVE_INTERVAL

  /** The aggressive failures since the last answer to a boot or proactive probe. */
  function AggressiveSince(h: seq<Event>): nat {
    if h == [] then 0
    else match h[|h| - 1]
      case Boot(_) => 0
      case Proactive(_) => 0
      case Aggressive(a) => AggressiveSince(h[..|h| - 1]) + if a == Failed then 1 else 0
      case _ => AggressiveSince(h[..|h| - 1])
  }

  /** A mint that is up has at most two failures to its name, but for aggressive ones. */
  lemma {:induction false} UpHasFewFailures(h: seq<Event>)
    ensures Up(h) ==> Failures(h) <= 2 + AggressiveSince(h)
  {
    if h == [] {
    } else {
      UpHasFewFailures(h[..|h| - 1]);
    }
  }

  /** Between two answers to proactive probes aggressive probing fails at most `windows` whole
      windows long. */
  predicate WithinWindows(h: seq<Event>, windows: nat) {
    h == [] || (WithinWindows(h[..|h| - 1], windows) && AggressiveSince(h) <= windows * WINDOW_PROBES)
  }

  /** The aggressive loop cannot bring the wrap about: it would take more than twelve of its
      five-minute windows, in which every probe fails on a mint that counts as up, without one
      answer to a proactive probe in between. */
  lemma {:induction false} TwelveWindowsHideNothing(h: seq<Event>)
    requires WithinWindows(h, 12)
    ensures NeverHidden(h) && Agrees(h)
  {
    if h == [] {
    } else {
      TwelveWindowsHideNothing(h[..|h| - 1]);
      UpHasFewFailures(h[..|h| - 1]);
      assert h[..|h| - 1] == [] || AggressiveSince(h[..|h| - 1]) <= 240;
      WrappingIff(h);
    }
  }

  /** Nothing is hidden either if aggressive probing fails only on mints that are down. */
  lemma {:induction false} DownHidesNothing(h: seq<Event>)
    requires DownWhenAggressive(h)
    ensures NeverHidden(h) && (Up(h) ==> Failures(h) <= 2)
  {
    if h == [] {
    } else {
      DownHidesNothing(h[..|h| - 1]);
    }
  }

  /** A proactive probe takes a reachable mint down exactly when it fails and at least two failures
      came before it in a row; no more than two can, unless aggressive probing failed on it. */
  lemma RemovedOnThirdFailure(h: seq<Event>, a: Answer)
    requires NeverHidden(h + [Proactive(a)]) && After(h).up
    ensures !After(h + [Proactive(a)]).up <==> a == Failed && Failures(h) >= 2
    ensures DownWhenAggressive(h) ==> Failures(h) <= 2
  {
    var h' := h + [Proactive(a)];
    assert h'[..|h'| - 1] == h && h'[|h'| - 1] == Proactive(a);
    WrappingIff(h);
    WrappingIff(h');
    if DownWhenAggressive(h) { DownHidesNothing(h); }
  }

  /** The failures counted are the last probes that happened: the answers behind them all failed. */
  lemma {:induction false} FailuresAreTheLast(h: seq<Event>, k: nat)
    requires k < Failures(h)
    ensures |Answers(h)| > k && Answers(h)[|Answers(h)| - 1 - k] == Failed
  {
    var before := h[..|h| - 1];
    match h[|h| - 1] {
      case Boot(a) =>
      case Proactive(a) => if k > 0 { FailuresAreTheLast(before, k - 1); }
      case Aggressive(a) => if k > 0 { FailuresAreTheLast(before, k - 1); }
      case _ => FailuresAreTheLast(before, k);
    }
  }

  /** What the probes of a history said; a skipped pass and a failed payment say nothing. */
  function Answers(h: seq<Event>): seq<Answer> {
    if h == [] then []
    else match h[|h| - 1]
      case Boot(a) => Answers(h[..|h| - 1]) + [a]
      case Proactive(a) => Answers(h[..|h| - 1]) + [a]
      case Aggressive(a) => Answers(h[..|h| - 1]) + [a]
      case _ => Answers(h[..|h| - 1])
  }

  /** Rate-limit answers alone never take a mint down. */
  lemma {:induction false} ThrottlingNeverRemoves(h: seq<Event>, more: seq<Event>)
    requires After(h).up
    requires forall i :: 0 <= i < |more| ==>
               more[i] == Proactive(Throttled) || more[i] == Aggressive(Throttled) || more[i] == Skipped
    ensures After(h + more).up
  {
    if more == [] {
      assert h + more == h;
    } else {
      var init := more[..|more| - 1];
      ThrottlingNeverRemoves(h, init);
      assert (h + more)[..|h + more| - 1] == h + init;
    }
  }

  /** A good boot and then nothing but aggressive failures. */
  function Besieged(n: nat): seq<Event> {
    if n == 0 then [Boot(OK)] else Besieged(n - 1) + [Aggressive(Failed)]
  }

  lemma OneMoreFailure(h: seq<Event>)
    ensures var h' := h + [Aggressive(Failed)];
            Up(h') == Up(h) && After(h').up == After(h).up && Failures(h') == Failures(h) + 1
  {
    assert (h + [Aggressive(Failed)])[..|h|] == h;
  }

  lemma {:induction false} BesiegedCount(n: nat)
    ensures Up(Besieged(n)) && After(Besieged(n)).up && Failures(Besieged(n)) == n
  {
    if n == 0 {
      assert Besieged(0)[..0] == [];
    } else {
      BesiegedCount(n - 1);
      OneMoreFailure(Besieged(n - 1));
    }
  }

  /** Among all histories, though, one hides a failure: 255 aggressive failures on a reachable mint
      and a proactive one wrap the count to 0, and the mint stays. */
  lemma WrapShowsUnderAggression()
    ensures var h := Besieged(255) + [Proactive(Failed)];
            After(h).up && !Up(h) && !NeverHidden(h)
  {
    BesiegedCount(255);
    HiddenAt(Besieged(255));
  }

  lemma HiddenAt(h: seq<Event>)
    requires Up(h) && After(h).up && Failures(h) == 255
    ensures var h' := h + [Proactive(Failed)];
            After(h').up && !Up(h') && !NeverHidden(h')
  {
    CountersWrap(h);
    var h' := h + [Proactive(Failed)];
    assert h'[..|h'| - 1] == h && h'[|h'| - 1] == Proactive(Failed);
  }

  // ------------------------------------------------------------ the throttle streak

  datatype Throttle = Throttle(count: uint8, streakStart: Instant, lastSuccess: Instant,
                               persistent: bool, notBefore: Instant)

  const CLEAR: Throttle := Throttle(0, Never, Never, false, Never)

  predicate NoSuccessSince(t: Throttle) {
    t.lastSuccess.Never? || (t.streakStart.At? && t.lastSuccess.time < t.streakStart.time)
  }

  /** The throttle half of one answer; `limit` is how many throttled answers demote a mint. */
  function Hear(t: Throttle, limit: uint8, p: Probe, now: int): Throttle {
    var t := t.(notBefore := if p.wait > 0 then At(now + p.wait) else Never);
    match p.answer
    case Throttled =>
      var t := t.(count := if t.count < 255 then t.count + 1 else 255,
                  streakStart := if t.streakStart.Never? then At(now) else t.streakStart);
      if t.persistent || limit == 0 || t.count < limit || !NoSuccessSince(t) then t
      else t.(persistent := true)
    case OK => t.(count := 0, streakStart := Never, lastSuccess := At(now), persistent := false)
    case Failed => t
  }

  predicate Due(t: Throttle, now: int) {
    t.notBefore.Never? || now >= t.notBefore.time
  }

  datatype Heard = Heard(probe: Probe, now: int)

  function Throttling(h: seq<Heard>, limit: uint8): Throttle {
    if h == [] then CLEAR
    else Hear(Throttling(h[..|h| - 1], limit), limit, h[|h| - 1].probe, h[|h| - 1].now)
  }

  /** Throttled answers since the last OK one, whatever failures lie between. */
  function ThrottledSince(h: seq<Heard>): nat {
    if h == [] then 0
    else match h[|h| - 1].probe.answer
      case OK => 0
      case Throttled => ThrottledSince(h[..|h| - 1]) + 1
      case Failed => ThrottledSince(h[..|h| - 1])
  }

  function LastOK(h: seq<Heard>): Instant {
    if h == [] then Never
    else if h[|h| - 1].probe.answer == OK then At(h[|h| - 1].now)
    else LastOK(h[..|h| - 1])
  }

  /** When the first throttled answer after the last OK one came. */
  function StreakOpened(h: seq<Heard>): Instant {
    if h == [] || h[|h| - 1].probe.answer == OK then Never
    else if h[|h| - 1].probe.answer == Throttled && ThrottledSince(h) == 1 then At(h[|h| - 1].now)
    else StreakOpened(h[..|h| - 1])
  }

  predicate Later(a: Instant, b: Instant) {
    b.Never? || (a.At? && b.time < a.time)
  }

  /** The persistent flag is a function of the answers and their times, saturation or not: at
      least `limit` throttled answers since the last OK one, the first of them later than it. */
  lemma {:induction false} PersistentIff(h: seq<Heard>, limit: uint8)
    ensures var t := Throttling(h, limit);
            && t.count == (if ThrottledSince(h) < 255 then ThrottledSince(h) else 255)
            && t.streakStart == StreakOpened(h) && t.lastSuccess == LastOK(h)
            && (StreakOpened(h).At? <==> ThrottledSince(h) > 0)
            && (t.persistent <==> limit > 0 && ThrottledSince(h) >= limit && Later(StreakOpened(h), LastOK(h)))
  {
    if h == [] {
    } else {
      PersistentIff(h[..|h| - 1], limit);
    }
  }

  predicate Increasing(h: seq<Heard>) {
    forall i, j :: 0 <= i < j < |h| ==> h[i].now < h[j].now
  }

  lemma {:induction false} StreakAfterOK(h: seq<Heard>)
    requires Increasing(h)
    ensures LastOK(h).At? ==> h != [] && LastOK(h).time <= h[|h| - 1].now
    ensures StreakOpened(h).At? ==> Later(StreakOpened(h), LastOK(h))
  {
    if h == [] {
    } else {
      StreakAfterOK(h[..|h| - 1]);
    }
  }

  /** With passes at strictly increasing times the clock drops out: `limit` throttled answers
      since the last OK one, and nothing else, demote a mint. */
  lemma PersistentIffThrottled(h: seq<Heard>, limit: uint8)
    requires Increasing(h)
    ensures Throttling(h, limit).persistent <==> limit > 0 && ThrottledSince(h) >= limit
  {
    PersistentIff(h, limit);
    StreakAfterOK(h);
  }

  /** A mint is left alone for exactly the wait its last answer asked for, and for no other. */
  lemma WaitHonoured(h: seq<Heard>, limit: uint8, now: int)
    ensures Due(Throttling(h, limit), now)
       <==> h == [] || h[|h| - 1].probe.wait <= 0 || now >= h[|h| - 1].now + h[|h| - 1].probe.wait
  {
  }

  // ------------------------------------------------------------ Retry-After

  /** A header after trimming: delta-seconds within 64 bits, a date that lies `ahead`
      nanoseconds from now, or neither. */
  datatype RetryAfter = Blank | Seconds(n: int) | Date(ahead: int) | Malformed

  function ParseRetryAfter(v: RetryAfter, cap: int): (wait: int)
    ensures cap >= 0 ==> wait <= cap
  {
    match v
    case Blank => 0
    case Seconds(n) =>
      if n <= 0 then 0
      else
        var wait := SignedWrap64(n * SECOND);
        if wait > cap then cap else wait
    case Date(ahead) => if ahead <= 0 then 0 else if ahead > cap then cap else ahead
    case Malformed => 0
  }

  /** What the header asks for, clamped to what the router grants. */
  function Asked(v: RetryAfter, cap: int): int {
    var asked := match v
                 case Seconds(n) => n * SECOND
                 case Date(ahead) => ahead
                 case _ => 0;
    if asked <= 0 then 0 else if asked > cap then cap else asked
  }

  /** The wait granted is the one asked for, clamped, exactly unless the seconds overflow a
      64-bit duration and wrap to something below the cap. */
  lemma RetryAfterIff(v: RetryAfter, cap: int)
    requires 0 < cap <= MAX_DURATION
    ensures ParseRetryAfter(v, cap) == Asked(v, cap)
       <==> !(v.Seconds? && v.n > MAX_DURATION / SECOND && SignedWrap64(v.n * SECOND) < cap)
  {
    if v.Seconds? && 0 < v.n <= MAX_DURATION / SECOND {
      assert 0 < v.n * SECOND <= MAX_DURATION;
      assert SignedWrap64(v.n * SECOND) == v.n * SECOND;
    } else if v.Seconds? && v.n > MAX_DURATION / SECOND {
      assert v.n * SECOND > MAX_DURATION;
    }
  }

  /** A negative wait does come out, though only of more seconds than a duration can hold. */
  lemma NegativeWait(cap: int)
    requires 0 < cap
    ensures ParseRetryAfter(Seconds(9_223_372_037), cap) < 0
  {
  }

  /** A wait comes out negative exactly when the seconds overflow a 64-bit duration and wrap to
      something negative. */
  lemma NonNegativeIff(v: RetryAfter, cap: int)
    requires 0 < cap <= MAX_DURATION
    ensures ParseRetryAfter(v, cap) >= 0
       <==> !(v.Seconds? && v.n > MAX_DURATION / SECOND && SignedWrap64(v.n * SECOND) < 0)
  {
    RetryAfterIff(v, cap);
  }
}
