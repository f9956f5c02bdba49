/** The book of owed claims as the program runs it, and the loop that retries one claim: when it
    stops, after how many attempts, and in what state it leaves the record. */
module OwedMonitors {
  import opened Basics
  import opened Words
  import O = OwedGrants

  const RETRY_INTERVAL: int := 5 * SECOND
  const MAX_BACKOFF: int := 30 * SECOND

  /** The wait before attempt k, counted from 0: 5, 10, 20 and then 30 seconds. */
  function Backoff(k: nat): int {
    if k == 0 then RETRY_INTERVAL
    else if 2 * Backoff(k - 1) > MAX_BACKOFF then MAX_BACKOFF else 2 * Backoff(k - 1)
  }

  /** The waits before the first k attempts together. */
  function BackoffSum(k: nat): int {
    if k == 0 then 0 else BackoffSum(k - 1) + Backoff(k - 1)
  }

  lemma {:induction false} BackoffExact(k: nat)
    ensures Backoff(k) == if k == 0 then RETRY_INTERVAL else if k == 1 then 2 * RETRY_INTERVAL
                          else if k == 2 then 4 * RETRY_INTERVAL else MAX_BACKOFF
  {
    if k == 0 {
    } else {
      BackoffExact(k - 1);
    }
  }

  /** Doubling up to the cap is the next wait. */
  lemma NextBackoff(k: nat, next: int)
    requires var b := Backoff(k);
             next == if b >= MAX_BACKOFF then b else if 2 * b > MAX_BACKOFF then MAX_BACKOFF else 2 * b
    ensures next == Backoff(k + 1) >= RETRY_INTERVAL
  {
    BackoffExact(k);
    BackoffExact(k + 1);
  }

  lemma {:induction false} BackoffSumAtLeast(k: nat)
    ensures BackoffSum(k) >= k * RETRY_INTERVAL
    ensures k >= 3 ==> BackoffSum(k) == 35 * SECOND + (k - 3) * MAX_BACKOFF
  {
    if k == 0 {
    } else {
      BackoffExact(k - 1);
      BackoffSumAtLeast(k - 1);
      if k == 3 {
        BackoffExact(0);
        BackoffExact(1);
        assert BackoffSum(1) == Backoff(0) && BackoffSum(2) == BackoffSum(1) + Backoff(1);
      }
    }
  }

  /** The environment of one monitor: for each attempt, the jitter of the sleep before it, the
      time it takes and whether the gate opens. */
  datatype Weather = Weather(jitter: nat -> nat, took: nat -> nat, works: nat -> bool)

  /** What the clock shows when k attempts have been made. */
  function Clock(k: nat, start: int, weather: Weather): int {
    if k == 0 then start
    else Clock(k - 1, start, weather) + Backoff(k - 1) + weather.jitter(k - 1) + weather.took(k - 1)
  }

  lemma {:induction false} ClockAtLeast(k: nat, start: int, weather: Weather)
    ensures Clock(k, start, weather) >= start + BackoffSum(k)
  {
    if k == 0 {
    } else {
      ClockAtLeast(k - 1, start, weather);
    }
  }

  /** The monitor sat down to n attempts before the deadline, and all of them failed. */
  predicate Failed(n: nat, deadline: int, start: int, weather: Weather) {
    forall k :: 0 <= k < n ==> Clock(k, start, weather) <= deadline && !weather.works(k)
  }

  /** How a monitor that made n attempts ends: because the last one, begun before the deadline,
      worked after all others had failed; or because all failed and the deadline had passed. */
  predicate EndsWith(r: O.Record, r': O.Record, n: nat, start: int, weather: Weather) {
    if n > 0 && weather.works(n - 1) then
      && Failed(n - 1, r.deadline, start, weather) && Clock(n - 1, start, weather) <= r.deadline
      && r' == r.(state := O.Granted, attempts := r.attempts + n - 1)
    else
      && Failed(n, r.deadline, start, weather) && Clock(n, start, weather) > r.deadline
      && r' == r.(state := O.Expired, attempts := r.attempts + n)
  }

  lemma FailedMore(n: nat, deadline: int, start: int, weather: Weather)
    requires Failed(n, deadline, start, weather) && Clock(n, start, weather) <= deadline && !weather.works(n)
    ensures Failed(n + 1, deadline, start, weather)
  {
  }

  /** So a monitor makes at most one attempt for every 5 seconds of the window, and one more; and
      from the fourth on at most one for every 30 seconds. */
  lemma AttemptsBounded(r: O.Record, r': O.Record, n: nat, start: int, weather: Weather)
    requires EndsWith(r, r', n, start, weather)
    ensures start <= r.deadline ==> n <= (r.deadline - start) / RETRY_INTERVAL + 1
    ensures start > r.deadline ==> n == 0
    ensures n > 3 ==> n <= (r.deadline - start - 35 * SECOND) / MAX_BACKOFF + 4
  {
    if n > 0 {
      var k := n - 1;
      assert Clock(k, start, weather) <= r.deadline;
      ClockAtLeast(k, start, weather);
      BackoffSumAtLeast(k);
      DivBound(k, RETRY_INTERVAL, r.deadline - start);
      if n > 3 {
        DivBound(k - 3, MAX_BACKOFF, r.deadline - start - 35 * SECOND);
      }
    }
  }

  lemma DivBound(k: nat, d: int, n: int)
    requires d > 0 && k * d <= n
    ensures k <= n / d
  {
    assert n < (n / d + 1) * d;
    if k > n / d { Scales(n / d + 1, k, d); }
  }

  lemma Scales(a: int, b: int, d: int)
    requires a <= b && d > 0
    ensures a * d <= b * d
  {
  }

  /** The record after one attempt, and whether the monitor is done with it. */
  function Attempted(records: map<string, O.Record>, reference: string, opens: bool): (map<string, O.Record>, bool) {
    if reference !in records || records[reference].state != O.Owed || records[reference].processing then (records, true)
    else if opens then (records[reference := records[reference].(state := O.Granted)], true)
    else (records[reference := records[reference].(attempts := records[reference].attempts + 1)], false)
  }

  /** An uninterrupted attempt is a run of the lock regions of a monitor that has slept. */
  lemma AttemptIsARun(w: O.World, v: nat, reference: string, opens: bool)
    requires O.At(w, v) == O.Sleeping(reference)
    ensures var w1 := O.Step(w, O.Wake(v));
            var w2 := O.Step(w1, O.Apply(v, opens));
            var w3 := O.Step(w2, O.Finish(v));
            && w3.records == Attempted(w.records, reference, opens).0
            && O.At(w3, v) == if Attempted(w.records, reference, opens).1 then O.Idle else O.Checking(reference)
  {
  }

  /** Still owed, and nobody is applying it. */
  predicate IsFree(r: O.Record) {
    r.state == O.Owed && !r.processing
  }

  /** After n attempts that all failed, each begun before the deadline. */
  predicate Retried(before: map<string, O.Record>, after: map<string, O.Record>, reference: string, n: nat,
                    start: int, weather: Weather) {
    && reference in before && IsFree(before[reference])
    && var r := before[reference];
       after == before[reference := r.(attempts := r.attempts + n)] && Failed(n, r.deadline, start, weather)
  }

  lemma RetriedMore(before: map<string, O.Record>, after: map<string, O.Record>, reference: string, n: nat,
                    start: int, weather: Weather)
    requires Retried(before, after, reference, n, start, weather)
    requires Clock(n, start, weather) <= before[reference].deadline && !weather.works(n)
    ensures Retried(before, Attempted(after, reference, false).0, reference, n + 1, start, weather)
    ensures !Attempted(after, reference, false).1
  {
    FailedMore(n, before[reference].deadline, start, weather);
  }

  /** What a monitor leaves behind. */
  predicate Ends(before: map<string, O.Record>, after: map<string, O.Record>, reference: string, n: nat,
                 start: int, weather: Weather) {
    if reference in before && IsFree(before[reference])
    then reference in after && after == before[reference := after[reference]]
         && EndsWith(before[reference], after[reference], n, start, weather)
    else after == before && n == 0
  }

  lemma EndsGranted(before: map<string, O.Record>, after: map<string, O.Record>, reference: string, n: nat,
                    start: int, weather: Weather)
    requires Retried(before, after, reference, n, start, weather)
    requires Clock(n, start, weather) <= before[reference].deadline && weather.works(n)
    ensures Ends(before, Attempted(after, reference, true).0, reference, n + 1, start, weather)
  {
  }

  lemma EndsExpired(before: map<string, O.Record>, after: map<string, O.Record>, reference: string, n: nat,
                    start: int, weather: Weather)
    requires Retried(before, after, reference, n, start, weather)
    requires Clock(n, start, weather) > before[reference].deadline
    ensures Ends(before, after[reference := after[reference].(state := O.Expired)], reference, n, start, weather)
  {
    if n > 0 { assert !weather.works(n - 1); }
  }

  class OwedBook {
    var records: map<string, O.Record>
    var claims: nat

    constructor ()
      ensures records == map[] && claims == 0
    {
      records, claims := map[], 0;
    }

    /** Reports whether a monitor is to be started. */
    method RecordOwedGrant(reference: string, createdAt: int, metric: Metric, allotment: uint64)
      returns (started: bool)
      modifies this
      ensures var w := O.World(old(records), map[], old(claims), map[]);
              var w' := O.Recorded(w, reference, O.Deadline(createdAt, metric, allotment), 0);
              && records == w'.records && claims == w'.claims
              && (started <==> w' != w)
    {
      if reference == "" { return false; }
      if reference in records && records[reference].state == O.Owed { return false; }
      var window := if metric == Milliseconds then SignedWrap64(allotment * MILLISECOND) else O.BYTES_MAX_AGE;
      records := records[reference := O.Record(claims, O.Owed, false, createdAt + window, 0)];
      claims := claims + 1;
      return true;
    }

    method ExpireOwedGrant(reference: string)
      modifies this`records
      ensures records == if reference in old(records) && old(records)[reference].state == O.Owed
                         then old(records)[reference := old(records)[reference].(state := O.Expired)] else old(records)
    {
      if reference !in records || records[reference].state != O.Owed { return; }
      records := records[reference := records[reference].(state := O.Expired)];
    }

    /** One attempt: claim, apply, and note how it went. */
    method EnsureOwedGrantGranted(reference: string, opens: bool) returns (ok: bool)
      modifies this`records
      ensures (records, ok) == Attempted(old(records), reference, opens)
    {
      if reference !in records { return true; }
      if records[reference].state != O.Owed || records[reference].processing { return true; }
      records := records[reference := records[reference].(processing := true)];
      if !opens {
        if reference in records && records[reference].state == O.Owed {
          records := records[reference := records[reference].(processing := false,
                                                              attempts := records[reference].attempts + 1)];
        }
        assert records == Attempted(old(records), reference, opens).0;
        return false;
      }
      if reference in records {
        records := records[reference := records[reference].(state := O.Granted, processing := false)];
      }
      assert records == Attempted(old(records), reference, opens).0;
      return true;
    }

    /** Retries one claim with growing waits until it is applied or its window has passed. It
        always stops, and leaves the record granted exactly when its last attempt worked. A
        reference that is gone, settled or in work is left alone. */
    method MonitorOwedGrant(reference: string, start: int, weather: Weather) returns (attempts: nat)
      modifies this`records
      ensures Ends(old(records), records, reference, attempts, start, weather)
    {
      ghost var free := reference in records && IsFree(records[reference]);
      ghost var deadline0 := if free then records[reference].deadline else 0;
      var now, backoff := start, RETRY_INTERVAL;
      attempts := 0;
      while true
        invariant if free then Retried(old(records), records, reference, attempts, start, weather)
                  else records == old(records) && attempts == 0
        invariant backoff == Backoff(attempts) >= RETRY_INTERVAL
        invariant now == Clock(attempts, start, weather)
        decreases deadline0 - now
      {
        if reference !in records || !IsFree(records[reference]) { return; }
        var deadline := records[reference].deadline;
        if now > deadline {
          EndsExpired(old(records), records, reference, attempts, start, weather);
          ExpireOwedGrant(reference);
          return;
        }
        if weather.works(attempts) {
          EndsGranted(old(records), records, reference, attempts, start, weather);
        } else {
          RetriedMore(old(records), records, reference, attempts, start, weather);
        }
        now := now + backoff + weather.jitter(attempts);
        if backoff < MAX_BACKOFF {
          backoff := backoff * 2;
          if backoff > MAX_BACKOFF { backoff := MAX_BACKOFF; }
        }
        NextBackoff(attempts, backoff);
        var ok := EnsureOwedGrantGranted(reference, weather.works(attempts));
        now := now + weather.took(attempts);
        attempts := attempts + 1;
        if ok { return; }
      }
    }
  }
}
