/** The token buckets of internal/georatelimit/georatelimit.go, over real-valued seconds. */
module TokenBucket {
  import opened Wrappers

  /** Idle time, in seconds, after which `cleanup` drops a bucket. */
  const IDLE_SECONDS: real := 600.0

  datatype Limits = Limits(rps: int, burst: int)

  datatype Bucket = Bucket(tokens: real, lastUpdate: real, rps: real, burst: real)

  /** A call of `allow` reads the clock twice: for a new bucket, and for the refill. */
  datatype Event =
    | Allow(key: string, limits: Limits, created: real, now: real)
    | Cleanup(now: real)

  function NewBucket(limits: Limits, created: real): Bucket {
    Bucket(limits.burst as real, created, limits.rps as real, limits.burst as real)
  }

  /** Tokens earned in `elapsed` seconds. */
  function Gain(elapsed: real, rps: real): real {
    elapsed * rps
  }

  function Refill(b: Bucket, now: real): Bucket {
    var refilled := b.tokens + Gain(now - b.lastUpdate, b.rps);
    b.(tokens := if refilled > b.burst then b.burst else refilled, lastUpdate := now)
  }

  function Spend(b: Bucket): (Bucket, bool) {
    if b.tokens < 1.0 then (b, false) else (b.(tokens := b.tokens - 1.0), true)
  }

  predicate Idle(b: Bucket, now: real) {
    b.lastUpdate < now - IDLE_SECONDS
  }

  /** One call on the whole limiter. With `evict` off, `cleanup` does nothing. */
  function Step(m: map<string, Bucket>, e: Event, evict: bool): (map<string, Bucket>, bool) {
    match e
    case Allow(key, limits, created, now) =>
      var b := if key in m then m[key] else NewBucket(limits, created);
      var (b', ok) := Spend(Refill(b, now));
      (m[key := b'], ok)
    case Cleanup(now) =>
      (if evict then map k | k in m && !Idle(m[k], now) :: m[k] else m, false)
  }

  /** The answer given to each event of a run; a cleanup grants nothing. */
  ghost function Answers(m: map<string, Bucket>, run: seq<Event>, evict: bool): (r: seq<bool>)
    ensures |r| == |run|
    decreases |run|
  {
    if run == [] then [] else
      var (m', ok) := Step(m, run[0], evict);
      [ok] + Answers(m', run[1..], evict)
  }

  ghost function After(m: map<string, Bucket>, run: seq<Event>, evict: bool): map<string, Bucket>
    decreases |run|
  {
    if run == [] then m else After(Step(m, run[0], evict).0, run[1..], evict)
  }

  /** The answers of a run that concern one key, in place; everything else reads `false`. */
  ghost function AnswersFor(m: map<string, Bucket>, run: seq<Event>, evict: bool, key: string): (r: seq<bool>)
    ensures |r| == |run|
  {
    var all := Answers(m, run, evict);
    seq(|run|, i requires 0 <= i < |run| => IsCallOf(run[i], key) && all[i])
  }

  predicate IsCallOf(e: Event, key: string) {
    e.Allow? && e.key == key
  }

  function Granted(answers: seq<bool>): nat {
    if answers == [] then 0 else (if answers[0] then 1 else 0) + Granted(answers[1..])
  }

  function Begin(e: Event): real {
    if e.Allow? then e.created else e.now
  }

  /** The clock never goes backwards. */
  ghost predicate Timed(start: real, run: seq<Event>) {
    && (forall i :: 0 <= i < |run| ==> start <= Begin(run[i]) <= run[i].now)
    && (forall i, j :: 0 <= i < j < |run| ==> run[i].now <= Begin(run[j]))
  }

  ghost predicate FixedLimits(run: seq<Event>, key: string, limits: Limits) {
    forall i :: 0 <= i < |run| && IsCallOf(run[i], key) ==> run[i].limits == limits
  }

  function AtLeastZero(x: int): real { if x < 0 then 0.0 else x as real }

  lemma WindowOf(start: real, run: seq<Event>, key: string, limits: Limits, i: nat, j: nat)
    requires Timed(start, run) && FixedLimits(run, key, limits) && i <= j <= |run|
    ensures FixedLimits(run[i..j], key, limits)
    ensures Timed(if i == 0 then start else run[i - 1].now, run[i..j])
  {
  }

  function EndOf(start: real, run: seq<Event>): real {
    if run == [] then start else run[|run| - 1].now
  }

  // ----- One key seen alone -----

  function Lookup(m: map<string, Bucket>, key: string): Option<Bucket> {
    if key in m then Some(m[key]) else None
  }

  function Current(o: Option<Bucket>, e: Event): Bucket
    requires e.Allow?
  {
    if o.Some? then o.value else NewBucket(e.limits, e.created)
  }

  function KeyStep(o: Option<Bucket>, e: Event, evict: bool, key: string): (Option<Bucket>, bool) {
    if IsCallOf(e, key) then
      var (b', ok) := Spend(Refill(Current(o, e), e.now));
      (Some(b'), ok)
    else if e.Cleanup? && evict && o.Some? && Idle(o.value, e.now) then (None, false)
    else (o, false)
  }

  ghost function KeyAnswers(o: Option<Bucket>, run: seq<Event>, evict: bool, key: string): (r: seq<bool>)
    ensures |r| == |run|
    decreases |run|
  {
    if run == [] then [] else
      var (o', ok) := KeyStep(o, run[0], evict, key);
      [ok] + KeyAnswers(o', run[1..], evict, key)
  }

  ghost function KeyAfter(o: Option<Bucket>, run: seq<Event>, evict: bool, key: string): Option<Bucket>
    decreases |run|
  {
    if run == [] then o else KeyAfter(KeyStep(o, run[0], evict, key).0, run[1..], evict, key)
  }

  lemma StepProjects(m: map<string, Bucket>, e: Event, evict: bool, key: string)
    ensures Lookup(Step(m, e, evict).0, key) == KeyStep(Lookup(m, key), e, evict, key).0
    ensures (IsCallOf(e, key) && Step(m, e, evict).1) == KeyStep(Lookup(m, key), e, evict, key).1
  {
  }

  lemma AnswersForCons(m: map<string, Bucket>, run: seq<Event>, evict: bool, key: string)
    requires run != []
    ensures var (m', ok) := Step(m, run[0], evict);
      AnswersFor(m, run, evict, key) == [IsCallOf(run[0], key) && ok] + AnswersFor(m', run[1..], evict, key)
  {
    hide Step;
  }

  /** Keys do not influence each other: the answers for one key are those of its own bucket. */
  lemma {:induction false} KeysAreIndependent(m: map<string, Bucket>, run: seq<Event>, evict: bool, key: string)
    ensures AnswersFor(m, run, evict, key) == KeyAnswers(Lookup(m, key), run, evict, key)
    ensures Lookup(After(m, run, evict), key) == KeyAfter(Lookup(m, key), run, evict, key)
    decreases |run|
  {
    hide Step, KeyStep, Lookup, AnswersFor;
    if run == [] {
      assert AnswersFor(m, [], evict, key) == [];
    } else {
      var m' := Step(m, run[0], evict).0;
      AnswersForCons(m, run, evict, key);
      StepProjects(m, run[0], evict, key);
      KeysAreIndependent(m', run[1..], evict, key);
    }
  }

  lemma {:induction false} KeyAnswersConcat(o: Option<Bucket>, a: seq<Event>, b: seq<Event>, evict: bool, key: string)
    ensures KeyAnswers(o, a + b, evict, key)
         == KeyAnswers(o, a, evict, key) + KeyAnswers(KeyAfter(o, a, evict, key), b, evict, key)
    decreases |a|
  {
    hide KeyStep;
    if a == [] {
      assert a + b == b;
    } else {
      assert (a + b)[1..] == a[1..] + b;
      KeyAnswersConcat(KeyStep(o, a[0], evict, key).0, a[1..], b, evict, key);
    }
  }

  lemma KeyAnswersWindow(o: Option<Bucket>, run: seq<Event>, i: nat, j: nat, evict: bool, key: string)
    requires i <= j <= |run|
    ensures KeyAnswers(o, run, evict, key)[i..j] == KeyAnswers(KeyAfter(o, run[..i], evict, key), run[i..j], evict, key)
  {
    hide KeyStep, KeyAnswers, KeyAfter;
    assert run == run[..i] + run[i..] && run[i..] == run[i..j] + run[j..];
    KeyAnswersConcat(o, run[..i], run[i..], evict, key);
    KeyAnswersConcat(KeyAfter(o, run[..i], evict, key), run[i..j], run[j..], evict, key);
  }

  // ----- The sliding-window bound -----

  lemma Scale(x: real, y: real, r: real)
    requires x <= y && r >= 0.0
    ensures x * r <= y * r
  {
    assert (y - x) * r >= 0.0;
  }

  lemma RefillNow(b: Bucket, now: real)
    requires b.lastUpdate == now && b.tokens <= b.burst
    ensures Refill(b, now) == b
  {
    assert (now - b.lastUpdate) * b.rps == 0.0;
  }

  lemma RefillNeverTakes(b: Bucket, now: real)
    requires b.rps >= 0.0 && b.lastUpdate <= now && b.tokens <= b.burst
    ensures b.tokens <= Refill(b, now).tokens <= b.burst
  {
    Scale(0.0, now - b.lastUpdate, b.rps);
  }

  /** What a rate earns over a stretch of time; a negative rate earns nothing. */
  function Income(limits: Limits, from: real, to: real): real {
    AtLeastZero(limits.rps) * (to - from)
  }

  lemma IncomeAdds(limits: Limits, a: real, b: real, c: real)
    ensures Income(limits, a, a) == 0.0
    ensures Income(limits, a, c) == Income(limits, a, b) + Income(limits, b, c)
  {
  }

  ghost predicate Holds(o: Option<Bucket>, limits: Limits, now: real) {
    o.Some? ==> o.value.rps == limits.rps as real && o.value.burst == limits.burst as real
                && o.value.tokens <= o.value.burst && o.value.lastUpdate <= now
  }

  /** What a key can spend at time `now`. */
  function Available(o: Option<Bucket>, limits: Limits, now: real): (r: real)
    ensures r >= 0.0
  {
    var t := if o.Some? then Refill(o.value, now).tokens else limits.burst as real;
    if t < 0.0 then 0.0 else t
  }

  lemma GainAdds(rps: real, a: real, b: real)
    ensures Gain(a + b, rps) == Gain(a, rps) + Gain(b, rps)
  {
  }

  lemma GainWithinIncome(limits: Limits, now: real, later: real)
    requires now <= later
    ensures Gain(later - now, limits.rps as real) <= Income(limits, now, later)
    ensures Income(limits, now, later) >= 0.0
  {
    Scale(0.0, later - now, AtLeastZero(limits.rps));
    if limits.rps < 0 {
      Scale(0.0, later - now, -(limits.rps as real));
    }
  }

  lemma AvailableGrows(o: Option<Bucket>, limits: Limits, now: real, later: real)
    requires Holds(o, limits, now) && now <= later
    ensures Available(o, limits, later)
         <= Available(o, limits, now) + Income(limits, now, later)
  {
    hide Gain, Income;
    GainWithinIncome(limits, now, later);
    if o.Some? {
      GainAdds(o.value.rps, now - o.value.lastUpdate, later - now);
    }
  }

  /** A granted call is paid for out of what was available. */
  lemma StepPays(o: Option<Bucket>, e: Event, evict: bool, key: string, limits: Limits, start: real)
    requires Holds(o, limits, start) && start <= Begin(e) <= e.now
    requires IsCallOf(e, key) ==> e.limits == limits
    ensures var (o', ok) := KeyStep(o, e, evict, key);
      && Holds(o', limits, e.now)
      && (!evict ==> (if ok then 1.0 else 0.0) + Available(o', limits, e.now) <= Available(o, limits, e.now))
  {
    if IsCallOf(e, key) {
      var b' := KeyStep(o, e, evict, key).0.value;
      RefillNow(b', e.now);
      assert o.Some? ==> Current(o, e) == o.value;
    }
  }

  lemma {:induction false} SpendingBound(o: Option<Bucket>, run: seq<Event>, key: string, limits: Limits, start: real)
    requires Holds(o, limits, start) && Timed(start, run) && FixedLimits(run, key, limits)
    ensures Granted(KeyAnswers(o, run, false, key)) as real
         <= Available(o, limits, start) + Income(limits, start, EndOf(start, run))
    decreases |run|
  {
    hide Available, KeyStep, Income;
    IncomeAdds(limits, start, start, start);
    if run != [] {
      var t, end := run[0].now, EndOf(start, run);
      var (o', ok) := KeyStep(o, run[0], false, key);
      StepPays(o, run[0], false, key, limits, start);
      WindowOf(start, run, key, limits, 1, |run|);
      assert run[1..] == run[1..|run|];
      SpendingBound(o', run[1..], key, limits, t);
      AvailableGrows(o, limits, start, t);
      IncomeAdds(limits, start, t, end);
      var tail := KeyAnswers(o', run[1..], false, key);
      assert KeyAnswers(o, run, false, key) == [ok] + tail;
      assert Granted([ok] + tail) == (if ok then 1 else 0) + Granted(tail);
    }
  }

  lemma {:induction false} HoldsAfter(o: Option<Bucket>, run: seq<Event>, evict: bool, key: string, limits: Limits, start: real)
    requires Holds(o, limits, start) && Timed(start, run) && FixedLimits(run, key, limits)
    ensures Holds(KeyAfter(o, run, evict, key), limits, EndOf(start, run))
    decreases |run|
  {
    if run != [] {
      StepPays(o, run[0], evict, key, limits, start);
      HoldsAfter(KeyStep(o, run[0], evict, key).0, run[1..], evict, key, limits, run[0].now);
    }
  }

  lemma FirstIsWithinBurst(o: Option<Bucket>, run: seq<Event>, key: string, limits: Limits, start: real, i: nat, j: nat)
    requires Timed(start, run) && FixedLimits(run, key, limits) && i < j <= |run|
    requires Holds(o, limits, if i == 0 then start else run[i - 1].now)
    ensures Granted(KeyAnswers(o, run[i..j], false, key)) as real
         <= AtLeastZero(limits.burst) + Income(limits, run[i].now, run[j - 1].now)
  {
    hide KeyStep, Income, Available, AtLeastZero, Granted;
    var before := if i == 0 then start else run[i - 1].now;
    AvailableWithinBurst(o, limits, run[i].now);
    var (o', ok) := KeyStep(o, run[i], false, key);
    StepPays(o, run[i], false, key, limits, before);
    WindowOf(start, run, key, limits, i + 1, j);
    SpendingBound(o', run[i + 1..j], key, limits, run[i].now);
    var tail := KeyAnswers(o', run[i + 1..j], false, key);
    assert run[i..j][1..] == run[i + 1..j];
    assert KeyAnswers(o, run[i..j], false, key) == [ok] + tail;
    GrantedCons(ok, tail);
  }

  lemma AvailableWithinBurst(o: Option<Bucket>, limits: Limits, now: real)
    requires o.Some? ==> o.value.burst == limits.burst as real
    ensures Available(o, limits, now) <= AtLeastZero(limits.burst)
  {
    hide Gain;
  }

  lemma GrantedCons(ok: bool, tail: seq<bool>)
    ensures Granted([ok] + tail) == (if ok then 1 else 0) + Granted(tail)
  {
    assert ([ok] + tail)[1..] == tail;
  }

  /**
   * In every window of every run with fixed limits the calls granted to a key number at most
   * burst + rps * (length of the window); a negative rate or burst counts as zero.
   */
  lemma WindowBound(run: seq<Event>, key: string, limits: Limits, start: real, i: nat, j: nat)
    requires Timed(start, run) && FixedLimits(run, key, limits) && i < j <= |run|
    ensures Granted(AnswersFor(map[], run, false, key)[i..j]) as real
         <= AtLeastZero(limits.burst) + Income(limits, run[i].now, run[j - 1].now)
  {
    KeysAreIndependent(map[], run, false, key);
    KeyAnswersWindow(None, run, i, j, false, key);
    WindowOf(start, run, key, limits, 0, i);
    assert run[..i] == run[0..i];
    HoldsAfter(None, run[..i], false, key, limits, start);
    FirstIsWithinBurst(KeyAfter(None, run[..i], false, key), run, key, limits, start, i, j);
  }

  /** With limits that are not negative, no run leaves a bucket outside [0, burst]. */
  lemma {:induction false} TokensInRange(o: Option<Bucket>, run: seq<Event>, evict: bool, key: string, limits: Limits, start: real)
    requires limits.rps >= 0 && limits.burst >= 0
    requires Holds(o, limits, start) && (o.Some? ==> o.value.tokens >= 0.0)
    requires Timed(start, run) && FixedLimits(run, key, limits)
    ensures var o' := KeyAfter(o, run, evict, key);
      o'.Some? ==> 0.0 <= o'.value.tokens <= o'.value.burst == limits.burst as real
    decreases |run|
  {
    if run != [] {
      var o' := KeyStep(o, run[0], evict, key).0;
      StepPays(o, run[0], evict, key, limits, start);
      if IsCallOf(run[0], key) {
        RefillNeverTakes(Current(o, run[0]), run[0].now);
      }
      TokensInRange(o', run[1..], evict, key, limits, run[0].now);
    }
  }

  // ----- A steady caller -----

  /** At least 1/rps apart. */
  predicate FarApart(from: real, to: real, rps: int) {
    Gain(to - from, rps as real) >= 1.0
  }

  ghost predicate SpacedAfter(last: real, run: seq<Event>, key: string, rps: int) {
    && (forall i :: 0 <= i < |run| && IsCallOf(run[i], key) ==> FarApart(last, run[i].now, rps))
    && Spaced(run, key, rps)
  }

  /** Calls for the key are at least 1/rps apart. */
  ghost predicate Spaced(run: seq<Event>, key: string, rps: int) {
    forall i, j :: 0 <= i < j < |run| && IsCallOf(run[i], key) && IsCallOf(run[j], key)
      ==> FarApart(run[i].now, run[j].now, rps)
  }

  /** The answers of a limiter that grants every call for the key. */
  ghost function CallsOf(run: seq<Event>, key: string): seq<bool> {
    seq(|run|, i requires 0 <= i < |run| => IsCallOf(run[i], key))
  }

  lemma SpacedTail(run: seq<Event>, key: string, rps: int)
    requires run != [] && Spaced(run, key, rps)
    ensures Spaced(run[1..], key, rps)
    ensures IsCallOf(run[0], key) ==> SpacedAfter(run[0].now, run[1..], key, rps)
  {
  }

  lemma SteadyStep(o: Option<Bucket>, e: Event, evict: bool, key: string, limits: Limits, start: real)
    requires limits.rps > 0 && limits.burst >= 1
    requires Holds(o, limits, start) && start <= Begin(e) <= e.now
    requires IsCallOf(e, key) ==> e.limits == limits
    requires o.Some? ==> o.value.tokens >= 0.0
    requires o.Some? && IsCallOf(e, key) ==> FarApart(o.value.lastUpdate, e.now, limits.rps)
    ensures var (o', ok) := KeyStep(o, e, evict, key);
      && (IsCallOf(e, key) ==> o'.Some? && o'.value.lastUpdate == e.now)
      && ok == IsCallOf(e, key)
      && (!IsCallOf(e, key) ==> o' == o || o' == None)
      && (o'.Some? ==> o'.value.tokens >= 0.0)
  {
    if IsCallOf(e, key) {
      RefillNeverTakes(Current(o, e), e.now);
      hide Gain;
    }
  }

  lemma {:induction false} SteadyKey(o: Option<Bucket>, run: seq<Event>, evict: bool, key: string, limits: Limits, start: real)
    requires limits.rps > 0 && limits.burst >= 1
    requires Holds(o, limits, start) && Timed(start, run) && FixedLimits(run, key, limits) && Spaced(run, key, limits.rps)
    requires o.Some? ==> o.value.tokens >= 0.0 && SpacedAfter(o.value.lastUpdate, run, key, limits.rps)
    ensures KeyAnswers(o, run, evict, key) == CallsOf(run, key)
    decreases |run|
  {
    hide KeyStep, Current, FarApart;
    if run != [] {
      var e := run[0];
      var (o', ok) := KeyStep(o, e, evict, key);
      StepPays(o, e, evict, key, limits, start);
      SteadyStep(o, e, evict, key, limits, start);
      SpacedTail(run, key, limits.rps);
      WindowOf(start, run, key, limits, 1, |run|);
      assert run[1..] == run[1..|run|];
      SteadyKey(o', run[1..], evict, key, limits, e.now);
      assert CallsOf(run, key) == [IsCallOf(e, key)] + CallsOf(run[1..], key);
    }
  }

  /** A caller whose calls are at least 1/rps apart is never refused, whatever else runs and whatever is evicted. */
  lemma SteadyCallerNeverRefused(run: seq<Event>, evict: bool, key: string, limits: Limits, start: real)
    requires limits.rps > 0 && limits.burst >= 1
    requires Timed(start, run) && FixedLimits(run, key, limits) && Spaced(run, key, limits.rps)
    ensures AnswersFor(map[], run, evict, key) == CallsOf(run, key)
  {
    KeysAreIndependent(map[], run, evict, key);
    SteadyKey(None, run, evict, key, limits, start);
  }

  // ----- Eviction -----

  /** The limits for which ten idle minutes refill any bucket that can grant a call at all. */
  predicate RefillsWhileIdle(limits: Limits) {
    limits.burst < 1 || limits.burst <= 600 * limits.rps
  }

  /** `kept` is the bucket of a limiter that never evicts, `o` that of one that does. */
  ghost predicate Shadows(o: Option<Bucket>, kept: Option<Bucket>, limits: Limits, now: real) {
    && Holds(o, limits, now) && Holds(kept, limits, now)
    && (limits.burst >= 1 ==>
          && (kept.Some? ==> kept.value.tokens >= 0.0)
          && (o == kept || (o.None? && kept.Some? && Idle(kept.value, now))))
  }

  lemma RefillWhenIdle(b: Bucket, limits: Limits, now: real)
    requires b.rps == limits.rps as real && b.burst == limits.burst as real
    requires b.tokens >= 0.0 && 1 <= limits.burst <= 600 * limits.rps && Idle(b, now)
    ensures Refill(b, now).tokens == b.burst
  {
    var gain := (now - b.lastUpdate) * b.rps;
    Scale(600.0, now - b.lastUpdate, b.rps);
    assert limits.burst as real <= (600 * limits.rps) as real == 600.0 * limits.rps as real;
    assert gain >= b.burst;
    assert Refill(b, now).tokens == if b.tokens + gain > b.burst then b.burst else b.tokens + gain;
  }

  lemma ShadowStep(o: Option<Bucket>, kept: Option<Bucket>, e: Event, key: string, limits: Limits, start: real)
    requires RefillsWhileIdle(limits) && Shadows(o, kept, limits, start) && start <= Begin(e) <= e.now
    requires IsCallOf(e, key) ==> e.limits == limits
    ensures KeyStep(o, e, true, key).1 == KeyStep(kept, e, false, key).1
    ensures Shadows(KeyStep(o, e, true, key).0, KeyStep(kept, e, false, key).0, limits, e.now)
  {
    StepPays(o, e, true, key, limits, start);
    StepPays(kept, e, false, key, limits, start);
    if IsCallOf(e, key) && limits.burst >= 1 {
      RefillNeverTakes(Current(o, e), e.now);
      RefillNeverTakes(Current(kept, e), e.now);
      if o != kept {
        RefillWhenIdle(kept.value, limits, e.now);
      }
    }
  }

  lemma {:induction false} ShadowRun(o: Option<Bucket>, kept: Option<Bucket>, run: seq<Event>, key: string, limits: Limits, start: real)
    requires RefillsWhileIdle(limits) && Shadows(o, kept, limits, start)
    requires Timed(start, run) && FixedLimits(run, key, limits)
    ensures KeyAnswers(o, run, true, key) == KeyAnswers(kept, run, false, key)
    decreases |run|
  {
    if run != [] {
      ShadowStep(o, kept, run[0], key, limits, start);
      ShadowRun(KeyStep(o, run[0], true, key).0, KeyStep(kept, run[0], false, key).0, run[1..], key, limits, run[0].now);
    }
  }

  /** Every answer to a key with these limits is that of a limiter that never evicts. */
  ghost predicate EvictionInvisible(limits: Limits) {
    forall key: string, run: seq<Event>, start: real ::
      Timed(start, run) && FixedLimits(run, key, limits)
      ==> AnswersFor(map[], run, true, key) == AnswersFor(map[], run, false, key)
  }

  lemma EvictionInvisibleTo(run: seq<Event>, key: string, limits: Limits, start: real)
    requires RefillsWhileIdle(limits) && Timed(start, run) && FixedLimits(run, key, limits)
    ensures AnswersFor(map[], run, true, key) == AnswersFor(map[], run, false, key)
  {
    KeysAreIndependent(map[], run, true, key);
    KeysAreIndependent(map[], run, false, key);
    ShadowRun(None, None, run, key, limits, start);
  }

  /** The limiter as it runs, cleanups included, keeps the window bound. */
  lemma WindowBoundWithEviction(run: seq<Event>, key: string, limits: Limits, start: real, i: nat, j: nat)
    requires RefillsWhileIdle(limits)
    requires Timed(start, run) && FixedLimits(run, key, limits) && i < j <= |run|
    ensures Granted(AnswersFor(map[], run, true, key)[i..j]) as real
         <= AtLeastZero(limits.burst) + Income(limits, run[i].now, run[j - 1].now)
  {
    EvictionInvisibleTo(run, key, limits, start);
    WindowBound(run, key, limits, start, i, j);
  }

  // ----- A run on which eviction shows, for all other limits -----

  ghost function Burst(key: string, limits: Limits, n: nat, t: real): (r: seq<Event>)
    ensures |r| == n && forall i :: 0 <= i < n ==> r[i] == Allow(key, limits, t, t)
  {
    seq(n, i => Allow(key, limits, t, t))
  }

  lemma {:induction false} BurstGranted(o: Option<Bucket>, key: string, limits: Limits, n: nat, t: real)
    requires n <= limits.burst
    requires o.None? || (Holds(o, limits, t) && o.value.lastUpdate == t && o.value.tokens >= n as real)
    ensures var o' := KeyAfter(o, Burst(key, limits, n, t), true, key);
      && KeyAnswers(o, Burst(key, limits, n, t), true, key) == seq(n, i => true)
      && (n > 0 || o.Some? ==> o'.Some? && o'.value.lastUpdate == t)
    decreases n
  {
    var calls := Burst(key, limits, n, t);
    if n > 0 {
      var (o', ok) := KeyStep(o, calls[0], true, key);
      RefillNow(Current(o, calls[0]), t);
      assert ok && o'.Some? && Holds(o', limits, t) && o'.value.lastUpdate == t && o'.value.tokens >= (n - 1) as real;
      hide KeyStep, Holds;
      BurstGranted(o', key, limits, n - 1, t);
      assert calls[1..] == Burst(key, limits, n - 1, t);
    }
  }

  lemma {:induction false} GrantedAppend(a: seq<bool>, b: seq<bool>)
    ensures Granted(a + b) == Granted(a) + Granted(b)
  {
    if a == [] { assert a + b == b; } else {
      assert (a + b)[1..] == a[1..] + b;
      GrantedAppend(a[1..], b);
    }
  }

  lemma {:induction false} GrantedAll(n: nat)
    ensures Granted(seq(n, i => true)) == n
  {
    if n > 0 {
      assert seq(n, i => true)[1..] == seq(n - 1, i => true);
      GrantedAll(n - 1);
    }
  }

  /** A moment more than ten minutes later at which the rate alone has not yet refilled the burst. */
  function TooSoon(limits: Limits): real {
    if limits.rps <= 0 then 601.0 else (IDLE_SECONDS + limits.burst as real / limits.rps as real) / 2.0
  }

  lemma TooSoonIsTooSoon(limits: Limits)
    requires !RefillsWhileIdle(limits)
    ensures TooSoon(limits) > IDLE_SECONDS
    ensures Available(None, limits, 0.0) + Income(limits, 0.0, TooSoon(limits)) < (2 * limits.burst) as real
  {
    assert Income(limits, 0.0, TooSoon(limits)) == AtLeastZero(limits.rps) * TooSoon(limits);
    if limits.rps > 0 {
      var r, n, q := limits.rps as real, limits.burst as real, limits.burst as real / limits.rps as real;
      assert q * r == n;
      if q <= IDLE_SECONDS {
        Scale(q, IDLE_SECONDS, r);
        assert false;
      }
      assert r * ((IDLE_SECONDS + q) / 2.0) == (r * IDLE_SECONDS + r * q) / 2.0;
    }
  }

  /** Spend the burst, wait until just after the eviction, and spend it again. */
  ghost function TwoBursts(key: string, limits: Limits, n: nat, t: real): seq<Event> {
    Burst(key, limits, n, 0.0) + ([Cleanup(t)] + Burst(key, limits, n, t))
  }

  lemma TwoBurstsGranted(key: string, limits: Limits, n: nat, t: real)
    requires n == limits.burst && n >= 1 && t > IDLE_SECONDS
    ensures Granted(KeyAnswers(None, TwoBursts(key, limits, n, t), true, key)) == 2 * n
  {
    var first, second, all := Burst(key, limits, n, 0.0), Burst(key, limits, n, t), seq(n, i => true);
    BurstGranted(None, key, limits, n, 0.0);
    BurstGranted(None, key, limits, n, t);
    var o := KeyAfter(None, first, true, key);
    assert KeyStep(o, Cleanup(t), true, key) == (None, false);
    KeyAnswersConcat(None, first, [Cleanup(t)] + second, true, key);
    assert ([Cleanup(t)] + second)[1..] == second;
    GrantedAll(n);
    GrantedAppend(all, [false] + all);
    GrantedAppend([false], all);
  }

  lemma EvictionShows(key: string, limits: Limits) returns (run: seq<Event>)
    requires !RefillsWhileIdle(limits)
    ensures Timed(0.0, run) && FixedLimits(run, key, limits)
    ensures AnswersFor(map[], run, true, key) != AnswersFor(map[], run, false, key)
  {
    hide KeyAnswers, TooSoon, Income, Available, AnswersFor;
    var n: nat, t := limits.burst, TooSoon(limits);
    TooSoonIsTooSoon(limits);
    run := TwoBursts(key, limits, n, t);
    KeysAreIndependent(map[], run, true, key);
    KeysAreIndependent(map[], run, false, key);
    TwoBurstsGranted(key, limits, n, t);
    assert run[|run| - 1].now == t;
    SpendingBound(None, run, key, limits, 0.0);
  }

  /** Eviction is invisible exactly when ten idle minutes refill the bucket, or the key is never granted anything. */
  lemma EvictionInvisibleIff(limits: Limits)
    ensures EvictionInvisible(limits) <==> RefillsWhileIdle(limits)
  {
    if RefillsWhileIdle(limits) {
      forall key: string, run: seq<Event>, start: real | Timed(start, run) && FixedLimits(run, key, limits)
        ensures AnswersFor(map[], run, true, key) == AnswersFor(map[], run, false, key)
      {
        EvictionInvisibleTo(run, key, limits, start);
      }
    } else {
      var run := EvictionShows("", limits);
    }
  }

  // ----- The limiter's objects -----

  class RateLimiter {
    var tokens: real
    var lastUpdate: real
    const rps: real
    const burst: real

    constructor (limits: Limits, created: real)
      ensures View() == NewBucket(limits, created)
    {
      tokens, lastUpdate := limits.burst as real, created;
      rps, burst := limits.rps as real, limits.burst as real;
    }

    ghost function View(): Bucket
      reads this
    {
      Bucket(tokens, lastUpdate, rps, burst)
    }

    /** The part of `allow` that holds the bucket's own lock. */
    method Take(now: real) returns (ok: bool)
      modifies this
      ensures (View(), ok) == Spend(Refill(old(View()), now))
    {
      hide Gain;
      var elapsed := now - lastUpdate;
      tokens := tokens + Gain(elapsed, rps);
      if tokens > burst {
        tokens := burst;
      }
      lastUpdate := now;
      if tokens < 1.0 {
        return false;
      }
      tokens := tokens - 1.0;
      return true;
    }
  }

  class GeoRateLimiter {
    var limiters: map<string, RateLimiter>

    constructor ()
      ensures Valid() && View() == map[]
    {
      limiters := map[];
    }

    ghost predicate Valid()
      reads this
    {
      forall k1, k2 :: k1 in limiters && k2 in limiters && k1 != k2 ==> limiters[k1] != limiters[k2]
    }

    ghost function View(): map<string, Bucket>
      reads this, limiters.Values
    {
      map k | k in limiters :: limiters[k].View()
    }

    method Allow(key: string, limits: Limits, created: real, now: real) returns (ok: bool)
      requires Valid()
      modifies this, limiters.Values
      ensures Valid() && fresh(limiters.Values - old(limiters.Values))
      ensures (View(), ok) == Step(old(View()), Event.Allow(key, limits, created, now), true)
    {
      var limiter: RateLimiter;
      if key in limiters {
        limiter := limiters[key];
      } else {
        limiter := new RateLimiter(limits, created);
        limiters := limiters[key := limiter];
      }
      assert limiter == limiters[key];
      ok := limiter.Take(now);
      assert View() == old(View())[key := limiter.View()];
    }

    method Cleanup(now: real)
      requires Valid()
      modifies this
      ensures Valid() && limiters.Values <= old(limiters.Values)
      ensures View() == Step(old(View()), Event.Cleanup(now), true).0
      ensures forall k :: k in old(limiters) ==>
        (k in limiters <==> old(limiters[k].lastUpdate) >= now - 600.0) && (k in limiters ==> limiters[k] == old(limiters[k]))
    {
      var threshold := now - IDLE_SECONDS;
      var todo := limiters.Keys;
      while todo != {}
        invariant todo <= limiters.Keys <= old(limiters).Keys
        invariant forall k :: k in limiters ==> limiters[k] == old(limiters)[k]
        invariant forall k :: k in old(limiters) ==>
          (k in limiters <==> k in todo || !(old(limiters)[k].lastUpdate < threshold))
        decreases |todo|
      {
        var key :| key in todo;
        if limiters[key].lastUpdate < threshold {
          limiters := limiters - {key};
        }
        todo := todo - {key};
      }
    }
  }
}
