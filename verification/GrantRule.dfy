/** Exactly which calls of `allow` in internal/georatelimit/georatelimit.go are granted, in terms of answers and times alone. */
module GrantRule {
  import opened TokenBucket
  import opened Wrappers

  /** The first call of the key has these limits; its bucket keeps them, whatever later calls pass. */
  ghost predicate OpensWith(run: seq<Event>, key: string, limits: Limits) {
    forall i :: 0 <= i < |run| && IsCallOf(run[i], key) ==> run[i].limits == limits || CalledBefore(run, key, i)
  }

  ghost predicate CalledBefore(run: seq<Event>, key: string, n: nat)
    requires n <= |run|
  {
    exists i :: 0 <= i < n && IsCallOf(run[i], key)
  }

  /** What the calls since call `i` have left, at time `t`, of a full bucket at call `i` and the income since. */
  ghost function Left(run: seq<Event>, answers: seq<bool>, limits: Limits, i: nat, n: nat, t: real): real
    requires i < |run| && i <= n <= |answers|
  {
    limits.burst as real + Gain(t - run[i].now, limits.rps as real) - Granted(answers[i..n]) as real
  }

  lemma LeftLater(run: seq<Event>, answers: seq<bool>, limits: Limits, i: nat, n: nat, t: real, later: real)
    requires i < |run| && i <= n <= |answers|
    ensures Left(run, answers, limits, i, n, later) == Left(run, answers, limits, i, n, t) + Gain(later - t, limits.rps as real)
  {
    GainAdds(limits.rps as real, t - run[i].now, later - t);
    hide Gain, Granted;
  }

  lemma LeftNext(run: seq<Event>, answers: seq<bool>, limits: Limits, i: nat, n: nat, t: real)
    requires i < |run| && i <= n < |answers|
    ensures Left(run, answers, limits, i, n + 1, t) == Left(run, answers, limits, i, n, t) - (if answers[n] then 1.0 else 0.0)
  {
    assert answers[i..n + 1] == answers[i..n] + [answers[n]];
    GrantedAppend(answers[i..n], [answers[n]]);
    GrantedCons(answers[n], []);
    hide Gain;
  }

  /** The bucket holds the least of what any call of the key has left; before the first call there is no bucket. */
  ghost predicate LevelAt(run: seq<Event>, answers: seq<bool>, key: string, limits: Limits, n: nat, o: Option<Bucket>)
    requires n <= |run| == |answers|
  {
    if !CalledBefore(run, key, n) then o.None? else
      && o.Some? && o.value.rps == limits.rps as real && o.value.burst == limits.burst as real
      && (forall i :: 0 <= i < n && IsCallOf(run[i], key) ==>
            o.value.tokens <= Left(run, answers, limits, i, n, o.value.lastUpdate))
      && (exists i :: 0 <= i < n && IsCallOf(run[i], key)
                      && o.value.tokens == Left(run, answers, limits, i, n, o.value.lastUpdate))
  }

  /** Every call of the key up to `n`, this one included, can afford one more. */
  ghost predicate Affordable(run: seq<Event>, answers: seq<bool>, key: string, limits: Limits, n: nat)
    requires n < |run| == |answers|
  {
    forall i :: 0 <= i <= n && IsCallOf(run[i], key) ==> Left(run, answers, limits, i, n, run[n].now) >= 1.0
  }

  lemma {:induction false} KeyAfterConcat(o: Option<Bucket>, a: seq<Event>, b: seq<Event>, evict: bool, key: string)
    ensures KeyAfter(o, a + b, evict, key) == KeyAfter(KeyAfter(o, a, evict, key), b, evict, key)
    decreases |a|
  {
    hide KeyStep;
    if a == [] {
      assert a + b == b;
    } else {
      assert (a + b)[1..] == a[1..] + b;
      KeyAfterConcat(KeyStep(o, a[0], evict, key).0, a[1..], b, evict, key);
    }
  }

  lemma StepAt(run: seq<Event>, evict: bool, key: string, n: nat)
    requires n < |run|
    ensures var o := KeyAfter(None, run[..n], evict, key);
      && KeyAnswers(None, run, evict, key)[n] == KeyStep(o, run[n], evict, key).1
      && KeyAfter(None, run[..n + 1], evict, key) == KeyStep(o, run[n], evict, key).0
  {
    hide KeyStep;
    assert run[..n + 1] == run[..n] + [run[n]];
    KeyAfterConcat(None, run[..n], [run[n]], evict, key);
    KeyAnswersWindow(None, run, n, n + 1, evict, key);
    assert run[n..n + 1] == [run[n]] && [run[n]][1..] == [];
    var o := KeyAfter(None, run[..n], evict, key);
    assert KeyAnswers(o, [run[n]], evict, key)[0] == KeyStep(o, run[n], evict, key).1;
    assert KeyAnswers(None, run, evict, key)[n] == KeyAnswers(None, run, evict, key)[n..n + 1][0];
  }

  /** After the refill of call `n` the bucket holds the least of what any call has left, this one included. */
  lemma RefillLevel(run: seq<Event>, answers: seq<bool>, key: string, limits: Limits, n: nat, o: Option<Bucket>)
    requires n < |run| == |answers| && IsCallOf(run[n], key) && LevelAt(run, answers, key, limits, n, o)
    requires limits.rps >= 0 && OpensWith(run, key, limits) && run[n].created <= run[n].now
    ensures var b := Refill(Current(o, run[n]), run[n].now);
      && b.rps == limits.rps as real && b.burst == limits.burst as real && b.lastUpdate == run[n].now
      && (forall i :: 0 <= i <= n && IsCallOf(run[i], key) ==> b.tokens <= Left(run, answers, limits, i, n, run[n].now))
      && (exists i :: 0 <= i <= n && IsCallOf(run[i], key) && b.tokens == Left(run, answers, limits, i, n, run[n].now))
  {
    var now := run[n].now;
    var b := Refill(Current(o, run[n]), now);
    FullAt(run, answers, limits, n);
    if CalledBefore(run, key, n) {
      RefillsAll(run, answers, key, limits, n, o);
    } else {
      assert run[n].limits == limits;
      Scale(0.0, now - run[n].created, limits.rps as real);
    }
  }

  lemma FullAt(run: seq<Event>, answers: seq<bool>, limits: Limits, n: nat)
    requires n < |run| && n <= |answers|
    ensures Left(run, answers, limits, n, n, run[n].now) == limits.burst as real
  {
    assert answers[n..n] == [];
  }

  lemma RefillsAll(run: seq<Event>, answers: seq<bool>, key: string, limits: Limits, n: nat, o: Option<Bucket>)
    requires n < |run| == |answers| && IsCallOf(run[n], key) && LevelAt(run, answers, key, limits, n, o)
    requires CalledBefore(run, key, n)
    ensures var b := Refill(o.value, run[n].now);
      && b.rps == limits.rps as real && b.burst == limits.burst as real && b.lastUpdate == run[n].now
      && (forall i :: 0 <= i <= n && IsCallOf(run[i], key) ==> b.tokens <= Left(run, answers, limits, i, n, run[n].now))
      && (exists i :: 0 <= i <= n && IsCallOf(run[i], key) && b.tokens == Left(run, answers, limits, i, n, run[n].now))
  {
    var now, last := run[n].now, o.value.lastUpdate;
    FullAt(run, answers, limits, n);
    forall i | 0 <= i < n
      ensures Left(run, answers, limits, i, n, now) == Left(run, answers, limits, i, n, last) + Gain(now - last, limits.rps as real)
    {
      LeftLater(run, answers, limits, i, n, last, now);
    }
    hide Left, Gain;
    var b := Refill(o.value, now);
    var k :| 0 <= k < n && IsCallOf(run[k], key) && o.value.tokens == Left(run, answers, limits, k, n, last);
    assert b.tokens == Left(run, answers, limits, k, n, now) || b.tokens == Left(run, answers, limits, n, n, now);
  }

  /** One event keeps the level, and a call is granted if and only if it is affordable. */
  lemma LevelStep(run: seq<Event>, answers: seq<bool>, key: string, limits: Limits, n: nat, o: Option<Bucket>)
    requires n < |run| == |answers| && LevelAt(run, answers, key, limits, n, o)
    requires limits.rps >= 0 && OpensWith(run, key, limits) && Begin(run[n]) <= run[n].now
    requires answers[n] == KeyStep(o, run[n], false, key).1
    ensures LevelAt(run, answers, key, limits, n + 1, KeyStep(o, run[n], false, key).0)
    ensures IsCallOf(run[n], key) ==> (answers[n] <==> Affordable(run, answers, key, limits, n))
  {
    forall i, t | 0 <= i <= n
      ensures Left(run, answers, limits, i, n + 1, t) == Left(run, answers, limits, i, n, t) - (if answers[n] then 1.0 else 0.0)
    {
      LeftNext(run, answers, limits, i, n, t);
    }
    if IsCallOf(run[n], key) {
      RefillLevel(run, answers, key, limits, n, o);
      hide Left, Refill, Gain;
      assert CalledBefore(run, key, n + 1);
    } else {
      hide Left;
      assert CalledBefore(run, key, n + 1) <==> CalledBefore(run, key, n);
    }
  }

  lemma {:induction false} LevelHolds(run: seq<Event>, key: string, limits: Limits, start: real, n: nat)
    requires limits.rps >= 0 && Timed(start, run) && OpensWith(run, key, limits) && n <= |run|
    ensures LevelAt(run, KeyAnswers(None, run, false, key), key, limits, n, KeyAfter(None, run[..n], false, key))
    decreases n
  {
    if n > 0 {
      LevelHolds(run, key, limits, start, n - 1);
      StepAt(run, false, key, n - 1);
      hide LevelAt, KeyStep, OpensWith;
      LevelStep(run, KeyAnswers(None, run, false, key), key, limits, n - 1, KeyAfter(None, run[..n - 1], false, key));
    }
  }

  lemma AffordableMeans(run: seq<Event>, answers: seq<bool>, key: string, limits: Limits, n: nat)
    requires n < |run| == |answers|
    ensures Affordable(run, answers, key, limits, n) <==>
      forall i :: 0 <= i <= n && IsCallOf(run[i], key) ==>
        (Granted(answers[i..n]) + 1) as real <= limits.burst as real + limits.rps as real * (run[n].now - run[i].now)
  {
    forall i | 0 <= i <= n
      ensures Left(run, answers, limits, i, n, run[n].now)
           == limits.burst as real + limits.rps as real * (run[n].now - run[i].now) - Granted(answers[i..n]) as real
    {
    }
    hide Left, Granted;
  }

  /**
   * Without eviction, call `n` of a key is granted if and only if, for every earlier call of the key and for this one, the
   * calls granted since then and one more stay within burst + rps * (time since then). The limits are those of the key's
   * first call, with a rate that is not negative.
   */
  lemma GrantedIff(run: seq<Event>, key: string, limits: Limits, start: real, n: nat)
    requires limits.rps >= 0 && Timed(start, run) && OpensWith(run, key, limits) && n < |run| && IsCallOf(run[n], key)
    ensures var answers := AnswersFor(map[], run, false, key);
      answers[n] <==>
        forall i :: 0 <= i <= n && IsCallOf(run[i], key) ==>
          (Granted(answers[i..n]) + 1) as real <= limits.burst as real + limits.rps as real * (run[n].now - run[i].now)
  {
    var answers := KeyAnswers(None, run, false, key);
    KeysAreIndependent(map[], run, false, key);
    LevelHolds(run, key, limits, start, n);
    StepAt(run, false, key, n);
    hide LevelAt, KeyStep, OpensWith, Affordable, AnswersFor, KeyAnswers;
    LevelStep(run, answers, key, limits, n, KeyAfter(None, run[..n], false, key));
    AffordableMeans(run, answers, key, limits, n);
  }

  /** The same for the limiter as it runs, cleanups included, with fixed limits that refill a bucket in ten minutes. */
  lemma GrantedIffWithEviction(run: seq<Event>, key: string, limits: Limits, start: real, n: nat)
    requires RefillsWhileIdle(limits)
    requires limits.rps >= 0 && Timed(start, run) && FixedLimits(run, key, limits) && n < |run| && IsCallOf(run[n], key)
    ensures var answers := AnswersFor(map[], run, true, key);
      answers[n] <==>
        forall i :: 0 <= i <= n && IsCallOf(run[i], key) ==>
          (Granted(answers[i..n]) + 1) as real <= limits.burst as real + limits.rps as real * (run[n].now - run[i].now)
  {
    EvictionInvisibleTo(run, key, limits, start);
    GrantedIff(run, key, limits, start, n);
  }
}
