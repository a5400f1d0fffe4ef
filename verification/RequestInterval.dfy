/** How far apart the granted requests of internal/reset/reset.go are, and exactly when the interval is kept. */
module RequestInterval {
  import opened Clock
  import opened Collections
  import opened Reset
  import opened Wrappers

  /** A request that was granted: its token, and the second it is stored under. */
  datatype Request = Request(token: string, time: int)

  /** The user's granted requests in a run, in order. */
  ghost function Grants(w: World, events: seq<Event>, user: nat): seq<Request> {
    if events == [] then [] else
      var front, e := events[..|events| - 1], events[|events| - 1];
      if e.Ask? && e.user == user && !Refused(After(w, front).tokens, user, e.checked)
      then Grants(w, front, user) + [Request(e.token, Unix(e.now))]
      else Grants(w, front, user)
  }

  /** The last of these is the youngest token of the user, if it is still on record, and all others are an interval older. */
  ghost predicate LastFits(w: World, grants: seq<Request>, user: nat) {
    if grants == [] then forall t :: t in w.tokens ==> w.tokens[t].user != user
    else
      var last := grants[|grants| - 1];
      && last.token in w.issued && last.time * NANOS <= w.clock
      && (last.token in w.tokens ==> w.tokens[last.token].user == user && w.tokens[last.token].createdAt == last.time)
      && forall t :: t in w.tokens && w.tokens[t].user == user && t != last.token ==>
           w.tokens[t].createdAt + MIN_INTERVAL <= last.time
  }

  lemma LastFitsStep(w: World, events: seq<Event>, user: nat)
    requires events != []
    requires var front, e, m := events[..|events| - 1], events[|events| - 1], After(w, events[..|events| - 1]);
      LastFits(m, Grants(w, front, user), user) && Possible(m, e) && m.tokens.Keys <= m.issued
    ensures LastFits(After(w, events), Grants(w, events, user), user)
  {
    var front, e := events[..|events| - 1], events[|events| - 1];
    var m := After(w, front);
    if e.Ask? && e.user == user && !Refused(m.tokens, user, e.checked) {
      forall t | t in m.tokens && m.tokens[t].user == user ensures m.tokens[t].createdAt + MIN_INTERVAL <= Unix(e.now) {
        NotRefusedIsSpaced(m.tokens, user, e.checked, t);
        UnixMonotone(e.checked, e.now);
      }
    }
    hide Refused;
  }

  lemma {:induction false} LastFitsRuns(clock: int, expiration: int, events: seq<Event>, user: nat)
    requires Runs(Fresh(clock, expiration), events)
    ensures LastFits(After(Fresh(clock, expiration), events), Grants(Fresh(clock, expiration), events, user), user)
  {
    if events != [] {
      var front := events[..|events| - 1];
      LastFitsRuns(clock, expiration, front, user);
      ReachableSpent(clock, expiration, front);
      hide LastFits, After, Grants;
      LastFitsStep(Fresh(clock, expiration), events, user);
    }
  }

  ghost predicate Recent(grants: seq<Request>, checked: int) {
    grants != [] && checked - grants[|grants| - 1].time * NANOS < MIN_INTERVAL * NANOS
  }

  /** After any run a request is refused if and only if the last granted one is recent and its token still on record. */
  lemma RefusedIff(clock: int, expiration: int, events: seq<Event>, user: nat, checked: int)
    requires Runs(Fresh(clock, expiration), events) && After(Fresh(clock, expiration), events).clock <= checked
    ensures var w, grants := After(Fresh(clock, expiration), events), Grants(Fresh(clock, expiration), events, user);
      Refused(w.tokens, user, checked) <==> Recent(grants, checked) && grants[|grants| - 1].token in w.tokens
  {
    LastFitsRuns(clock, expiration, events, user);
    hide After, Grants;
    RefusedFits(After(Fresh(clock, expiration), events), Grants(Fresh(clock, expiration), events, user), user, checked);
  }

  lemma RefusedFits(w: World, grants: seq<Request>, user: nat, checked: int)
    requires LastFits(w, grants, user) && w.clock <= checked
    ensures Refused(w.tokens, user, checked) <==> Recent(grants, checked) && grants[|grants| - 1].token in w.tokens
  {
    var times := CreationTimes(w.tokens, user);
    if grants != [] {
      var last := grants[|grants| - 1];
      if last.token in w.tokens {
        assert w.tokens[last.token].createdAt in times;
        assert Max(times) == last.time;
      }
    }
  }

  ghost predicate Apart(grants: seq<Request>) {
    forall i, j :: 0 <= i < j < |grants| ==> grants[i].time + MIN_INTERVAL <= grants[j].time
  }

  /** A cleanup that removes a token of the user which is younger than the interval. */
  ghost predicate EarlySweep(w: World, e: Event, user: nat) {
    e.Sweep? && exists t :: t in w.tokens && w.tokens[t].user == user && t !in Swept(w.tokens, e.now)
                            && e.now - w.tokens[t].createdAt * NANOS < MIN_INTERVAL * NANOS
  }

  ghost predicate NoEarlySweep(w: World, events: seq<Event>, user: nat) {
    forall i :: 0 <= i < |events| ==> !EarlySweep(After(w, events[..i]), events[i], user)
  }

  /** The last granted request's token is on record, or the interval is over. */
  ghost predicate HeldOrOver(w: World, grants: seq<Request>) {
    grants != [] ==> grants[|grants| - 1].token in w.tokens || !Recent(grants, w.clock)
  }

  lemma HeldOrOverStep(w: World, events: seq<Event>, user: nat)
    requires events != []
    requires var front, e, m := events[..|events| - 1], events[|events| - 1], After(w, events[..|events| - 1]);
      LastFits(m, Grants(w, front, user), user) && HeldOrOver(m, Grants(w, front, user)) && Apart(Grants(w, front, user))
      && Possible(m, e) && !EarlySweep(m, e, user)
    ensures HeldOrOver(After(w, events), Grants(w, events, user)) && Apart(Grants(w, events, user))
  {
    var front, e := events[..|events| - 1], events[|events| - 1];
    var m, grants := After(w, front), Grants(w, front, user);
    if e.Ask? && e.user == user && !Refused(m.tokens, user, e.checked) {
      RefusedFits(m, grants, user, e.checked);
      assert grants != [] ==> grants[|grants| - 1].time + MIN_INTERVAL <= Unix(e.now);
    }
    hide Refused;
  }

  lemma {:induction false} HeldOrOverRuns(clock: int, expiration: int, events: seq<Event>, user: nat)
    requires Runs(Fresh(clock, expiration), events) && NoEarlySweep(Fresh(clock, expiration), events, user)
    ensures var w, grants := After(Fresh(clock, expiration), events), Grants(Fresh(clock, expiration), events, user);
      HeldOrOver(w, grants) && Apart(grants)
  {
    if events != [] {
      var front, w := events[..|events| - 1], Fresh(clock, expiration);
      assert forall i :: 0 <= i < |front| ==> front[..i] == events[..i];
      HeldOrOverRuns(clock, expiration, front, user);
      LastFitsRuns(clock, expiration, front, user);
      hide HeldOrOver, Apart, LastFits, After, Grants, EarlySweep;
      HeldOrOverStep(w, events, user);
    }
  }

  /** With no early sweep, all granted requests of the user are an interval apart. */
  lemma IntervalKept(clock: int, expiration: int, events: seq<Event>, user: nat)
    requires Runs(Fresh(clock, expiration), events) && NoEarlySweep(Fresh(clock, expiration), events, user)
    ensures Apart(Grants(Fresh(clock, expiration), events, user))
  {
    hide Runs, NoEarlySweep, Apart, HeldOrOver;
    HeldOrOverRuns(clock, expiration, events, user);
  }

  lemma {:induction false} LongerThanAll(s: set<string>) returns (n: nat)
    ensures forall x :: x in s ==> |x| < n
    decreases |s|
  {
    n := 0;
    if x :| x in s {
      n := LongerThanAll(s - {x});
      n := if n <= |x| then |x| + 1 else n;
    }
  }

  lemma EarlySweptIsLast(m: World, e: Event, grants: seq<Request>, user: nat)
    requires LastFits(m, grants, user) && Possible(m, e) && EarlySweep(m, e, user)
    ensures grants != [] && grants[|grants| - 1].token !in Step(m, e).tokens && Unix(e.now) < grants[|grants| - 1].time + MIN_INTERVAL
  {
    var t :| t in m.tokens && m.tokens[t].user == user && t !in Swept(m.tokens, e.now)
             && e.now - m.tokens[t].createdAt * NANOS < MIN_INTERVAL * NANOS;
    assert t == grants[|grants| - 1].token;
  }

  lemma TooClose(grants: seq<Request>, next: Request)
    requires grants != [] && next.time < grants[|grants| - 1].time + MIN_INTERVAL
    ensures !Apart(grants + [next])
  {
    var all := grants + [next];
    assert all[|grants|] == next && all[|grants| - 1] == grants[|grants| - 1];
  }

  /** Right after an early sweep a request can be granted that is not an interval after the one before. */
  lemma EarlySweepShows(clock: int, expiration: int, events: seq<Event>, user: nat) returns (ask: Event)
    requires events != [] && Runs(Fresh(clock, expiration), events)
    requires EarlySweep(After(Fresh(clock, expiration), events[..|events| - 1]), events[|events| - 1], user)
    ensures ask.Ask? && ask.user == user && Runs(Fresh(clock, expiration), events + [ask])
    ensures !Apart(Grants(Fresh(clock, expiration), events + [ask], user))
  {
    var w := Fresh(clock, expiration);
    var m, n, e := After(w, events[..|events| - 1]), After(w, events), events[|events| - 1];
    var grants := Grants(w, events, user);
    LastFitsRuns(clock, expiration, events[..|events| - 1], user);
    EarlySweptIsLast(m, e, grants, user);
    LastFitsRuns(clock, expiration, events, user);
    var length := LongerThanAll(n.issued);
    var token: string := seq(length, i => 'a');
    ask := Ask(user, token, e.now, e.now);
    RefusedFits(n, grants, user, e.now);
    var all := events + [ask];
    assert all[..|all| - 1] == events;
    assert Grants(w, all, user) == grants + [Request(token, Unix(e.now))];
    TooClose(grants, Request(token, Unix(e.now)));
  }

  ghost predicate AskedApart(w: World, events: seq<Event>, ask: Event, user: nat) {
    ask.Ask? && ask.user == user && Possible(After(w, events), ask) ==> Apart(Grants(w, events + [ask], user))
  }

  /** Whatever the user asks for at any moment of the run, his granted requests are an interval apart. */
  ghost predicate AlwaysApart(w: World, events: seq<Event>, user: nat) {
    forall i, ask :: 0 <= i <= |events| ==> AskedApart(w, events[..i], ask, user)
  }

  lemma {:induction false} RunsPrefix(w: World, events: seq<Event>, i: nat)
    requires Runs(w, events) && i <= |events|
    ensures Runs(w, events[..i])
    decreases |events|
  {
    if i == |events| {
      assert events[..i] == events;
    } else {
      RunsPrefix(w, events[..|events| - 1], i);
      assert events[..|events| - 1][..i] == events[..i];
    }
  }

  lemma NoEarlySweepThenApart(clock: int, expiration: int, events: seq<Event>, user: nat, i: nat, ask: Event)
    requires Runs(Fresh(clock, expiration), events) && NoEarlySweep(Fresh(clock, expiration), events, user) && i <= |events|
    ensures AskedApart(Fresh(clock, expiration), events[..i], ask, user)
  {
    var w, prefix := Fresh(clock, expiration), events[..i];
    hide After, Grants, Apart, Runs, NoEarlySweep;
    if ask.Ask? && ask.user == user && Possible(After(w, prefix), ask) {
      RunsPrefix(w, events, i);
      OneMore(w, prefix, ask);
      NoEarlySweepPrefix(w, events, i, user);
      NoEarlySweepLast(w, prefix + [ask], user);
      IntervalKept(clock, expiration, prefix + [ask], user);
    }
  }

  lemma OneMore(w: World, events: seq<Event>, e: Event)
    requires Runs(w, events) && Possible(After(w, events), e)
    ensures Runs(w, events + [e]) && (events + [e])[..|events + [e]| - 1] == events
  {
    hide After;
    assert (events + [e])[..|events + [e]| - 1] == events;
  }

  lemma NoEarlySweepPrefix(w: World, events: seq<Event>, i: nat, user: nat)
    requires NoEarlySweep(w, events, user) && i <= |events|
    ensures NoEarlySweep(w, events[..i], user)
  {
    hide After, EarlySweep;
    assert forall k :: 0 <= k < i ==> events[..i][..k] == events[..k];
  }

  lemma NoEarlySweepLast(w: World, events: seq<Event>, user: nat)
    requires events != [] && NoEarlySweep(w, events[..|events| - 1], user)
    requires !EarlySweep(After(w, events[..|events| - 1]), events[|events| - 1], user)
    ensures NoEarlySweep(w, events, user)
  {
    hide After, EarlySweep;
    assert forall k :: 0 <= k < |events| - 1 ==> events[..|events| - 1][..k] == events[..k];
  }

  /** The request interval holds at every moment of a run if and only if no cleanup in it is early. */
  lemma IntervalKeptIff(clock: int, expiration: int, events: seq<Event>, user: nat)
    requires Runs(Fresh(clock, expiration), events)
    ensures AlwaysApart(Fresh(clock, expiration), events, user) <==> NoEarlySweep(Fresh(clock, expiration), events, user)
  {
    var w := Fresh(clock, expiration);
    hide Runs, Grants, Apart, After, EarlySweep;
    if NoEarlySweep(w, events, user) {
      forall i, ask | 0 <= i <= |events| ensures AskedApart(w, events[..i], ask, user) {
        NoEarlySweepThenApart(clock, expiration, events, user, i, ask);
      }
    } else {
      var i :| 0 <= i < |events| && EarlySweep(After(w, events[..i]), events[i], user);
      BrokenAt(clock, expiration, events, user, i);
    }
  }

  lemma BrokenAt(clock: int, expiration: int, events: seq<Event>, user: nat, i: nat)
    requires Runs(Fresh(clock, expiration), events) && i < |events|
    requires EarlySweep(After(Fresh(clock, expiration), events[..i]), events[i], user)
    ensures !AlwaysApart(Fresh(clock, expiration), events, user)
  {
    var w, prefix := Fresh(clock, expiration), events[..i + 1];
    hide Grants, Apart, EarlySweep;
    RunsPrefix(w, events, i + 1);
    assert prefix[..|prefix| - 1] == events[..i];
    var ask := EarlySweepShows(clock, expiration, prefix, user);
    assert (prefix + [ask])[..|prefix|] == prefix;
    assert !AskedApart(w, prefix, ask, user);
  }

  // ----- When a sweep is early -----

  /** The user changes his password with a token. */
  predicate Redeems(w: World, e: Event, user: nat) {
    e.Redeem? && Validated(w.tokens, e.token, e.now) == Ok(user)
  }

  ghost predicate NoReset(w: World, events: seq<Event>, user: nat) {
    forall i :: 0 <= i < |events| ==> !Redeems(After(w, events[..i]), events[i], user)
  }

  /** An expiration from which on no unused token is a day past expiry while it is younger than the interval. */
  const SHORTEST: int := MIN_INTERVAL * NANOS - DAY

  predicate LongEnough(e: Event) {
    e.SetExpiration? ==> e.duration >= SHORTEST
  }

  ghost predicate Unused(w: World, user: nat) {
    forall t :: t in w.tokens && w.tokens[t].user == user ==> w.tokens[t].usedAt.None?
  }

  ghost predicate Living(w: World) {
    w.expiration >= SHORTEST
    && forall t :: t in w.tokens ==> w.tokens[t].expiresAt >= w.tokens[t].createdAt + Unix(SHORTEST)
  }

  lemma UnusedStep(w: World, e: Event, user: nat)
    requires Unused(w, user) && !Redeems(w, e, user)
    ensures Unused(Step(w, e), user)
  {
    hide Refused;
  }

  lemma LivingStep(w: World, e: Event)
    requires Living(w) && LongEnough(e)
    ensures Living(Step(w, e))
  {
    hide Refused;
  }

  lemma NotEarly(w: World, e: Event, user: nat)
    requires Unused(w, user) && Living(w)
    ensures !EarlySweep(w, e, user)
  {
  }

  lemma {:induction false} WithoutReset(w: World, events: seq<Event>, user: nat)
    requires Unused(w, user) && Living(w) && NoReset(w, events, user) && forall i :: 0 <= i < |events| ==> LongEnough(events[i])
    ensures Unused(After(w, events), user) && Living(After(w, events)) && NoEarlySweep(w, events, user)
  {
    if events != [] {
      var front, e := events[..|events| - 1], events[|events| - 1];
      hide Unused, Living, LongEnough, Redeems, EarlySweep, NoEarlySweep, NoReset;
      NoResetFront(w, events, user);
      WithoutReset(w, front, user);
      UnusedStep(After(w, front), e, user);
      LivingStep(After(w, front), e);
      NotEarly(After(w, front), e, user);
      NoEarlySweepLast(w, events, user);
    } else {
      hide Unused, Living, EarlySweep;
    }
  }

  lemma NoResetFront(w: World, events: seq<Event>, user: nat)
    requires events != [] && NoReset(w, events, user)
    ensures NoReset(w, events[..|events| - 1], user)
    ensures !Redeems(After(w, events[..|events| - 1]), events[|events| - 1], user)
  {
    hide After, Redeems;
    assert forall k :: 0 <= k < |events| - 1 ==> events[..|events| - 1][..k] == events[..k];
  }

  /** A user who changes no password is held to the interval, unless a token's life is shorter than minus a day less five minutes. */
  lemma IntervalKeptWithoutReset(clock: int, expiration: int, events: seq<Event>, user: nat)
    requires Runs(Fresh(clock, expiration), events) && NoReset(Fresh(clock, expiration), events, user)
    requires expiration >= SHORTEST && forall i :: 0 <= i < |events| ==> LongEnough(events[i])
    ensures Apart(Grants(Fresh(clock, expiration), events, user))
  {
    WithoutReset(Fresh(clock, expiration), events, user);
    IntervalKept(clock, expiration, events, user);
  }
}
