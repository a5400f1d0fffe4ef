/** Password reset tokens, internal/reset/reset.go; instants are nanoseconds, stored times whole seconds. */
module Reset {
  import opened Clock
  import opened Wrappers
  import opened Collections
  import opened Decimal

  /** Seconds between two requests of one user. */
  const MIN_INTERVAL: int := 300

  const DEFAULT_EXPIRATION: int := 3600 * NANOS

  const DAY: int := 24 * 3600 * NANOS

  datatype Error = TokenNotFound | TokenUsed | TokenExpired | RateLimited | HashFailed

  /** A row of `password_reset_tokens`; hashes do not collide, so a token stands for its own hash. */
  datatype Token = Token(user: nat, expiresAt: int, usedAt: Option<int>, createdAt: int)

  /** `issued` and `redeemed` are the history: every token ever handed out, and those that changed a password, in order. */
  datatype World = World(tokens: map<string, Token>, expiration: int, issued: set<string>, redeemed: seq<string>, clock: int)

  datatype Event =
    | SetExpiration(duration: int)
    | Ask(user: nat, token: string, checked: int, now: int)
    | Redeem(token: string, now: int)
    | Sweep(now: int)

  // ----- What the calls answer and do -----

  function CreationTimes(tokens: map<string, Token>, user: nat): set<int> {
    set t | t in tokens && tokens[t].user == user :: tokens[t].createdAt
  }

  /** The last request of the user that is still on record was less than the interval ago. */
  function Refused(tokens: map<string, Token>, user: nat, now: int): bool {
    var times := CreationTimes(tokens, user);
    times != {} && now - Max(times) * NANOS < MIN_INTERVAL * NANOS
  }

  function Validated(tokens: map<string, Token>, token: string, now: int): Result<nat, Error> {
    if token !in tokens then Err(TokenNotFound)
    else if tokens[token].usedAt.Some? then Err(TokenUsed)
    else if Unix(now) > tokens[token].expiresAt then Err(TokenExpired)
    else Ok(tokens[token].user)
  }

  function Issued(user: nat, expiration: int, now: int): Token {
    Token(user, Unix(now + expiration), None, Unix(now))
  }

  /** The token itself is marked, then all unused tokens of its user. */
  function Marked(tokens: map<string, Token>, token: string, user: nat, now: int): map<string, Token> {
    map t | t in tokens ::
      if t == token || (tokens[t].user == user && tokens[t].usedAt.None?) then tokens[t].(usedAt := Some(Unix(now))) else tokens[t]
  }

  function UnusedMarked(tokens: map<string, Token>, user: nat, now: int): map<string, Token> {
    map t | t in tokens ::
      if tokens[t].user == user && tokens[t].usedAt.None? then tokens[t].(usedAt := Some(Unix(now))) else tokens[t]
  }

  lemma MarkedInTurn(tokens: map<string, Token>, token: string, user: nat, now: int)
    requires token in tokens
    ensures UnusedMarked(tokens[token := tokens[token].(usedAt := Some(Unix(now)))], user, now) == Marked(tokens, token, user, now)
    ensures var marked := Marked(tokens, token, user, now);
      && marked.Keys == tokens.Keys
      && forall t :: t in tokens ==>
           var row := tokens[t];
           marked[t] == if t == token || (row.user == user && row.usedAt.None?)
                        then Token(row.user, row.expiresAt, Some(Unix(now)), row.createdAt) else row
  {
    hide Unix;
  }

  function Swept(tokens: map<string, Token>, now: int): map<string, Token> {
    map t | t in tokens && tokens[t].expiresAt >= Unix(now - DAY) && tokens[t].usedAt.None? :: tokens[t]
  }

  function Step(w: World, e: Event): World {
    match e
    case SetExpiration(d) => w.(expiration := d)
    case Ask(user, token, checked, now) =>
      if Refused(w.tokens, user, checked) then w.(clock := now)
      else w.(tokens := w.tokens[token := Issued(user, w.expiration, now)], issued := w.issued + {token}, clock := now)
    case Redeem(token, now) =>
      var v := Validated(w.tokens, token, now);
      if v.Err? then w.(clock := now)
      else w.(tokens := Marked(w.tokens, token, v.value, now), redeemed := w.redeemed + [token], clock := now)
    case Sweep(now) => w.(tokens := Swept(w.tokens, now), clock := now)
  }

  /** The clock does not go back, and a new token is none that was ever handed out. */
  predicate Possible(w: World, e: Event) {
    match e
    case SetExpiration(_) => true
    case Ask(_, token, checked, now) => w.clock <= checked <= now && token !in w.issued
    case Redeem(_, now) => w.clock <= now
    case Sweep(now) => w.clock <= now
  }

  function After(w: World, events: seq<Event>): World {
    if events == [] then w else Step(After(w, events[..|events| - 1]), events[|events| - 1])
  }

  ghost predicate Runs(w: World, events: seq<Event>) {
    events == [] || (Runs(w, events[..|events| - 1]) && Possible(After(w, events[..|events| - 1]), events[|events| - 1]))
  }

  function Fresh(clock: int, expiration: int): World {
    World(map[], expiration, {}, [], clock)
  }

  // ----- Spacing -----

  ghost predicate Spaced(tokens: map<string, Token>) {
    forall s, t :: s in tokens && t in tokens && s != t && tokens[s].user == tokens[t].user ==>
      tokens[s].createdAt + MIN_INTERVAL <= tokens[t].createdAt || tokens[t].createdAt + MIN_INTERVAL <= tokens[s].createdAt
  }

  /** No token was created in the future or lives longer than `life` seconds. */
  ghost predicate Dated(tokens: map<string, Token>, clock: int, life: int) {
    forall t :: t in tokens ==> tokens[t].createdAt <= Unix(clock) && tokens[t].expiresAt <= tokens[t].createdAt + life
  }

  /** A redeemed token is a used one, for as long as it is on record. */
  ghost predicate Spent(w: World) {
    && Distinct(w.redeemed)
    && w.tokens.Keys <= w.issued
    && (forall i :: 0 <= i < |w.redeemed| ==>
          && w.redeemed[i] in w.issued
          && (w.redeemed[i] in w.tokens ==> w.tokens[w.redeemed[i]].usedAt.Some?))
  }

  ghost predicate Inv(w: World, life: int) {
    Spaced(w.tokens) && Dated(w.tokens, w.clock, life) && Spent(w) && w.expiration <= life * NANOS
  }

  predicate WithinLife(e: Event, life: int) {
    e.SetExpiration? ==> e.duration <= life * NANOS
  }

  lemma NotRefusedIsSpaced(tokens: map<string, Token>, user: nat, checked: int, t: string)
    requires !Refused(tokens, user, checked) && t in tokens && tokens[t].user == user
    ensures tokens[t].createdAt + MIN_INTERVAL <= Unix(checked)
  {
    assert tokens[t].createdAt in CreationTimes(tokens, user);
  }

  lemma AskKeepsSpaced(w: World, e: Event)
    requires Spaced(w.tokens) && Possible(w, e) && e.Ask?
    ensures Spaced(Step(w, e).tokens)
  {
    hide Refused;
    if !Refused(w.tokens, e.user, e.checked) {
      forall t | t in w.tokens && w.tokens[t].user == e.user ensures w.tokens[t].createdAt + MIN_INTERVAL <= Unix(e.now) {
        NotRefusedIsSpaced(w.tokens, e.user, e.checked, t);
      }
    }
  }

  lemma StepKeepsInv(w: World, e: Event, life: int)
    requires Inv(w, life) && Possible(w, e) && WithinLife(e, life)
    ensures Inv(Step(w, e), life)
  {
    if e.Ask? { AskKeepsSpaced(w, e); }
    hide Refused;
    StepKeepsSpent(w, e);
    StepKeepsDated(w, e, life);
    hide Spent, Dated;
  }

  lemma StepKeepsDated(w: World, e: Event, life: int)
    requires Dated(w.tokens, w.clock, life) && w.expiration <= life * NANOS && Possible(w, e)
    ensures Dated(Step(w, e).tokens, Step(w, e).clock, life)
  {
    hide Refused;
  }

  lemma StepKeepsSpent(w: World, e: Event)
    requires Spent(w) && Possible(w, e)
    ensures Spent(Step(w, e))
  {
    hide Refused, Unix;
  }

  lemma {:induction false} ReachableInv(clock: int, expiration: int, events: seq<Event>, life: int)
    requires Runs(Fresh(clock, expiration), events) && expiration <= life * NANOS && life >= 0
    requires forall i :: 0 <= i < |events| ==> WithinLife(events[i], life)
    ensures Inv(After(Fresh(clock, expiration), events), life)
  {
    if events != [] {
      ReachableInv(clock, expiration, events[..|events| - 1], life);
      StepKeepsInv(After(Fresh(clock, expiration), events[..|events| - 1]), events[|events| - 1], life);
    }
  }

  // ----- How many tokens work at once -----

  /** The tokens with which the user can change the password at this instant. */
  function Usable(tokens: map<string, Token>, user: nat, now: int): set<string> {
    set t | t in tokens && Validated(tokens, t, now) == Ok(user)
  }

  /**
   * No user ever has more usable tokens than request intervals fit into a token's life, and one: at most 13 with the
   * default hour.
   */
  lemma UsableBound(clock: int, expiration: int, events: seq<Event>, life: int, user: nat, now: int)
    requires Runs(Fresh(clock, expiration), events) && expiration <= life * NANOS && life >= 0
    requires forall i :: 0 <= i < |events| ==> WithinLife(events[i], life)
    requires After(Fresh(clock, expiration), events).clock <= now
    ensures |Usable(After(Fresh(clock, expiration), events).tokens, user, now)| <= life / MIN_INTERVAL + 1
    ensures life == 3600 ==> |Usable(After(Fresh(clock, expiration), events).tokens, user, now)| <= 13
  {
    ReachableInv(clock, expiration, events, life);
    UsableInInv(After(Fresh(clock, expiration), events), life, user, now);
  }

  /** Each usable token has an interval of its own, counted back from now. */
  lemma UsableInInv(w: World, life: int, user: nat, now: int)
    requires Spaced(w.tokens) && Dated(w.tokens, w.clock, life) && w.clock <= now && life >= 0
    ensures |Usable(w.tokens, user, now)| <= life / MIN_INTERVAL + 1
  {
    var usable := Usable(w.tokens, user, now);
    var slot: string -> int := t => if t in w.tokens then (Unix(now) - w.tokens[t].createdAt) / MIN_INTERVAL else 0;
    forall t | t in usable ensures 0 <= slot(t) < life / MIN_INTERVAL + 1 {
      assert 0 <= Unix(now) - w.tokens[t].createdAt <= life;
    }
    Pigeonhole(usable, slot, life / MIN_INTERVAL + 1);
  }

  /** One request every interval, starting at zero. */
  function SteadyRun(n: nat): (run: seq<Event>)
    ensures |run| == n
  {
    if n == 0 then [] else
      var instant := (n - 1) * MIN_INTERVAL * NANOS;
      SteadyRun(n - 1) + [Ask(0, PrintNat(n - 1), instant, instant)]
  }

  /** The world that run leads to. */
  ghost predicate Steady(w: World, n: nat, life: int) {
    && w.expiration == life * NANOS
    && w.issued == w.tokens.Keys
    && w.clock == (if n == 0 then 0 else (n - 1) * MIN_INTERVAL * NANOS)
    && (forall t :: t in w.tokens ==> exists i :: 0 <= i < n && t == PrintNat(i))
    && (forall i :: 0 <= i < n ==>
          && PrintNat(i) in w.tokens
          && w.tokens[PrintNat(i)] == Token(0, i * MIN_INTERVAL + life, None, i * MIN_INTERVAL))
  }

  lemma SteadyAsk(w: World, n: nat, life: int)
    requires Steady(w, n, life)
    ensures var instant := n * MIN_INTERVAL * NANOS;
      var e := Ask(0, PrintNat(n), instant, instant);
      Possible(w, e) && Steady(Step(w, e), n + 1, life)
  {
    var instant := n * MIN_INTERVAL * NANOS;
    if PrintNat(n) in w.tokens {
      var i :| 0 <= i < n && PrintNat(n) == PrintNat(i);
      ValueOfPrintNat(i);
      ValueOfPrintNat(n);
      assert false;
    }
    assert !Refused(w.tokens, 0, instant);
    assert Unix(instant) == n * MIN_INTERVAL && Unix(instant + life * NANOS) == n * MIN_INTERVAL + life;
    hide PrintNat, Refused, Unix;
  }

  lemma {:induction false} SteadyRuns(n: nat, life: int)
    ensures Runs(Fresh(0, life * NANOS), SteadyRun(n)) && Steady(After(Fresh(0, life * NANOS), SteadyRun(n)), n, life)
  {
    if n > 0 {
      SteadyRuns(n - 1, life);
      SteadyAsk(After(Fresh(0, life * NANOS), SteadyRun(n - 1)), n - 1, life);
      assert SteadyRun(n)[..n - 1] == SteadyRun(n - 1);
    }
  }

  /** The bound is exact: a user who asks every interval has that many usable tokens when the first is about to expire. */
  lemma BoundIsReached(life: nat)
    ensures var n := life / MIN_INTERVAL + 1;
      && Runs(Fresh(0, life * NANOS), SteadyRun(n))
      && After(Fresh(0, life * NANOS), SteadyRun(n)).clock <= life * NANOS
      && |Usable(After(Fresh(0, life * NANOS), SteadyRun(n)).tokens, 0, life * NANOS)| == n
  {
    var n := life / MIN_INTERVAL + 1;
    SteadyRuns(n, life);
    var w := After(Fresh(0, life * NANOS), SteadyRun(n));
    SteadyUsable(w, n, life);
  }

  lemma SteadyUsable(w: World, n: nat, life: nat)
    requires Steady(w, n, life)
    ensures |Usable(w.tokens, 0, life * NANOS)| == n
  {
    var names := seq(n, i requires 0 <= i < n => PrintNat(i));
    forall i, j | 0 <= i < j < n ensures names[i] != names[j] {
      ValueOfPrintNat(i);
      ValueOfPrintNat(j);
    }
    DistinctSize(names);
    var usable := Usable(w.tokens, 0, life * NANOS);
    forall t ensures t in usable <==> t in Elements(names) {
      if t in w.tokens {
        var i :| 0 <= i < n && t == PrintNat(i);
        assert names[i] == t;
      }
    }
    assert usable == Elements(names);
  }

  /** A successful reset leaves its user without a usable token, and everybody else's tokens as they were. */
  lemma ResetLeavesNoneUsable(w: World, token: string, now: int, user: nat, later: int)
    requires Validated(w.tokens, token, now).Ok?
    ensures var tokens := Step(w, Redeem(token, now)).tokens;
      Usable(tokens, user, later) == if Validated(w.tokens, token, now).value == user then {} else Usable(w.tokens, user, later)
  {
    hide Unix;
  }

  /** No token changes a password twice, not even after it has been swept away. */
  lemma RedeemedOnce(clock: int, expiration: int, events: seq<Event>)
    requires Runs(Fresh(clock, expiration), events)
    ensures Distinct(After(Fresh(clock, expiration), events).redeemed)
  {
    ReachableSpent(clock, expiration, events);
  }

  lemma {:induction false} ReachableSpent(clock: int, expiration: int, events: seq<Event>)
    requires Runs(Fresh(clock, expiration), events)
    ensures Spent(After(Fresh(clock, expiration), events))
  {
    if events != [] {
      ReachableSpent(clock, expiration, events[..|events| - 1]);
      hide Spent, Step;
      StepKeepsSpent(After(Fresh(clock, expiration), events[..|events| - 1]), events[|events| - 1]);
    }
  }

  /** From a sweep on, exactly the same tokens are usable as without it. */
  lemma SweepIsInvisible(tokens: map<string, Token>, user: nat, now: int, later: int)
    requires now <= later
    ensures Usable(Swept(tokens, now), user, later) == Usable(tokens, user, later)
  {
    assert Unix(now - DAY) <= Unix(later);
  }

  /** The request limit only sees what is on record: after a reset and a sweep the next request is not refused. */
  lemma ResetAndSweepLiftLimit(w: World, token: string, now: int, swept: int, later: int)
    requires Validated(w.tokens, token, now).Ok?
    ensures !Refused(Step(Step(w, Redeem(token, now)), Sweep(swept)).tokens, w.tokens[token].user, later)
  {
    var tokens := Step(Step(w, Redeem(token, now)), Sweep(swept)).tokens;
    assert CreationTimes(tokens, w.tokens[token].user) == {};
  }

  // ----- The manager -----

  datatype Account = Account(id: nat, active: bool)

  class Manager {
    /** Accounts by e-mail address, and the password hashes of users. */
    var accounts: map<string, Account>
    var passwords: map<nat, string>
    var tokens: map<string, Token>
    var expiration: int
    ghost var issued: set<string>
    ghost var redeemed: seq<string>
    ghost var clock: int

    constructor (accounts: map<string, Account>, passwords: map<nat, string>, ghost clock: int)
      ensures this.accounts == accounts && this.passwords == passwords && Now() == Fresh(clock, DEFAULT_EXPIRATION)
      ensures expiration == 3600 * 1_000_000_000
    {
      this.accounts, this.passwords, this.clock := accounts, passwords, clock;
      tokens, expiration, issued, redeemed := map[], DEFAULT_EXPIRATION, {}, [];
    }

    ghost function Now(): World
      reads this
    {
      World(tokens, expiration, issued, redeemed, clock)
    }

    method ChangeExpiration(duration: int)
      modifies this`expiration
      ensures Now() == Step(old(Now()), SetExpiration(duration))
    {
      expiration := duration;
    }

    /** `token` is the fresh random text; `checked` and `now` are the two readings of the clock. */
    method CreateToken(email: string, token: string, checked: int, now: int) returns (r: Result<Option<int>, Error>)
      requires forall user :: Possible(Now(), Ask(user, token, checked, now))
      modifies this`tokens, this`issued, this`clock
      ensures email !in accounts || !accounts[email].active ==> r == Ok(None) && Now() == old(Now())
      ensures email in accounts && accounts[email].active ==>
        var user := accounts[email].id;
        && Now() == Step(old(Now()), Ask(user, token, checked, now))
        && (r == Err(RateLimited) <==> Refused(old(tokens), user, checked))
        && (r.Ok? ==> r.value == Some(Unix(now + expiration))
                      && tokens == old(tokens)[token := Token(user, Unix(now + expiration), None, Unix(now))])
        && (r.Err? ==> r == Err(RateLimited))
    {
      if email !in accounts || !accounts[email].active {
        return Ok(None);
      }
      assert Possible(Now(), Ask(accounts[email].id, token, checked, now));
      var user := accounts[email].id;
      clock := now;
      var times := CreationTimes(tokens, user);
      if times != {} {
        var last := Max(times);
        if checked - last * NANOS < MIN_INTERVAL * NANOS {
          return Err(RateLimited);
        }
      }
      var expiresAt := Unix(now + expiration);
      tokens := tokens[token := Token(user, expiresAt, None, Unix(now))];
      issued := issued + {token};
      return Ok(Some(expiresAt));
    }

    method ValidateToken(token: string, now: int) returns (r: Result<nat, Error>)
      ensures r == Validated(tokens, token, now)
      ensures r == Err(TokenNotFound) <==> token !in tokens
      ensures r == Err(TokenUsed) <==> token in tokens && tokens[token].usedAt.Some?
      ensures r.Ok? <==> token in tokens && tokens[token].usedAt.None? && Unix(now) <= tokens[token].expiresAt
      ensures r.Err? ==> r.error in {TokenNotFound, TokenUsed, TokenExpired}
      ensures forall user: nat :: r == Ok(user) <==> token in Usable(tokens, user, now)
    {
      if token !in tokens {
        return Err(TokenNotFound);
      }
      var row := tokens[token];
      if row.usedAt.Some? {
        return Err(TokenUsed);
      }
      if Unix(now) > row.expiresAt {
        return Err(TokenExpired);
      }
      return Ok(row.user);
    }

    /** `hash` is the new password's hash, or none when it cannot be hashed. */
    method ResetPassword(token: string, hash: Option<string>, now: int) returns (r: Result<(), Error>)
      requires Possible(Now(), Redeem(token, now))
      modifies this`passwords, this`tokens, this`redeemed, this`clock
      ensures Validated(old(tokens), token, now).Err? ==> r == Err(Validated(old(tokens), token, now).error)
      ensures Validated(old(tokens), token, now).Ok? ==> r == if hash.Some? then Ok(()) else Err(HashFailed)
      ensures r.Err? ==> passwords == old(passwords) && tokens == old(tokens) && redeemed == old(redeemed)
      ensures r.Ok? ==>
        var user := old(tokens)[token].user;
        && Now() == Step(old(Now()), Redeem(token, now))
        && passwords == if user in old(passwords) then old(passwords)[user := hash.value] else old(passwords)
      ensures r.Ok? ==> tokens.Keys == old(tokens).Keys && forall t :: t in old(tokens) ==>
        var row := old(tokens)[t];
        tokens[t] == if t == token || (row.user == old(tokens)[token].user && row.usedAt.None?)
                     then Token(row.user, row.expiresAt, Some(Unix(now)), row.createdAt) else row
    {
      hide Unix, Marked, UnusedMarked;
      var v := ValidateToken(token, now);
      clock := now;
      if v.Err? {
        return Err(v.error);
      }
      if hash.None? {
        return Err(HashFailed);
      }
      var user := v.value;
      if user in passwords {
        passwords := passwords[user := hash.value];
      }
      tokens := tokens[token := tokens[token].(usedAt := Some(Unix(now)))];
      tokens := UnusedMarked(tokens, user, now);
      MarkedInTurn(old(tokens), token, user, now);
      redeemed := redeemed + [token];
      return Ok(());
    }

    method Cleanup(now: int)
      requires Possible(Now(), Sweep(now))
      modifies this`tokens, this`clock
      ensures Now() == Step(old(Now()), Sweep(now))
      ensures forall t :: t in old(tokens) ==>
        var gone := old(tokens)[t].usedAt.Some? || old(tokens)[t].expiresAt < Unix(now - 24 * 3600 * 1_000_000_000);
        (t in tokens <==> !gone) && (t in tokens ==> tokens[t] == old(tokens)[t])
    {
      var cutoff := Unix(now - DAY);
      tokens := map t | t in tokens && !(tokens[t].expiresAt < cutoff || tokens[t].usedAt.Some?) :: tokens[t];
      clock := now;
    }
  }
}
