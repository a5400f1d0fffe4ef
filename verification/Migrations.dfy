/** Schema migrations, internal/migrations/migrations.go: which order of versions keeps the schema a function of its version. */
module Migrations {
  import opened Wrappers
  import opened Collections

  datatype Migration = Migration(version: int, name: string)

  /** What running the up or down text of a version makes of a schema, or that it fails; an empty text changes nothing. */
  datatype Effects<!S> = Effects(up: (int, S) -> Option<S>, down: (int, S) -> Option<S>)

  /** The `schema_migrations` rows, and everything else in the database. */
  datatype Db<+S> = Db(applied: set<int>, schema: S)

  /** How a loop over migrations ended: those done, and the one whose transaction failed. */
  datatype Outcome<+S> = Outcome(db: Db<S>, done: seq<Migration>, failed: Option<int>)

  // ----- One transaction -----

  /** `works` tells whether the transaction of a version can begin and commit; the version is a primary key. */
  function Up<S>(e: Effects<S>, db: Db<S>, v: int, works: int -> bool): Option<Db<S>> {
    var s := e.up(v, db.schema);
    if !works(v) || s.None? || v in db.applied then None else Some(Db(db.applied + {v}, s.value))
  }

  function Down<S>(e: Effects<S>, db: Db<S>, v: int, works: int -> bool): Option<Db<S>> {
    var s := e.down(v, db.schema);
    if !works(v) || s.None? then None else Some(Db(db.applied - {v}, s.value))
  }

  /** `COALESCE(MAX(version), 0)`. */
  function Current(applied: set<int>): (v: int)
    ensures applied == {} ==> v == 0
    ensures applied != {} ==> Greatest(v, applied)
  {
    if applied == {} then 0 else Max(applied)
  }

  // ----- The schema that belongs to a version -----

  predicate Positive(versions: set<int>) {
    forall v :: v in versions ==> v > 0
  }

  /** The registered migrations up to `v`, applied one after the other in ascending order. */
  function SchemaAt<S>(e: Effects<S>, versions: set<int>, base: S, v: int): Option<S>
    decreases if v > 0 then v else 0
  {
    if v <= 0 then Some(base) else
      var before := SchemaAt(e, versions, base, v - 1);
      if v !in versions || before.None? then before else e.up(v, before.value)
  }

  /** Exactly the registered versions up to the current one are applied, and the schema is the one of that version. */
  ghost predicate Canonical<S>(e: Effects<S>, versions: set<int>, base: S, db: Db<S>) {
    && (forall v :: v in db.applied <==> v in versions && v <= Current(db.applied))
    && SchemaAt(e, versions, base, Current(db.applied)) == Some(db.schema)
  }

  /** A down migration that succeeds takes back what its up migration did. */
  ghost predicate Undoes<S(!new)>(e: Effects<S>) {
    forall v, s :: e.up(v, s).Some? ==> e.down(v, e.up(v, s).value) in {None, Some(s)}
  }

  /** The current version alone determines the applied set and the schema. */
  lemma VersionDeterminesSchema<S>(e: Effects<S>, versions: set<int>, base: S, a: Db<S>, b: Db<S>)
    requires Canonical(e, versions, base, a) && Canonical(e, versions, base, b)
    requires Current(a.applied) == Current(b.applied)
    ensures a == b
  {
    assert forall v :: v in a.applied <==> v in b.applied;
    assert a.applied == b.applied;
  }

  lemma {:induction false} NothingBetween<S>(e: Effects<S>, versions: set<int>, base: S, lo: int, hi: int)
    requires 0 <= lo <= hi && forall v :: v in versions ==> !(lo < v <= hi)
    ensures SchemaAt(e, versions, base, hi) == SchemaAt(e, versions, base, lo)
    decreases hi - lo
  {
    if lo < hi { NothingBetween(e, versions, base, lo, hi - 1); }
  }

  /** The next registered version in order takes a canonical database to a canonical one. */
  lemma UpKeeps<S>(e: Effects<S>, versions: set<int>, base: S, db: Db<S>, v: int, works: int -> bool)
    requires Positive(versions) && Canonical(e, versions, base, db) && v in versions && v > Current(db.applied)
    requires forall w :: w in versions ==> !(Current(db.applied) < w < v)
    requires Up(e, db, v, works).Some?
    ensures Canonical(e, versions, base, Up(e, db, v, works).value)
    ensures Current(Up(e, db, v, works).value.applied) == v
  {
    assert v in db.applied + {v};
    NothingBetween(e, versions, base, Current(db.applied), v - 1);
  }

  /** Undoing the current version takes a canonical database back to the version before it. */
  lemma DownKeeps<S(!new)>(e: Effects<S>, versions: set<int>, base: S, db: Db<S>, works: int -> bool)
    requires Positive(versions) && Canonical(e, versions, base, db) && Undoes(e) && db.applied != {}
    requires Down(e, db, Current(db.applied), works).Some?
    ensures var d := Down(e, db, Current(db.applied), works).value;
      && Canonical(e, versions, base, d)
      && d.applied == db.applied - {Current(db.applied)}
      && Current(d.applied) < Current(db.applied)
      && forall w :: w in versions ==> !(Current(d.applied) < w < Current(db.applied))
  {
    var v := Current(db.applied);
    var d := Down(e, db, v, works).value;
    var before := SchemaAt(e, versions, base, v - 1);
    assert e.up(v, before.value) == Some(db.schema);
    assert d.schema == before.value;
    forall w | w in versions ensures !(Current(d.applied) < w <= v - 1) {
      if w <= v - 1 { assert w in d.applied; }
    }
    NothingBetween(e, versions, base, Current(d.applied), v - 1);
  }

  /** Applying a version and rolling it back restores the database. */
  lemma UpDown<S(!new)>(e: Effects<S>, db: Db<S>, v: int, works: int -> bool, works': int -> bool)
    requires Undoes(e) && Up(e, db, v, works).Some? && Down(e, Up(e, db, v, works).value, v, works').Some?
    ensures Down(e, Up(e, db, v, works).value, v, works') == Some(db)
  {
    assert db.applied + {v} - {v} == db.applied;
  }

  // ----- Lists of migrations -----

  function Versions(ms: seq<Migration>): set<int> {
    set m | m in ms :: m.version
  }

  ghost predicate Ordered(ms: seq<Migration>, descending: bool) {
    forall i, j :: 0 <= i < j < |ms| ==> Before(ms[i], ms[j], descending)
  }

  predicate Before(m: Migration, n: Migration, descending: bool) {
    if descending then m.version > n.version else m.version < n.version
  }

  ghost predicate NoRepeats(ms: seq<Migration>) {
    forall i, j :: 0 <= i < j < |ms| ==> ms[i].version != ms[j].version
  }

  /** Registered with distinct positive versions. */
  ghost predicate Numbered(ms: seq<Migration>) {
    Positive(Versions(ms)) && NoRepeats(ms)
  }

  /** The list holds exactly the registered versions above `lo` and up to `hi`. */
  ghost predicate Covers(ms: seq<Migration>, versions: set<int>, lo: int, hi: int) {
    forall v :: v in Versions(ms) <==> v in versions && lo < v <= hi
  }

  function Between(ms: seq<Migration>, lo: int, hi: int): seq<Migration> {
    if ms == [] then [] else
      (if lo < ms[0].version <= hi then ms[..1] else []) + Between(ms[1..], lo, hi)
  }

  function Above(ms: seq<Migration>, lo: int): seq<Migration> {
    if ms == [] then [] else
      (if lo < ms[0].version then ms[..1] else []) + Above(ms[1..], lo)
  }

  function Insert(m: Migration, ms: seq<Migration>, descending: bool): seq<Migration> {
    if ms == [] || Before(m, ms[0], descending) then [m] + ms else ms[..1] + Insert(m, ms[1..], descending)
  }

  /** The list as `sort.Slice` leaves it. */
  function Sort(ms: seq<Migration>, descending: bool): seq<Migration> {
    if ms == [] then [] else Insert(ms[0], Sort(ms[1..], descending), descending)
  }

  lemma {:induction false} InsertHolds(m: Migration, ms: seq<Migration>, descending: bool)
    ensures multiset(Insert(m, ms, descending)) == multiset(ms) + multiset{m}
    ensures forall n :: n in Insert(m, ms, descending) <==> n in ms || n == m
  {
    if ms != [] && !Before(m, ms[0], descending) {
      assert ms == ms[..1] + ms[1..];
      InsertHolds(m, ms[1..], descending);
    }
  }

  lemma OrderedCons(m: Migration, ms: seq<Migration>, descending: bool)
    requires Ordered(ms, descending) && forall n :: n in ms ==> Before(m, n, descending)
    ensures Ordered([m] + ms, descending)
  {
    hide Before;
  }

  lemma {:induction false} InsertOrders(m: Migration, ms: seq<Migration>, descending: bool)
    requires Ordered(ms, descending) && forall n :: n in ms ==> n.version != m.version
    ensures Ordered(Insert(m, ms, descending), descending)
  {
    if ms != [] {
      if Before(m, ms[0], descending) {
        OrderedCons(m, ms, descending);
      } else {
        InsertOrders(m, ms[1..], descending);
        InsertHolds(m, ms[1..], descending);
        hide Ordered;
        OrderedTail(ms, descending);
        OrderedCons(ms[0], Insert(m, ms[1..], descending), descending);
        assert ms[..1] == [ms[0]];
      }
    }
  }

  lemma OrderedTail(ms: seq<Migration>, descending: bool)
    requires Ordered(ms, descending) && ms != []
    ensures Ordered(ms[1..], descending) && forall n :: n in ms[1..] ==> Before(ms[0], n, descending)
  {
    hide Before;
  }

  /** In order, where a version may stand more than once. */
  ghost predicate Sorted(ms: seq<Migration>, descending: bool) {
    forall i, j :: 0 <= i < j < |ms| ==> !Before(ms[j], ms[i], descending)
  }

  lemma SortedCons(m: Migration, ms: seq<Migration>, descending: bool)
    requires Sorted(ms, descending) && forall n :: n in ms ==> !Before(n, m, descending)
    ensures Sorted([m] + ms, descending)
  {
    hide Before;
  }

  lemma SortedTail(ms: seq<Migration>, descending: bool)
    requires Sorted(ms, descending) && ms != []
    ensures Sorted(ms[1..], descending) && forall n :: n in ms ==> !Before(n, ms[0], descending)
  {
  }

  lemma {:induction false} InsertSorts(m: Migration, ms: seq<Migration>, descending: bool)
    requires Sorted(ms, descending)
    ensures Sorted(Insert(m, ms, descending), descending)
  {
    if ms != [] {
      SortedTail(ms, descending);
      if Before(m, ms[0], descending) {
        SortedCons(m, ms, descending);
      } else {
        InsertSorts(m, ms[1..], descending);
        InsertHolds(m, ms[1..], descending);
        hide Sorted;
        SortedCons(ms[0], Insert(m, ms[1..], descending), descending);
        assert ms[..1] == [ms[0]];
      }
    }
  }

  /** The list comes out in order, whatever it holds. */
  lemma {:induction false} SortSorts(ms: seq<Migration>, descending: bool)
    ensures Sorted(Sort(ms, descending), descending)
  {
    if ms != [] {
      SortSorts(ms[1..], descending);
      InsertSorts(ms[0], Sort(ms[1..], descending), descending);
    }
  }

  lemma HeadAndTail(ms: seq<Migration>)
    requires ms != []
    ensures multiset(ms) == multiset(ms[1..]) + multiset{ms[0]}
  {
    assert ms == [ms[0]] + ms[1..];
  }

  lemma {:induction false} SortPermutes(ms: seq<Migration>, descending: bool)
    ensures multiset(Sort(ms, descending)) == multiset(ms)
  {
    hide Insert, Before;
    if ms != [] {
      SortPermutes(ms[1..], descending);
      InsertHolds(ms[0], Sort(ms[1..], descending), descending);
      HeadAndTail(ms);
    }
  }

  lemma SortHolds(ms: seq<Migration>, descending: bool)
    ensures multiset(Sort(ms, descending)) == multiset(ms)
    ensures forall m :: m in Sort(ms, descending) <==> m in ms
  {
    hide Sort;
    SortPermutes(ms, descending);
    assert forall m :: m in ms <==> m in multiset(ms);
  }

  lemma {:induction false} SortOrders(ms: seq<Migration>, descending: bool)
    requires NoRepeats(ms)
    ensures Ordered(Sort(ms, descending), descending)
  {
    if ms != [] {
      SortOrders(ms[1..], descending);
      SortHolds(ms[1..], descending);
      InsertOrders(ms[0], Sort(ms[1..], descending), descending);
    }
  }

  lemma {:induction false} BetweenSelects(ms: seq<Migration>, lo: int, hi: int)
    ensures forall m :: m in Between(ms, lo, hi) <==> m in ms && lo < m.version <= hi
    ensures forall d :: Ordered(ms, d) ==> Ordered(Between(ms, lo, hi), d)
  {
    if ms != [] {
      BetweenSelects(ms[1..], lo, hi);
      assert ms == ms[..1] + ms[1..];
      forall d | Ordered(ms, d) ensures Ordered(Between(ms, lo, hi), d) {
        assert Ordered(ms[1..], d);
        assert forall m :: m in Between(ms[1..], lo, hi) ==> m in ms[1..];
      }
    }
  }

  lemma {:induction false} AboveIsBetween(ms: seq<Migration>, lo: int, hi: int)
    requires forall m :: m in ms ==> m.version <= hi
    ensures Above(ms, lo) == Between(ms, lo, hi)
  {
    if ms != [] { AboveIsBetween(ms[1..], lo, hi); }
  }

  lemma BetweenCovers(ms: seq<Migration>, lo: int, hi: int)
    ensures Covers(Between(ms, lo, hi), Versions(ms), lo, hi)
  {
    BetweenSelects(ms, lo, hi);
  }

  // ----- Loops over migrations -----

  function One<S>(e: Effects<S>, db: Db<S>, v: int, works: int -> bool, down: bool): Option<Db<S>> {
    if down then Down(e, db, v, works) else Up(e, db, v, works)
  }

  /** One transaction for each migration in turn, until one fails. */
  function RunAll<S>(e: Effects<S>, db: Db<S>, ms: seq<Migration>, works: int -> bool, down: bool): Outcome<S>
    decreases |ms|
  {
    if ms == [] then Outcome(db, [], None) else
      var next := One(e, db, ms[0].version, works, down);
      if next.None? then Outcome(db, [], Some(ms[0].version)) else
        var rest := RunAll(e, next.value, ms[1..], works, down);
        Outcome(rest.db, ms[..1] + rest.done, rest.failed)
  }

  lemma OneApplied<S>(e: Effects<S>, db: Db<S>, v: int, works: int -> bool, down: bool)
    ensures var d := One(e, db, v, works, down);
      d.Some? ==> d.value.applied == if down then db.applied - {v} else db.applied + {v}
  {
  }

  /**
   * Whatever the list: what a loop has done is a first part of it, all of it exactly when nothing failed, otherwise up to the
   * version that failed; and the versions recorded are the old ones with, or without, those of that part.
   */
  lemma {:induction false} RunsPrefix<S>(e: Effects<S>, db: Db<S>, ms: seq<Migration>, works: int -> bool, down: bool)
    ensures var o := RunAll(e, db, ms, works, down);
      && o.done <= ms && (o.failed.None? <==> o.done == ms)
      && (o.failed.Some? ==> |o.done| < |ms| && o.failed.value == ms[|o.done|].version)
      && (o.failed.Some? ==> One(e, o.db, o.failed.value, works, down).None?)
      && o.db.applied == if down then db.applied - Versions(o.done) else db.applied + Versions(o.done)
    decreases |ms|
  {
    hide One;
    if ms != [] {
      OneApplied(e, db, ms[0].version, works, down);
      var next := One(e, db, ms[0].version, works, down);
      if next.Some? {
        RunsPrefix(e, next.value, ms[1..], works, down);
        var rest := RunAll(e, next.value, ms[1..], works, down).done;
        assert ms[..1] + ms[1..] == ms;
        assert Versions(ms[..1] + rest) == {ms[0].version} + Versions(rest);
      }
    }
  }

  lemma FirstIsLeast(ms: seq<Migration>, versions: set<int>, lo: int, hi: int)
    requires Ordered(ms, false) && Covers(ms, versions, lo, hi) && ms != []
    ensures ms[0].version in versions && lo < ms[0].version <= hi
    ensures forall w :: w in versions ==> !(lo < w < ms[0].version)
    ensures Covers(ms[1..], versions, ms[0].version, hi)
  {
    OrderedTail(ms, false);
    assert ms[0].version in Versions(ms);
    assert ms == ms[..1] + ms[1..];
    forall m | m in ms ensures m == ms[0] || m in ms[1..] {
    }
    assert Versions(ms) == {ms[0].version} + Versions(ms[1..]);
  }

  lemma FirstIsGreatest(ms: seq<Migration>, versions: set<int>, lo: int, hi: int, below: int)
    requires Ordered(ms, true) && Covers(ms, versions, lo, hi) && ms != [] && hi in versions && lo < hi
    requires below < hi && forall w :: w in versions ==> !(below < w < hi)
    ensures ms[0].version == hi
    ensures Covers(ms[1..], versions, lo, below)
  {
    OrderedTail(ms, true);
    assert hi in Versions(ms);
    assert ms == ms[..1] + ms[1..];
    forall m | m in ms ensures m == ms[0] || m in ms[1..] {
    }
    assert Versions(ms) == {ms[0].version} + Versions(ms[1..]);
  }

  /** A failure stops an upward loop at the first version that is not applied. */
  ghost predicate StoppedUp<S>(e: Effects<S>, versions: set<int>, db: Db<S>, v: int, works: int -> bool) {
    && v in versions && v > Current(db.applied) && Up(e, db, v, works).None?
    && forall w :: w in versions ==> !(Current(db.applied) < w < v)
  }

  /** Applying the registered versions up to `hi` in ascending order stays canonical, however far it gets. */
  lemma {:induction false} UpAllKeeps<S>(e: Effects<S>, versions: set<int>, base: S, db: Db<S>, ms: seq<Migration>, hi: int,
                                         works: int -> bool)
    requires Positive(versions) && Canonical(e, versions, base, db)
    requires Ordered(ms, false) && Covers(ms, versions, Current(db.applied), hi)
    ensures var o := RunAll(e, db, ms, works, false);
      && Canonical(e, versions, base, o.db)
      && Current(db.applied) <= Current(o.db.applied)
      && (o.failed.None? ==> o.done == ms && forall v :: v in versions && v <= hi ==> v in o.db.applied)
      && (o.failed.Some? ==> StoppedUp(e, versions, o.db, o.failed.value, works))
    decreases |ms|
  {
    if ms != [] {
      var v := ms[0].version;
      FirstIsLeast(ms, versions, Current(db.applied), hi);
      OrderedTail(ms, false);
      assert ms[..1] + ms[1..] == ms;
      if Up(e, db, v, works).Some? {
        UpKeeps(e, versions, base, db, v, works);
        UpAllKeeps(e, versions, base, Up(e, db, v, works).value, ms[1..], hi, works);
      }
    } else {
      forall v | v in versions && v <= hi ensures v in db.applied {
        assert v !in Versions(ms);
      }
    }
  }

  /** Rolling back to `lo` in descending order stays canonical, however far it gets. */
  lemma {:induction false} DownAllKeeps<S(!new)>(e: Effects<S>, versions: set<int>, base: S, db: Db<S>, ms: seq<Migration>,
                                                 lo: int, works: int -> bool)
    requires Positive(versions) && Undoes(e) && Canonical(e, versions, base, db)
    requires Ordered(ms, true) && Covers(ms, versions, lo, Current(db.applied))
    ensures var o := RunAll(e, db, ms, works, true);
      && Canonical(e, versions, base, o.db)
      && (o.failed.None? ==> o.done == ms && forall v :: v in o.db.applied <==> v in db.applied && v <= lo)
      && (o.failed.Some? ==> o.failed.value == Current(o.db.applied) > lo && Down(e, o.db, o.failed.value, works).None?)
    decreases |ms|
  {
    if ms != [] {
      var v := Current(db.applied);
      assert ms[0].version in Versions(ms);
      assert db.applied != {} && v in db.applied;
      assert ms[..1] + ms[1..] == ms;
      FirstIsGreatest(ms, versions, lo, v, v - 1);
      if Down(e, db, v, works).Some? {
        var d := Down(e, db, v, works).value;
        DownKeeps(e, versions, base, db, works);
        FirstIsGreatest(ms, versions, lo, v, Current(d.applied));
        OrderedTail(ms, true);
        DownAllKeeps(e, versions, base, d, ms[1..], lo, works);
      }
    } else {
      forall v | v in db.applied ensures v <= lo {
        assert v !in Versions(ms);
      }
    }
  }

  // ----- Runs of the manager -----

  datatype State<+S> = State(migrations: seq<Migration>, db: Db<S>)

  datatype Command =
    | CallMigrate(works: int -> bool)
    | CallMigrateTo(target: int, works: int -> bool)
    | CallRollback(works: int -> bool)

  function Migrated<S>(e: Effects<S>, st: State<S>, works: int -> bool): Outcome<S> {
    RunAll(e, st.db, Above(Sort(st.migrations, false), Current(st.db.applied)), works, false)
  }

  /** Upwards the list is used as it stands; downwards it is first sorted. */
  function Moved<S>(e: Effects<S>, st: State<S>, target: int, works: int -> bool): Outcome<S> {
    var current := Current(st.db.applied);
    if target > current then RunAll(e, st.db, Between(st.migrations, current, target), works, false)
    else if target < current then RunAll(e, st.db, Between(Sort(st.migrations, true), target, current), works, true)
    else Outcome(st.db, [], None)
  }

  function Listed<S>(st: State<S>, c: Command): seq<Migration> {
    match c
    case CallMigrate(_) => Sort(st.migrations, false)
    case CallMigrateTo(target, _) => if target < Current(st.db.applied) then Sort(st.migrations, true) else st.migrations
    case CallRollback(_) => st.migrations
  }

  function RolledBack<S>(e: Effects<S>, st: State<S>, works: int -> bool): Option<Db<S>> {
    var current := Current(st.db.applied);
    if current == 0 || current !in Versions(st.migrations) then None else Down(e, st.db, current, works)
  }

  function Step<S>(e: Effects<S>, st: State<S>, c: Command): State<S> {
    State(Listed(st, c),
          match c
          case CallMigrate(works) => Migrated(e, st, works).db
          case CallMigrateTo(target, works) => Moved(e, st, target, works).db
          case CallRollback(works) => var d := RolledBack(e, st, works); if d.Some? then d.value else st.db)
  }

  /** An upward `MigrateTo` finds the part of the list that it applies in ascending order. */
  ghost predicate Orderly<S>(st: State<S>, c: Command) {
    c.CallMigrateTo? ==> Ordered(Between(st.migrations, Current(st.db.applied), c.target), false)
                         || c.target <= Current(st.db.applied)
  }

  ghost predicate OrderlyRun<S>(e: Effects<S>, st: State<S>, cs: seq<Command>)
    decreases |cs|
  {
    cs == [] || (Orderly(st, cs[0]) && OrderlyRun(e, Step(e, st, cs[0]), cs[1..]))
  }

  function After<S>(e: Effects<S>, st: State<S>, cs: seq<Command>): State<S>
    decreases |cs|
  {
    if cs == [] then st else After(e, Step(e, st, cs[0]), cs[1..])
  }

  lemma SortedList(ms: seq<Migration>, descending: bool)
    requires Numbered(ms)
    ensures Numbered(Sort(ms, descending)) && Versions(Sort(ms, descending)) == Versions(ms)
    ensures Ordered(Sort(ms, descending), descending)
  {
    SortOrders(ms, descending);
    SortHolds(ms, descending);
    hide Sort;
    assert Versions(Sort(ms, descending)) == Versions(ms);
  }

  /** The pending migrations of a sorted list. */
  lemma PendingCovers(ms: seq<Migration>, current: int)
    requires Numbered(ms)
    ensures var pending := Above(Sort(ms, false), current);
      Ordered(pending, false) && Covers(pending, Versions(ms), current, Current(Versions(ms)))
  {
    SortedList(ms, false);
    var sorted, top := Sort(ms, false), Current(Versions(ms));
    assert forall m :: m in sorted ==> m.version in Versions(sorted);
    hide Sort, Numbered, Above, Between, Ordered, Covers;
    AboveIsBetween(sorted, current, top);
    BetweenSelects(sorted, current, top);
    BetweenCovers(sorted, current, top);
  }

  lemma MigratedKeeps<S>(e: Effects<S>, base: S, st: State<S>, works: int -> bool)
    requires Numbered(st.migrations) && Canonical(e, Versions(st.migrations), base, st.db)
    ensures var o := Migrated(e, st, works);
      && Canonical(e, Versions(st.migrations), base, o.db)
      && (o.failed.None? ==> o.db.applied == Versions(st.migrations))
      && (o.failed.Some? ==> StoppedUp(e, Versions(st.migrations), o.db, o.failed.value, works))
  {
    var versions := Versions(st.migrations);
    PendingCovers(st.migrations, Current(st.db.applied));
    hide Sort, Above, Covers, Ordered, RunAll, StoppedUp, Versions, Up;
    UpAllKeeps(e, versions, base, st.db, Above(Sort(st.migrations, false), Current(st.db.applied)), Current(versions), works);
    var o := Migrated(e, st, works);
    if o.failed.None? {
      assert forall v :: v in o.db.applied <==> v in versions;
      assert o.db.applied == versions;
    }
  }

  lemma MovedKeeps<S(!new)>(e: Effects<S>, base: S, st: State<S>, target: int, works: int -> bool)
    requires Numbered(st.migrations) && Undoes(e) && Canonical(e, Versions(st.migrations), base, st.db)
    requires Orderly(st, CallMigrateTo(target, works))
    ensures Canonical(e, Versions(st.migrations), base, Moved(e, st, target, works).db)
    ensures Moved(e, st, target, works).failed.None? ==>
      forall v :: v in Moved(e, st, target, works).db.applied <==> v in Versions(st.migrations) && v <= target
    ensures var o := Moved(e, st, target, works);
      o.failed.Some? ==>
        if target > Current(st.db.applied) then StoppedUp(e, Versions(st.migrations), o.db, o.failed.value, works) && o.failed.value <= target
        else o.failed.value == Current(o.db.applied) > target && Down(e, o.db, o.failed.value, works).None?
  {
    var current, versions := Current(st.db.applied), Versions(st.migrations);
    if target > current {
      var ms := Between(st.migrations, current, target);
      BetweenCovers(st.migrations, current, target);
      BetweenSelects(st.migrations, current, target);
      hide Covers, Ordered, RunAll, Between, Versions, Undoes, Sort;
      UpAllKeeps(e, versions, base, st.db, ms, target, works);
      RunsPrefix(e, st.db, ms, works, false);
      var o := RunAll(e, st.db, ms, works, false);
      assert forall v :: v in Versions(o.done) ==> v <= target by {
        assert forall m :: m in o.done ==> m in ms;
      }
    } else if target < current {
      SortedList(st.migrations, true);
      assert Positive(versions);
      var ms := Sort(st.migrations, true);
      hide Sort, Numbered, Orderly, Undoes, Versions, Covers, Ordered, RunAll, Between;
      BetweenSelects(ms, target, current);
      BetweenCovers(ms, target, current);
      DownAllKeeps(e, versions, base, st.db, Between(ms, target, current), target, works);
    }
  }

  lemma StepKeeps<S(!new)>(e: Effects<S>, base: S, st: State<S>, c: Command)
    requires Numbered(st.migrations) && Undoes(e) && Canonical(e, Versions(st.migrations), base, st.db) && Orderly(st, c)
    ensures Canonical(e, Versions(st.migrations), base, Step(e, st, c).db)
  {
    hide Numbered, Canonical, Migrated, Moved, Undoes, Orderly;
    match c
    case CallMigrate(works) => MigratedKeeps(e, base, st, works);
    case CallMigrateTo(target, works) => MovedKeeps(e, base, st, target, works);
    case CallRollback(works) => RolledBackKeeps(e, base, st, works);
  }

  lemma RolledBackKeeps<S(!new)>(e: Effects<S>, base: S, st: State<S>, works: int -> bool)
    requires Numbered(st.migrations) && Undoes(e) && Canonical(e, Versions(st.migrations), base, st.db)
    ensures RolledBack(e, st, works).Some? ==> Canonical(e, Versions(st.migrations), base, RolledBack(e, st, works).value)
  {
    if RolledBack(e, st, works).Some? {
      DownKeeps(e, Versions(st.migrations), base, st.db, works);
    }
  }

  lemma {:induction false} RunsStayCanonical<S(!new)>(e: Effects<S>, base: S, st: State<S>, cs: seq<Command>)
    requires Numbered(st.migrations) && Undoes(e) && Canonical(e, Versions(st.migrations), base, st.db)
    requires OrderlyRun(e, st, cs)
    ensures Canonical(e, Versions(st.migrations), base, After(e, st, cs).db)
    decreases |cs|
  {
    if cs != [] {
      StepKeeps(e, base, st, cs[0]);
      SortedList(st.migrations, false);
      SortedList(st.migrations, true);
      hide Sort, Versions, Numbered, Canonical, Undoes, Orderly, Migrated, Moved, RolledBack;
      RunsStayCanonical(e, base, Step(e, st, cs[0]), cs[1..]);
    }
  }

  // ----- What a call makes of the list, and so of the next upward move -----

  /** After a `Migrate` every upward `MigrateTo` is orderly. */
  lemma OrderlyAfterMigrate<S>(e: Effects<S>, st: State<S>, works: int -> bool, target: int, works': int -> bool)
    requires Numbered(st.migrations)
    ensures Orderly(Step(e, st, CallMigrate(works)), CallMigrateTo(target, works'))
  {
    var next := Step(e, st, CallMigrate(works));
    SortedList(st.migrations, false);
    hide Sort, Ordered, Between, RunAll;
    BetweenSelects(next.migrations, Current(next.db.applied), target);
  }

  /** No two of the versions lie above `lo` and up to `hi`. */
  ghost predicate AtMostOne(versions: set<int>, lo: int, hi: int) {
    forall v, w :: v in versions && w in versions && lo < v < w ==> w > hi
  }

  lemma DescendingIsAscendingIff(ms: seq<Migration>, versions: set<int>, lo: int, hi: int)
    requires Ordered(ms, true) && Covers(ms, versions, lo, hi)
    ensures Ordered(ms, false) <==> AtMostOne(versions, lo, hi)
  {
    if |ms| >= 2 {
      assert Before(ms[0], ms[1], true);
      assert ms[0].version in Versions(ms) && ms[1].version in Versions(ms);
    }
  }

  /**
   * After a downward `MigrateTo`, which leaves the list in descending order, an upward one is orderly if and only if it
   * has no two versions to apply.
   */
  lemma OrderlyAfterDownIff<S>(e: Effects<S>, st: State<S>, down: int, works: int -> bool, target: int, works': int -> bool)
    requires Numbered(st.migrations) && down < Current(st.db.applied)
    requires target > Current(Step(e, st, CallMigrateTo(down, works)).db.applied)
    ensures var next := Step(e, st, CallMigrateTo(down, works));
      Orderly(next, CallMigrateTo(target, works')) <==> AtMostOne(Versions(st.migrations), Current(next.db.applied), target)
  {
    var next := Step(e, st, CallMigrateTo(down, works));
    var current := Current(next.db.applied);
    hide Sort, Between, RunAll, Numbered, Versions, Covers, Ordered, AtMostOne, Current;
    SortedList(st.migrations, true);
    BetweenSelects(next.migrations, current, target);
    BetweenCovers(next.migrations, current, target);
    DescendingIsAscendingIff(Between(next.migrations, current, target), Versions(st.migrations), current, target);
  }

  /**
   * Whatever `Migrate`, `MigrateTo` and `Rollback` were called, failed or not, on a fresh database: if every upward
   * `MigrateTo` was orderly, the database depends on nothing but the version it is at.
   */
  lemma SchemaFollowsVersion<S(!new)>(e: Effects<S>, base: S, ms: seq<Migration>, cs: seq<Command>, ds: seq<Command>)
    requires Numbered(ms) && Undoes(e)
    requires OrderlyRun(e, State(ms, Db({}, base)), cs) && OrderlyRun(e, State(ms, Db({}, base)), ds)
    ensures var a, b := After(e, State(ms, Db({}, base)), cs).db, After(e, State(ms, Db({}, base)), ds).db;
      Current(a.applied) == Current(b.applied) ==> a == b
  {
    var st := State(ms, Db({}, base));
    assert Canonical(e, Versions(ms), base, st.db);
    RunsStayCanonical(e, base, st, cs);
    RunsStayCanonical(e, base, st, ds);
    hide Canonical, Undoes, Numbered, OrderlyRun, After;
    var a, b := After(e, st, cs).db, After(e, st, ds).db;
    if Current(a.applied) == Current(b.applied) {
      VersionDeterminesSchema(e, Versions(ms), base, a, b);
    }
  }

  // ----- Why the order matters -----

  /** A schema that records what was run: each up appends its version, its down takes that version off again. */
  const LOG: Effects<seq<int>> := Effects(
    (v, s) => Some(s + [v]),
    (v, s) => if s != [] && s[|s| - 1] == v then Some(s[..|s| - 1]) else None)

  /** Every transaction commits. */
  const ALL: int -> bool := v => true

  const ALL_BUT_FIRST: int -> bool := v => v != 1

  /** The log is a schema as the theorems above ask for. */
  lemma LogUndoes()
    ensures Undoes(LOG)
  {
    forall v, s: seq<int> ensures LOG.down(v, LOG.up(v, s).value) == Some(s) {
      assert (s + [v])[..|s|] == s;
    }
  }

  ghost predicate Ascending(vs: seq<int>) {
    forall i, j :: 0 <= i < j < |vs| ==> vs[i] < vs[j]
  }

  function VersionList(ms: seq<Migration>): seq<int> {
    seq(|ms|, i requires 0 <= i < |ms| => ms[i].version)
  }

  lemma {:induction false} LogAscends(versions: set<int>, v: int)
    ensures var s := SchemaAt(LOG, versions, [], v);
      s.Some? && Ascending(s.value) && forall x :: x in s.value ==> x <= v
    decreases if v > 0 then v else 0
  {
    if v > 0 {
      LogAscends(versions, v - 1);
      var before := SchemaAt(LOG, versions, [], v - 1).value;
      assert forall i :: 0 <= i < |before| ==> before[i] in before;
    }
  }

  /** With the log schema: after every orderly run the log is ascending. */
  lemma OrderlyLogAscends(ms: seq<Migration>, cs: seq<Command>)
    requires Numbered(ms) && OrderlyRun(LOG, State(ms, Db({}, [])), cs)
    ensures Ascending(After(LOG, State(ms, Db({}, [])), cs).db.schema)
  {
    var st := State(ms, Db({}, []));
    assert Canonical(LOG, Versions(ms), [], st.db);
    LogUndoes();
    hide Undoes, OrderlyRun, After, Numbered, SchemaAt;
    RunsStayCanonical(LOG, [], st, cs);
    LogAscends(Versions(ms), Current(After(LOG, st, cs).db.applied));
  }

  lemma {:induction false} LogRun(db: Db<seq<int>>, ms: seq<Migration>)
    requires NoRepeats(ms) && forall m :: m in ms ==> m.version !in db.applied
    ensures RunAll(LOG, db, ms, ALL, false).db.schema == db.schema + VersionList(ms)
    decreases |ms|
  {
    if ms != [] {
      var d := Up(LOG, db, ms[0].version, ALL).value;
      LogRun(d, ms[1..]);
      assert VersionList(ms) == [ms[0].version] + VersionList(ms[1..]);
    }
  }

  lemma {:induction false} BetweenDistinct(ms: seq<Migration>, lo: int, hi: int)
    requires NoRepeats(ms)
    ensures NoRepeats(Between(ms, lo, hi))
  {
    if ms != [] {
      BetweenDistinct(ms[1..], lo, hi);
      BetweenSelects(ms[1..], lo, hi);
      var rest := Between(ms[1..], lo, hi);
      forall k | 0 <= k < |rest| ensures rest[k].version != ms[0].version {
        assert rest[k] in ms[1..];
      }
      assert NoRepeats([ms[0]] + rest);
      assert ms[..1] == [ms[0]];
    }
  }

  /**
   * An upward `MigrateTo` of any list leaves the log of its version if and only if the part of the list that it applies
   * is ascending; nothing in `MigrateTo` sorts it upwards.
   */
  lemma CanonicalIffOrderly(st: State<seq<int>>, target: int)
    requires Numbered(st.migrations) && Canonical(LOG, Versions(st.migrations), [], st.db)
    requires target > Current(st.db.applied)
    ensures Canonical(LOG, Versions(st.migrations), [], Moved(LOG, st, target, ALL).db)
      <==> Ordered(Between(st.migrations, Current(st.db.applied), target), false)
  {
    if Ordered(Between(st.migrations, Current(st.db.applied), target), false) {
      LogUndoes();
      MovedKeeps(LOG, [], st, target, ALL);
    }
    if Canonical(LOG, Versions(st.migrations), [], Moved(LOG, st, target, ALL).db) {
      CanonicalMeansOrdered(st, target);
    }
  }

  lemma CanonicalMeansOrdered(st: State<seq<int>>, target: int)
    requires Numbered(st.migrations) && target > Current(st.db.applied)
    requires Canonical(LOG, Versions(st.migrations), [], Moved(LOG, st, target, ALL).db)
    ensures Ordered(Between(st.migrations, Current(st.db.applied), target), false)
  {
    var current := Current(st.db.applied);
    BetweenDistinct(st.migrations, current, target);
    BetweenSelects(st.migrations, current, target);
    hide Between, Ordered, RunAll, NoRepeats, Versions;
    LogRun(st.db, Between(st.migrations, current, target));
    LogAscends(Versions(st.migrations), Current(Moved(LOG, st, target, ALL).db.applied));
    LogOrdered(st.db.schema, Between(st.migrations, current, target));
  }

  lemma LogOrdered(before: seq<int>, ms: seq<Migration>)
    requires Ascending(before + VersionList(ms))
    ensures Ordered(ms, false)
  {
    var log := before + VersionList(ms);
    forall i, j | 0 <= i < j < |ms| ensures ms[i].version < ms[j].version {
      assert log[|before| + i] < log[|before| + j];
    }
  }

  /** A version below the current one that is not applied is not pending: `Migrate` never applies it. */
  lemma SkippedStaysSkipped<S>(e: Effects<S>, st: State<S>, v: int, works: int -> bool)
    requires v !in st.db.applied && v <= Current(st.db.applied)
    ensures v !in Migrated(e, st, works).db.applied
  {
    var sorted, current := Sort(st.migrations, false), Current(st.db.applied);
    assert forall m :: m in sorted ==> m.version in Versions(sorted);
    AboveIsBetween(sorted, current, Current(Versions(sorted)));
    BetweenSelects(sorted, current, Current(Versions(sorted)));
    RunsPrefix(e, st.db, Above(sorted, current), works, false);
  }

  /**
   * It does happen: with the first two versions listed the other way round and the transaction of the first failing, an
   * upward `MigrateTo` applies the second without the first.
   */
  lemma SecondWithoutFirst(one: Migration, two: Migration)
    requires one.version == 1 && two.version == 2
    ensures Moved(LOG, State([two, one], Db({}, [])), 2, ALL_BUT_FIRST) == Outcome(Db({2}, [2]), [two], Some(1))
  {
    assert [two, one][1..] == [one] && [two, one][..1] == [two] && [one][..1] == [one];
    assert Between([one], 0, 2) == [one];
    assert Between([two, one], 0, 2) == [two, one];
    assert RunAll(LOG, Db({2}, [2]), [one], ALL_BUT_FIRST, false) == Outcome(Db({2}, [2]), [], Some(1));
    assert {} + {2} == {2} && [] + [2] == [2];
    assert Up(LOG, Db({}, []), 2, ALL_BUT_FIRST) == Some(Db({2}, [2]));
  }

  // ----- The manager -----

  function Prepend<S>(done: seq<Migration>, o: Outcome<S>): Outcome<S> {
    Outcome(o.db, done + o.done, o.failed)
  }

  ghost predicate SameEnd<S>(a: Outcome<S>, b: Outcome<S>) {
    a.db == b.db && a.failed == b.failed
  }

  lemma RunNone<S>(e: Effects<S>, db: Db<S>, works: int -> bool, down: bool)
    ensures RunAll(e, db, [], works, down) == Outcome(db, [], None)
  {
  }

  lemma RunCons<S>(e: Effects<S>, db: Db<S>, m: Migration, ms: seq<Migration>, works: int -> bool, down: bool)
    ensures var next := One(e, db, m.version, works, down);
      RunAll(e, db, [m] + ms, works, down) == if next.None? then Outcome(db, [], Some(m.version))
                                              else Prepend([m], RunAll(e, next.value, ms, works, down))
  {
    assert ([m] + ms)[1..] == ms && ([m] + ms)[..1] == [m];
  }

  lemma NextBetween(ms: seq<Migration>, i: nat, lo: int, hi: int)
    requires i <= |ms|
    ensures i == |ms| ==> Between(ms[i..], lo, hi) == []
    ensures i < |ms| ==>
      Between(ms[i..], lo, hi) == (if lo < ms[i].version <= hi then [ms[i]] else []) + Between(ms[i + 1..], lo, hi)
  {
    if i < |ms| {
      assert ms[i..][1..] == ms[i + 1..] && ms[i..][..1] == [ms[i]];
    }
  }

  class Manager<S(!new)> {
    const effects: Effects<S>
    var migrations: seq<Migration>
    var applied: set<int>
    var schema: S

    constructor (effects: Effects<S>, schema: S)
      ensures this.effects == effects && Now() == State([], Db({}, schema))
    {
      this.effects, migrations, applied, this.schema := effects, [], {}, schema;
    }

    function Now(): State<S>
      reads this
    {
      State(migrations, Db(applied, schema))
    }

    method Register(m: Migration)
      modifies this`migrations
      ensures migrations == old(migrations) + [m]
    {
      migrations := migrations + [m];
    }

    method Pending() returns (pending: seq<Migration>)
      modifies this`migrations
      ensures migrations == Sort(old(migrations), false) && pending == Above(migrations, Current(applied))
    {
      var current := Current(applied);
      migrations := Sort(migrations, false);
      pending := [];
      for i := 0 to |migrations|
        invariant pending + Above(migrations[i..], current) == Above(migrations, current)
      {
        if migrations[i].version > current {
          pending := pending + [migrations[i]];
        }
        assert migrations[i..][1..] == migrations[i + 1..];
        assert migrations[i..][..1] == [migrations[i]];
      }
    }

    /** Runs a migration and records it in one transaction: both or neither. */
    method ApplyMigration(v: int, works: int -> bool) returns (ok: bool)
      modifies this`applied, this`schema
      ensures var d := Up(effects, old(Now()).db, v, works);
        ok == d.Some? && Now().db == if ok then d.value else old(Now()).db
      ensures ok <==> works(v) && effects.up(v, old(schema)).Some? && v !in old(applied)
      ensures if ok then applied == old(applied) + {v} && Some(schema) == effects.up(v, old(schema))
              else applied == old(applied) && schema == old(schema)
    {
      if !works(v) {
        return false;
      }
      var s := effects.up(v, schema);
      if s.None? || v in applied {
        return false;
      }
      schema, applied := s.value, applied + {v};
      return true;
    }

    method RollbackMigration(v: int, works: int -> bool) returns (ok: bool)
      modifies this`applied, this`schema
      ensures var d := Down(effects, old(Now()).db, v, works);
        ok == d.Some? && Now().db == if ok then d.value else old(Now()).db
      ensures ok <==> works(v) && effects.down(v, old(schema)).Some?
      ensures if ok then applied == old(applied) - {v} && Some(schema) == effects.down(v, old(schema))
              else applied == old(applied) && schema == old(schema)
    {
      if !works(v) {
        return false;
      }
      var s := effects.down(v, schema);
      if s.None? {
        return false;
      }
      schema, applied := s.value, applied - {v};
      return true;
    }

    method Migrate(works: int -> bool) returns (done: seq<Migration>, failed: Option<int>)
      modifies this`migrations, this`applied, this`schema
      ensures Now() == Step(effects, old(Now()), CallMigrate(works))
      ensures done == Migrated(effects, old(Now()), works).done && failed == Migrated(effects, old(Now()), works).failed
    {
      hide Up, Down, Sort, Above, RunAll;
      var pending := Pending();
      done := [];
      for i := 0 to |pending|
        invariant migrations == Sort(old(migrations), false)
        invariant var o := RunAll(effects, old(Now()).db, pending, works, false);
          o == Prepend(done, RunAll(effects, Now().db, pending[i..], works, false))
      {
        RunCons(effects, Now().db, pending[i], pending[i + 1..], works, false);
        assert pending[i..] == [pending[i]] + pending[i + 1..];
        var ok := ApplyMigration(pending[i].version, works);
        if !ok {
          return done, Some(pending[i].version);
        }
        done := done + [pending[i]];
      }
      RunNone(effects, Now().db, works, false);
      return done, None;
    }

    method MigrateTo(target: int, works: int -> bool) returns (failed: Option<int>)
      modifies this`migrations, this`applied, this`schema
      ensures Now() == Step(effects, old(Now()), CallMigrateTo(target, works))
      ensures failed == Moved(effects, old(Now()), target, works).failed
    {
      hide RunAll, Sort, Between;
      var current := Current(applied);
      if target > current {
        failed := Walk(current, target, works, false);
      } else if target < current {
        migrations := Sort(migrations, true);
        failed := Walk(target, current, works, true);
      } else {
        failed := None;
      }
    }

    /** The loop of either branch of `MigrateTo`. */
    method Walk(lo: int, hi: int, works: int -> bool, down: bool) returns (failed: Option<int>)
      modifies this`applied, this`schema
      ensures var o := RunAll(effects, old(Now()).db, Between(migrations, lo, hi), works, down);
        Now().db == o.db && failed == o.failed
    {
      hide Up, Down, RunAll, Between;
      for i := 0 to |migrations|
        invariant SameEnd(RunAll(effects, old(Now()).db, Between(migrations, lo, hi), works, down),
                          RunAll(effects, Now().db, Between(migrations[i..], lo, hi), works, down))
      {
        var m := migrations[i];
        NextBetween(migrations, i, lo, hi);
        if lo < m.version <= hi {
          RunCons(effects, Now().db, m, Between(migrations[i + 1..], lo, hi), works, down);
          var ok;
          if down {
            ok := RollbackMigration(m.version, works);
          } else {
            ok := ApplyMigration(m.version, works);
          }
          if !ok {
            return Some(m.version);
          }
        } else {
          assert [] + Between(migrations[i + 1..], lo, hi) == Between(migrations[i + 1..], lo, hi);
        }
      }
      NextBetween(migrations, |migrations|, lo, hi);
      RunNone(effects, Now().db, works, down);
      return None;
    }

    method Rollback(works: int -> bool) returns (r: Result<Migration, RollbackError>)
      modifies this`applied, this`schema
      ensures Now() == Step(effects, old(Now()), CallRollback(works))
      ensures r == Err(NoMigrations) <==> Current(old(applied)) == 0
      ensures r == Err(NotFound) <==> Current(old(applied)) != 0 && Current(old(applied)) !in Versions(migrations)
      ensures r == Err(RollbackFailed) <==>
        && Current(old(applied)) != 0 && Current(old(applied)) in Versions(migrations)
        && !(works(Current(old(applied))) && effects.down(Current(old(applied)), old(schema)).Some?)
      ensures r.Ok? ==> applied == old(applied) - {Current(old(applied))} && Some(schema) == effects.down(Current(old(applied)), old(schema))
      ensures r.Err? ==> applied == old(applied) && schema == old(schema)
      ensures r.Ok? ==> r.value in migrations && r.value.version == Current(old(applied))
    {
      var current := Current(applied);
      if current == 0 {
        return Err(NoMigrations);
      }
      for i := 0 to |migrations|
        invariant forall k :: 0 <= k < i ==> migrations[k].version != current
      {
        if migrations[i].version == current {
          assert current in Versions(migrations);
          var ok := RollbackMigration(current, works);
          return if ok then Ok(migrations[i]) else Err(RollbackFailed);
        }
      }
      return Err(NotFound);
    }
  }

  datatype RollbackError = NoMigrations | NotFound | RollbackFailed
}
