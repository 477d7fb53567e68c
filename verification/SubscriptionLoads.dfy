/**
 `loadUserSubscriptionsFromDB` of `subscription/data.go`. One goroutine a row queues three commands on a pipeline, and
 the pipeline is executed without waiting for the goroutines: what is queued later is never sent. A schedule says
 which goroutine queues its next command, step by step, up to the execution.
 */
module SubscriptionLoads {
  import opened Decimal
  import opened SubscriptionCache

  // ---- The pipeline ----

  datatype Command = HSet(key: Key, row: Subscription) | Set(key: Key, value: Key)

  function Send(db: Db, c: Command): Db {
    match c
    case HSet(k, row) => db.(hashes := db.hashes[k := row])
    case Set(k, v) => db.(pointers := db.pointers[k := v])
  }

  function Exec(db: Db, pipe: seq<Command>): Db {
    if pipe == [] then db else Send(Exec(db, pipe[..|pipe| - 1]), pipe[|pipe| - 1])
  }

  lemma ExecSnoc(db: Db, pipe: seq<Command>, c: Command)
    ensures Exec(db, pipe + [c]) == Send(Exec(db, pipe), c)
  {
    assert (pipe + [c])[..|pipe|] == pipe;
  }

  lemma {:induction false} ExecKeepsTable(db: Db, pipe: seq<Command>)
    ensures Exec(db, pipe).table == db.table
  {
    if pipe != [] {
      ExecKeepsTable(db, pipe[..|pipe| - 1]);
    }
  }

  predicate IsSchedule(schedule: seq<nat>, rows: seq<Subscription>) {
    forall j :: 0 <= j < |schedule| ==> schedule[j] < |rows|
  }

  /** How many of the first `n` steps are of goroutine `i`. */
  function Count(schedule: seq<nat>, n: nat, i: nat): nat
    requires n <= |schedule|
  {
    if n == 0 then 0 else Count(schedule, n - 1, i) + if schedule[n - 1] == i then 1 else 0
  }

  /** `typeCount[t]` after the first `n` steps. */
  function TypeCount(rows: seq<Subscription>, schedule: seq<nat>, n: nat, t: string): nat
    requires IsSchedule(schedule, rows) && n <= |schedule|
  {
    if n == 0 then 0 else TypeCount(rows, schedule, n - 1, t) + if ListsAt(rows, schedule, n - 1, t) then 1 else 0
  }

  /** Step `n` enters a row of type `t` into the type index. */
  predicate ListsAt(rows: seq<Subscription>, schedule: seq<nat>, n: nat, t: string)
    requires IsSchedule(schedule, rows) && n < |schedule|
  {
    Count(schedule, n, schedule[n]) == 2 && rows[schedule[n]].subType == t
  }

  /** The command queued in step `n`, if its goroutine is not done. */
  function CommandAt(user: int, rows: seq<Subscription>, schedule: seq<nat>, n: nat): seq<Command>
    requires IsSchedule(schedule, rows) && n < |schedule|
  {
    var i, done := schedule[n], Count(schedule, n, schedule[n]);
    if done == 0 then [HSet(HashKey(user, i), rows[i])]
    else if done == 1 then [Set(IdKey(rows[i].id), HashKey(user, i))]
    else if done == 2 then [Set(TypeKey(rows[i].subType, user, TypeCount(rows, schedule, n, rows[i].subType)),
      HashKey(user, i))]
    else []
  }

  function Queued(user: int, rows: seq<Subscription>, schedule: seq<nat>, n: nat): seq<Command>
    requires IsSchedule(schedule, rows) && n <= |schedule|
  {
    if n == 0 then [] else Queued(user, rows, schedule, n - 1) + CommandAt(user, rows, schedule, n - 1)
  }

  /** The goroutines queue their commands, each one at a time, in the order of the schedule. */
  method QueueCommands(user: int, rows: seq<Subscription>, schedule: seq<nat>) returns (pipe: seq<Command>)
    requires IsSchedule(schedule, rows)
    ensures pipe == Queued(user, rows, schedule, |schedule|)
  {
    pipe := [];
    var done := new nat[|rows|](_ => 0);
    var typeCount: map<string, nat> := map[];
    for n := 0 to |schedule|
      invariant forall i :: 0 <= i < |rows| ==> done[i] == Count(schedule, n, i)
      invariant forall t :: TypeCount(rows, schedule, n, t) == if t in typeCount then typeCount[t] else 0
      invariant pipe == Queued(user, rows, schedule, n)
    {
      var i := schedule[n];
      var row, key := rows[i], HashKey(user, i);
      if done[i] == 0 {
        pipe := pipe + [HSet(key, row)];
      } else if done[i] == 1 {
        pipe := pipe + [Set(IdKey(row.id), key)];
      } else if done[i] == 2 {
        if row.subType !in typeCount {
          typeCount := typeCount[row.subType := 0];
        }
        pipe := pipe + [Set(TypeKey(row.subType, user, typeCount[row.subType]), key)];
        typeCount := typeCount[row.subType := typeCount[row.subType] + 1];
      }
      done[i] := done[i] + 1;
    }
  }

  // ---- What a load leaves ----

  /** The cache after `n` steps, if the pipeline is executed then. */
  function After(db: Db, user: int, rows: seq<Subscription>, schedule: seq<nat>, n: nat): Db
    requires IsSchedule(schedule, rows) && n <= |schedule|
  {
    Exec(db, Queued(user, rows, schedule, n))
  }

  function Loaded(db: Db, user: int, rows: seq<Subscription>, schedule: seq<nat>): Db
    requires IsSchedule(schedule, rows)
  {
    After(db, user, rows, schedule, |schedule|)
  }

  lemma AfterStep(db: Db, user: int, rows: seq<Subscription>, schedule: seq<nat>, n: nat)
    requires IsSchedule(schedule, rows) && n < |schedule|
    ensures var cs := CommandAt(user, rows, schedule, n);
      After(db, user, rows, schedule, n + 1) ==
        if cs == [] then After(db, user, rows, schedule, n)
        else Send(After(db, user, rows, schedule, n), cs[0])
  {
    var q, cs := Queued(user, rows, schedule, n), CommandAt(user, rows, schedule, n);
    if cs == [] {
      assert q + cs == q;
    } else {
      assert cs == [cs[0]];
      ExecSnoc(db, q, cs[0]);
    }
  }

  lemma AfterNone(db: Db, user: int, rows: seq<Subscription>, schedule: seq<nat>)
    requires IsSchedule(schedule, rows)
    ensures After(db, user, rows, schedule, 0) == db
  {
  }

  /** Hash `k` of the user holds its row once goroutine `k` has queued its first command; other hashes are as before. */
  lemma {:induction false} HashAfter(db: Db, user: int, rows: seq<Subscription>, schedule: seq<nat>, n: nat, k: Key)
    requires IsSchedule(schedule, rows) && n <= |schedule|
    ensures
      Find(After(db, user, rows, schedule, n).hashes, k) ==
      if k.HashKey? && k.user == user && 0 <= k.index < |rows| && Count(schedule, n, k.index) >= 1
        then Some(rows[k.index])
      else Find(db.hashes, k)
  {
    hide After;
    AfterNone(db, user, rows, schedule);
    if n > 0 {
      HashAfter(db, user, rows, schedule, n - 1, k);
      AfterStep(db, user, rows, schedule, n - 1);
    }
  }

  ghost predicate DistinctIds(rows: seq<Subscription>) {
    forall i, j :: 0 <= i < j < |rows| ==> rows[i].id != rows[j].id
  }

  /** The index entry of row `i` names hash `i` once goroutine `i` has queued its second command. */
  lemma {:induction false} EntryAfter(db: Db, user: int, rows: seq<Subscription>, schedule: seq<nat>, n: nat, i: nat)
    requires IsSchedule(schedule, rows) && n <= |schedule| && DistinctIds(rows) && i < |rows|
    ensures Entry(After(db, user, rows, schedule, n), rows[i].id) ==
      if Count(schedule, n, i) >= 2 then Some(HashKey(user, i)) else Entry(db, rows[i].id)
  {
    hide After;
    AfterNone(db, user, rows, schedule);
    if n > 0 {
      EntryAfter(db, user, rows, schedule, n - 1, i);
      AfterStep(db, user, rows, schedule, n - 1);
    }
  }

  /** Index entries of other ids are as before, and so is the table. */
  lemma {:induction false} OtherEntryAfter(db: Db, user: int, rows: seq<Subscription>, schedule: seq<nat>, n: nat,
          id: int)
    requires IsSchedule(schedule, rows) && n <= |schedule| && forall i :: 0 <= i < |rows| ==> rows[i].id != id
    ensures Entry(After(db, user, rows, schedule, n), id) == Entry(db, id)
  {
    hide After;
    AfterNone(db, user, rows, schedule);
    if n > 0 {
      OtherEntryAfter(db, user, rows, schedule, n - 1, id);
      AfterStep(db, user, rows, schedule, n - 1);
    }
  }

  lemma TableAfter(db: Db, user: int, rows: seq<Subscription>, schedule: seq<nat>, n: nat)
    requires IsSchedule(schedule, rows) && n <= |schedule|
    ensures After(db, user, rows, schedule, n).table == db.table
  {
    ExecKeepsTable(db, Queued(user, rows, schedule, n));
  }

  lemma {:induction false} TypeCountGrows(rows: seq<Subscription>, schedule: seq<nat>, m: nat, n: nat, t: string)
    requires IsSchedule(schedule, rows) && m < n <= |schedule| && ListsAt(rows, schedule, m, t)
    ensures TypeCount(rows, schedule, m, t) < TypeCount(rows, schedule, n, t)
  {
    if m < n - 1 {
      TypeCountGrows(rows, schedule, m, n - 1, t);
    }
  }

  /** The steps before `n` that entered a row of type `t` into the type index. */
  ghost function ListedBefore(rows: seq<Subscription>, schedule: seq<nat>, n: nat, t: string): set<nat>
    requires IsSchedule(schedule, rows) && n <= |schedule|
  {
    set m: nat | m < n && ListsAt(rows, schedule, m, t)
  }

  lemma {:induction false} TypeCountIs(rows: seq<Subscription>, schedule: seq<nat>, n: nat, t: string)
    requires IsSchedule(schedule, rows) && n <= |schedule|
    ensures TypeCount(rows, schedule, n, t) == |ListedBefore(rows, schedule, n, t)|
  {
    if n == 0 {
      assert ListedBefore(rows, schedule, 0, t) == {};
    } else {
      TypeCountIs(rows, schedule, n - 1, t);
      var before := ListedBefore(rows, schedule, n - 1, t);
      assert ListedBefore(rows, schedule, n, t) == before + if ListsAt(rows, schedule, n - 1, t) then {n - 1} else {};
    }
  }

  /** The type index numbers the rows of each type from 0 in the order in which they were entered, and keeps each
      entry. */
  lemma {:induction false} TypeListed(db: Db, user: int, rows: seq<Subscription>, schedule: seq<nat>, m: nat, n: nat,
          t: string)
    requires IsSchedule(schedule, rows) && m < n <= |schedule| && ListsAt(rows, schedule, m, t)
    ensures Find(After(db, user, rows, schedule, n).pointers, TypeKey(t, user, |ListedBefore(rows, schedule, m, t)|)) ==
      Some(HashKey(user, schedule[m]))
  {
    hide After, ListedBefore;
    TypeCountIs(rows, schedule, m, t);
    TypeCountIs(rows, schedule, n - 1, t);
    AfterStep(db, user, rows, schedule, n - 1);
    if m < n - 1 {
      TypeListed(db, user, rows, schedule, m, n - 1, t);
      TypeCountGrows(rows, schedule, m, n - 1, t);
    }
  }

  // ---- When a load keeps the cache coherent ----

  /** `rows` has one row for each of the user's subscriptions, current or not. */
  ghost predicate RowsFor(t: Table, user: int, rows: seq<Subscription>) {
    && DistinctIds(rows)
    && (forall i :: 0 <= i < |rows| ==> rows[i].userId == user && Owns(t, user, rows[i].id))
    && (forall id :: Owns(t, user, id) ==> HasId(rows, id))
  }

  ghost predicate HasId(rows: seq<Subscription>, id: int) {
    exists i :: 0 <= i < |rows| && rows[i].id == id
  }

  ghost predicate Current(t: Table, rows: seq<Subscription>) {
    forall i :: 0 <= i < |rows| ==> rows[i].id in t && rows[i] == t[rows[i].id]
  }

  /** `rows` is a result of selecting the user's subscriptions, in any order. */
  ghost predicate IsSelection(t: Table, user: int, rows: seq<Subscription>) {
    RowsFor(t, user, rows) && Current(t, rows)
  }

  /** A scan visits no hash twice. */
  predicate Once(scan: seq<int>) {
    forall i, j :: 0 <= i < j < |scan| ==> scan[i] != scan[j]
  }

  lemma ScannedRow(db: Db, user: int, k: int)
    requires Coherent(db) && FullFor(db, user) && HashKey(user, k) in db.hashes
    ensures var row := db.hashes[HashKey(user, k)];
      row.userId == user && Owns(db.table, user, row.id) && Entry(db, row.id) == Some(HashKey(user, k))
  {
    assert CoherentFor(db, user) && Named(db, user, HashKey(user, k));
    var id :| Owns(db.table, user, id) && Entry(db, id) == Some(HashKey(user, k));
    assert Exact(db, user, id);
  }

  lemma KeyedRow(db: Db, id: int)
    requires Coherent(db) && id in db.table
    ensures db.table[id].id == id
  {
  }

  lemma OnceIffDistinct(db: Db, user: int, scan: seq<int>, rows: seq<Subscription>)
    requires |rows| == |scan| && forall i :: 0 <= i < |rows| ==>
      && HashKey(user, scan[i]) in db.hashes && rows[i] == db.hashes[HashKey(user, scan[i])]
      && Entry(db, rows[i].id) == Some(HashKey(user, scan[i]))
    ensures Once(scan) <==> DistinctIds(rows)
  {
  }

  /** Scanning a complete cache gives what selecting the user's rows may give if and only if it visits no hash twice. */
  lemma ScanSelectsIff(db: Db, user: int, scan: seq<int>)
    requires Coherent(db) && FullFor(db, user) && HashKey(user, 0) in db.hashes && ScanOf(db.hashes, user, scan)
    ensures IsSelection(db.table, user, Scanned(db.hashes, user, scan)) <==> Once(scan)
  {
    hide Once, DistinctIds, FullFor, Coherent;
    var rows := Scanned(db.hashes, user, scan);
    ScanLists(db, user, scan);
    forall i | 0 <= i < |rows| ensures rows[i].userId == user && Entry(db, rows[i].id) == Some(HashKey(user, scan[i])) {
      ScannedRow(db, user, scan[i]);
    }
    forall id | Owns(db.table, user, id) ensures HasId(rows, id) {
      KeyedRow(db, id);
      var k :| 0 <= k < |rows| && rows[k] == db.table[id];
    }
    OnceIffDistinct(db, user, scan, rows);
  }

  /** Every goroutine has queued its three commands before the pipeline is executed. */
  predicate Complete(schedule: seq<nat>, rows: seq<Subscription>) {
    forall i: nat :: i < |rows| ==> Finished(schedule, |schedule|, i)
  }

  predicate Finished(schedule: seq<nat>, n: nat, i: nat)
    requires n <= |schedule|
  {
    Count(schedule, n, i) >= 3
  }

  function AtMostThree(n: nat): nat {
    if n < 3 then n else 3
  }

  /** The commands queued in the first `n` steps by the first `k` goroutines. */
  function QueuedBy(schedule: seq<nat>, n: nat, k: nat): nat
    requires n <= |schedule|
  {
    if k == 0 then 0 else QueuedBy(schedule, n, k - 1) + AtMostThree(Count(schedule, n, k - 1))
  }

  lemma {:induction false} QueuedByNext(schedule: seq<nat>, n: nat, k: nat)
    requires n < |schedule|
    ensures QueuedBy(schedule, n + 1, k) ==
      QueuedBy(schedule, n, k) + if schedule[n] < k && Count(schedule, n, schedule[n]) < 3 then 1 else 0
  {
    if k > 0 {
      QueuedByNext(schedule, n, k - 1);
    }
  }

  lemma {:induction false} NoneQueued(schedule: seq<nat>, k: nat)
    ensures QueuedBy(schedule, 0, k) == 0
  {
    if k > 0 {
      NoneQueued(schedule, k - 1);
    }
  }

  lemma {:induction false} QueuedLength(user: int, rows: seq<Subscription>, schedule: seq<nat>, n: nat)
    requires IsSchedule(schedule, rows) && n <= |schedule|
    ensures |Queued(user, rows, schedule, n)| == QueuedBy(schedule, n, |rows|)
  {
    if n == 0 {
      NoneQueued(schedule, |rows|);
    } else {
      QueuedLength(user, rows, schedule, n - 1);
      QueuedByNext(schedule, n - 1, |rows|);
    }
  }

  lemma {:induction false} AllThree(schedule: seq<nat>, n: nat, k: nat)
    requires n <= |schedule|
    ensures QueuedBy(schedule, n, k) <= 3 * k
    ensures QueuedBy(schedule, n, k) == 3 * k <==> forall i: nat :: i < k ==> Finished(schedule, n, i)
  {
    if k > 0 {
      AllThree(schedule, n, k - 1);
      assert QueuedBy(schedule, n, k) == 3 * k <==>
        QueuedBy(schedule, n, k - 1) == 3 * (k - 1) && Finished(schedule, n, k - 1);
    }
  }

  /** A load is complete exactly if the pipeline that is executed holds three commands for each row. */
  lemma CompleteIff(user: int, rows: seq<Subscription>, schedule: seq<nat>)
    requires IsSchedule(schedule, rows)
    ensures Complete(schedule, rows) <==> |Queued(user, rows, schedule, |schedule|)| == 3 * |rows|
  {
    var n := |schedule|;
    QueuedLength(user, rows, schedule, n);
    AllThree(schedule, n, |rows|);
  }

  /** No hash that the load writes is named by the index entry of another row. */
  ghost predicate NoClash(db: Db, user: int, rows: seq<Subscription>) {
    forall id, k :: Entry(db, id) == Some(HashKey(user, k)) && 0 <= k < |rows| ==> rows[k].id == id
  }

  /** A load that was queued completely makes the user's entries exact if and only if its rows are still current;
      nothing need hold of the cache before. */
  lemma CompleteLoadCoherentIff(db: Db, user: int, rows: seq<Subscription>, schedule: seq<nat>)
    requires RowsFor(db.table, user, rows) && IsSchedule(schedule, rows) && Complete(schedule, rows)
    ensures CoherentFor(Loaded(db, user, rows, schedule), user) <==> Current(db.table, rows)
  {
    var w := Loaded(db, user, rows, schedule);
    TableAfter(db, user, rows, schedule, |schedule|);
    forall i: nat | i < |rows|
      ensures rows[i].id in w.table && (Exact(w, user, rows[i].id) <==> rows[i] == db.table[rows[i].id])
    {
      assert Finished(schedule, |schedule|, i);
      EntryAfter(db, user, rows, schedule, |schedule|, i);
      HashAfter(db, user, rows, schedule, |schedule|, HashKey(user, i));
    }
    if CoherentFor(w, user) {
      forall i | 0 <= i < |rows| ensures rows[i] == db.table[rows[i].id] {
        assert Owns(w.table, user, rows[i].id);
      }
    }
    if Current(db.table, rows) {
      forall id | Owns(w.table, user, id) ensures Exact(w, user, id) {
        assert HasId(rows, id);
        var i: nat :| i < |rows| && rows[i].id == id;
      }
    }
  }

  /** One row after any part of a load. */
  lemma RowAfter(db: Db, user: int, rows: seq<Subscription>, schedule: seq<nat>, i: nat)
    requires RowsFor(db.table, user, rows) && Current(db.table, rows) && NoClash(db, user, rows)
    requires IsSchedule(schedule, rows)
    requires i < |rows| && Exact(db, user, rows[i].id)
    ensures rows[i].id in Loaded(db, user, rows, schedule).table
    ensures Exact(Loaded(db, user, rows, schedule), user, rows[i].id)
  {
    TableAfter(db, user, rows, schedule, |schedule|);
    EntryAfter(db, user, rows, schedule, |schedule|, i);
    HashAfter(db, user, rows, schedule, |schedule|, HashKey(user, i));
    var e := Entry(db, rows[i].id);
    if e.Some? {
      HashAfter(db, user, rows, schedule, |schedule|, e.value);
    }
  }

  /** The load in which only goroutine `k` gets as far as `steps` commands. */
  function Only(k: nat, steps: nat): (schedule: seq<nat>)
    ensures |schedule| == steps && forall j :: 0 <= j < steps ==> schedule[j] == k
  {
    seq(steps, _ => k)
  }

  lemma {:induction false} CountOnly(k: nat, steps: nat, n: nat, i: nat)
    requires n <= steps
    ensures Count(Only(k, steps), n, i) == if i == k then n else 0
  {
    if n > 0 {
      CountOnly(k, steps, n - 1, i);
    }
  }

  /** If hash `k` is named by another row, sending just the new hash leaves that row's entry wrong. */
  lemma ClashBreaks(db: Db, user: int, rows: seq<Subscription>, id: int, k: nat)
    requires KeyedById(db.table) && RowsFor(db.table, user, rows) && k < |rows| && Owns(db.table, user, id)
    requires Entry(db, id) == Some(HashKey(user, k)) && rows[k].id != id
    ensures IsSchedule(Only(k, 1), rows) && !CoherentFor(Loaded(db, user, rows, Only(k, 1)), user)
  {
    var schedule := Only(k, 1);
    var w := Loaded(db, user, rows, schedule);
    TableAfter(db, user, rows, schedule, 1);
    CountOnly(k, 1, 1, k);
    HashAfter(db, user, rows, schedule, 1, HashKey(user, k));
    assert HasId(rows, id);
    var i: nat :| i < |rows| && rows[i].id == id;
    CountOnly(k, 1, 1, i);
    EntryAfter(db, user, rows, schedule, 1, i);
    assert Owns(w.table, user, id) && !Exact(w, user, id);
  }

  /** A stale row is cached as soon as its goroutine has queued two commands. */
  lemma StaleBreaks(db: Db, user: int, rows: seq<Subscription>, k: nat)
    requires RowsFor(db.table, user, rows) && k < |rows| && rows[k] != db.table[rows[k].id]
    ensures IsSchedule(Only(k, 2), rows) && !CoherentFor(Loaded(db, user, rows, Only(k, 2)), user)
  {
    var schedule := Only(k, 2);
    var w := Loaded(db, user, rows, schedule);
    TableAfter(db, user, rows, schedule, 2);
    CountOnly(k, 2, 2, k);
    HashAfter(db, user, rows, schedule, 2, HashKey(user, k));
    EntryAfter(db, user, rows, schedule, 2, k);
    assert Owns(w.table, user, rows[k].id) && !Exact(w, user, rows[k].id);
  }

  /** Every load, however little of it was queued in time, leaves the user's entries exact. */
  ghost predicate AllLoadsCoherent(db: Db, user: int, rows: seq<Subscription>) {
    forall schedule :: IsSchedule(schedule, rows) ==> CoherentFor(Loaded(db, user, rows, schedule), user)
  }

  /** Starting from a coherent cache, a load is safe however little of it is queued in time, if and only if its rows are
      still current and no hash it writes is named by the index entry of another row. */
  lemma AllLoadsCoherentIff(db: Db, user: int, rows: seq<Subscription>)
    requires Coherent(db) && RowsFor(db.table, user, rows)
    ensures AllLoadsCoherent(db, user, rows) <==> Current(db.table, rows) && NoClash(db, user, rows)
  {
    if Current(db.table, rows) && NoClash(db, user, rows) {
      forall schedule | IsSchedule(schedule, rows) ensures CoherentFor(Loaded(db, user, rows, schedule), user) {
        PartialLoadCoherent(db, user, rows, schedule);
      }
    }
    if AllLoadsCoherent(db, user, rows) {
      forall k: nat | k < |rows| ensures rows[k] == db.table[rows[k].id] {
        if rows[k] != db.table[rows[k].id] {
          StaleBreaks(db, user, rows, k);
        }
      }
      forall id, k | Entry(db, id) == Some(HashKey(user, k)) && 0 <= k < |rows| ensures rows[k].id == id {
        OwnerOfEntry(db, user, id, k);
        if rows[k].id != id {
          ClashBreaks(db, user, rows, id, k);
        }
      }
    }
  }

  lemma OwnerOfEntry(db: Db, user: int, id: int, k: int)
    requires Coherent(db) && Entry(db, id) == Some(HashKey(user, k))
    ensures Owns(db.table, user, id)
  {
    var owner := db.table[id].userId;
    assert CoherentFor(db, owner);
    assert Owns(db.table, owner, id) && Exact(db, owner, id);
  }

  lemma PartialLoadCoherent(db: Db, user: int, rows: seq<Subscription>, schedule: seq<nat>)
    requires CoherentFor(db, user) && IsSelection(db.table, user, rows) && NoClash(db, user, rows)
    requires IsSchedule(schedule, rows)
    ensures CoherentFor(Loaded(db, user, rows, schedule), user)
  {
    var w := Loaded(db, user, rows, schedule);
    TableAfter(db, user, rows, schedule, |schedule|);
    forall id | Owns(w.table, user, id) ensures Exact(w, user, id) {
      assert HasId(rows, id) && Exact(db, user, id);
      var i: nat :| i < |rows| && rows[i].id == id;
      RowAfter(db, user, rows, schedule, i);
    }
  }

  /** No part of a load touches another user's cache. */
  lemma LoadLeavesOthers(db: Db, user: int, rows: seq<Subscription>, schedule: seq<nat>, other: int)
    requires RowsFor(db.table, user, rows) && IsSchedule(schedule, rows) && other != user
    ensures CoherentFor(Loaded(db, user, rows, schedule), other) <==> CoherentFor(db, other)
    ensures FullFor(Loaded(db, user, rows, schedule), other) <==> FullFor(db, other)
  {
    var w := Loaded(db, user, rows, schedule);
    TableAfter(db, user, rows, schedule, |schedule|);
    forall id | Owns(db.table, other, id)
      ensures Entry(w, id) == Entry(db, id) && (Exact(w, other, id) <==> Exact(db, other, id))
    {
      OtherEntryAfter(db, user, rows, schedule, |schedule|, id);
      if Entry(db, id).Some? {
        HashAfter(db, user, rows, schedule, |schedule|, Entry(db, id).value);
      }
    }
    forall k: Key | k.HashKey? && k.user == other ensures k in w.hashes <==> k in db.hashes {
      HashAfter(db, user, rows, schedule, |schedule|, k);
    }
    forall k: Key ensures Named(w, other, k) <==> Named(db, other, k) {
      if Named(db, other, k) {
        var id :| Owns(db.table, other, id) && Entry(db, id) == Some(k);
        assert Entry(w, id) == Some(k);
      }
      if Named(w, other, k) {
        var id :| Owns(w.table, other, id) && Entry(w, id) == Some(k);
        assert Entry(db, id) == Some(k);
      }
    }
  }

  /** A load of a current selection keeps the whole cache coherent if it was queued completely or does not clash. */
  lemma LoadCoherent(db: Db, user: int, rows: seq<Subscription>, schedule: seq<nat>)
    requires Coherent(db) && IsSelection(db.table, user, rows) && IsSchedule(schedule, rows)
    requires Complete(schedule, rows) || NoClash(db, user, rows)
    ensures Coherent(Loaded(db, user, rows, schedule)) && Loaded(db, user, rows, schedule).table == db.table
  {
    var w := Loaded(db, user, rows, schedule);
    TableAfter(db, user, rows, schedule, |schedule|);
    forall other ensures CoherentFor(w, other) {
      assert CoherentFor(db, other);
      if other != user {
        LoadLeavesOthers(db, user, rows, schedule, other);
      } else if Complete(schedule, rows) {
        CompleteLoadCoherentIff(db, user, rows, schedule);
      } else {
        PartialLoadCoherent(db, user, rows, schedule);
      }
    }
    forall id | Entry(w, id).Some? ensures id in w.table {
      if !HasId(rows, id) {
        OtherEntryAfter(db, user, rows, schedule, |schedule|, id);
      }
    }
  }

  // ---- When a load leaves a complete cache ----

  function Ids(rows: seq<Subscription>): set<int> {
    set i | 0 <= i < |rows| :: rows[i].id
  }

  lemma {:induction false} DistinctCount(rows: seq<Subscription>)
    requires DistinctIds(rows)
    ensures |Ids(rows)| == |rows|
  {
    if rows != [] {
      var n := |rows| - 1;
      DistinctCount(rows[..n]);
      assert Ids(rows) == Ids(rows[..n]) + {rows[n].id};
    }
  }

  lemma RowCount(t: Table, user: int, rows: seq<Subscription>)
    requires RowsFor(t, user, rows)
    ensures |IdsOf(t, user)| == |rows|
  {
    forall id | id in IdsOf(t, user) ensures id in Ids(rows) {
      assert Owns(t, user, id) && HasId(rows, id);
    }
    assert IdsOf(t, user) == Ids(rows);
    DistinctCount(rows);
  }

  /** A load that was queued completely leaves a complete cache. */
  lemma CompleteLoadFull(db: Db, user: int, rows: seq<Subscription>, schedule: seq<nat>)
    requires RowsFor(db.table, user, rows) && IsSchedule(schedule, rows) && Complete(schedule, rows)
    requires FullFor(db, user)
    ensures FullFor(Loaded(db, user, rows, schedule), user)
  {
    var w := Loaded(db, user, rows, schedule);
    hide Loaded;
    LoadedFacts(db, user, rows, schedule);
    RowCount(db.table, user, rows);
    forall i ensures HashKey(user, i) in w.hashes <==> 0 <= i < |rows| {
      assert Find(w.hashes, HashKey(user, i)).Some? <==> 0 <= i < |rows| || Find(db.hashes, HashKey(user, i)).Some?;
    }
    forall id | Owns(w.table, user, id) ensures Entry(w, id).Some? {
      assert HasId(rows, id);
    }
    forall i | 0 <= i < |rows| ensures Named(w, user, HashKey(user, i)) {
      assert Owns(w.table, user, rows[i].id) && Entry(w, rows[i].id) == Some(HashKey(user, i));
    }
  }

  lemma LoadedFacts(db: Db, user: int, rows: seq<Subscription>, schedule: seq<nat>)
    requires RowsFor(db.table, user, rows) && IsSchedule(schedule, rows) && Complete(schedule, rows)
    ensures var w := Loaded(db, user, rows, schedule);
      && w.table == db.table
      && (forall i :: 0 <= i < |rows| ==> Entry(w, rows[i].id) == Some(HashKey(user, i)))
      && (forall k: Key :: Find(w.hashes, k) == if k.HashKey? && k.user == user && 0 <= k.index < |rows|
        then Some(rows[k.index]) else Find(db.hashes, k))
  {
    TableAfter(db, user, rows, schedule, |schedule|);
    forall i: nat | i < |rows| ensures Entry(Loaded(db, user, rows, schedule), rows[i].id) == Some(HashKey(user, i)) {
      assert Finished(schedule, |schedule|, i);
      EntryAfter(db, user, rows, schedule, |schedule|, i);
    }
    forall k: Key
      ensures Find(Loaded(db, user, rows, schedule).hashes, k) ==
        if k.HashKey? && k.user == user && 0 <= k.index < |rows| then Some(rows[k.index]) else Find(db.hashes, k)
    {
      HashAfter(db, user, rows, schedule, |schedule|, k);
      assert k.HashKey? && 0 <= k.index < |rows| ==> Finished(schedule, |schedule|, k.index);
    }
  }

  /** Whether list requests served from the cache after the load miss a row. */
  ghost predicate HidesRow(w: Db, user: int) {
    HashKey(user, 0) in w.hashes && exists scan ::
      ScanOf(w.hashes, user, scan) && !Lists(w.table, user, Scanned(w.hashes, user, scan))
  }

  lemma {:induction false} FirstHashOnly(db: Db, user: int, rows: seq<Subscription>)
    requires Uncached(db.hashes, user) && IsSelection(db.table, user, rows) && |rows| >= 2
    ensures IsSchedule(Only(0, 1), rows) && HidesRow(Loaded(db, user, rows, Only(0, 1)), user)
  {
    var schedule := Only(0, 1);
    var w := Loaded(db, user, rows, schedule);
    TableAfter(db, user, rows, schedule, 1);
    forall i: nat | i < |rows| ensures HashKey(user, i) in w.hashes <==> i == 0 {
      CountOnly(0, 1, 1, i);
      HashAfter(db, user, rows, schedule, 1, HashKey(user, i));
    }
    forall i | i < 0 || |rows| <= i ensures HashKey(user, i) !in w.hashes {
      HashAfter(db, user, rows, schedule, 1, HashKey(user, i));
    }
    CountOnly(0, 1, 1, 0);
    HashAfter(db, user, rows, schedule, 1, HashKey(user, 0));
    var listed := Scanned(w.hashes, user, [0]);
    assert [0][0] == 0;
    assert ScanOf(w.hashes, user, [0]);
    assert listed == [rows[0]];
    assert Owns(w.table, user, rows[1].id) && w.table[rows[1].id] != rows[0];
    assert !Lists(w.table, user, listed);
  }

  lemma OneRowListed(db: Db, user: int, rows: seq<Subscription>, schedule: seq<nat>, scan: seq<int>)
    requires Uncached(db.hashes, user) && IsSelection(db.table, user, rows) && |rows| <= 1 && IsSchedule(schedule, rows)
    requires var w := Loaded(db, user, rows, schedule); HashKey(user, 0) in w.hashes && ScanOf(w.hashes, user, scan)
    ensures var w := Loaded(db, user, rows, schedule); Lists(w.table, user, Scanned(w.hashes, user, scan))
  {
    var w := Loaded(db, user, rows, schedule);
    TableAfter(db, user, rows, schedule, |schedule|);
    forall k: Key
      ensures Find(w.hashes, k) ==
        (if k == HashKey(user, 0) && Count(schedule, |schedule|, 0) >= 1 && |rows| > 0 then Some(rows[0])
        else Find(db.hashes, k))
    {
      HashAfter(db, user, rows, schedule, |schedule|, k);
    }
    var listed := Scanned(w.hashes, user, scan);
    assert Find(w.hashes, HashKey(user, 0)).Some? && Find(db.hashes, HashKey(user, 0)).None?;
    forall k | 0 <= k < |scan| ensures listed[k] == rows[0] {
      assert Find(w.hashes, HashKey(user, scan[k])).Some?;
      assert Find(db.hashes, HashKey(user, scan[k])).None?;
    }
    forall id | Owns(w.table, user, id) ensures exists k :: 0 <= k < |listed| && listed[k] == w.table[id] {
      assert HasId(rows, id);
      var k :| 0 <= k < |scan| && scan[k] == 0;
      assert listed[k] == w.table[id];
    }
  }

  /** From an uncached user, no load, however little of it is queued in time, makes list requests miss a row, if and
      only if the user has at most one. */
  lemma NothingHiddenIff(db: Db, user: int, rows: seq<Subscription>)
    requires Uncached(db.hashes, user) && IsSelection(db.table, user, rows)
    ensures (forall schedule :: IsSchedule(schedule, rows) ==> !HidesRow(Loaded(db, user, rows, schedule), user)) <==>
      |rows| <= 1
  {
    if |rows| <= 1 {
      forall schedule | IsSchedule(schedule, rows) ensures !HidesRow(Loaded(db, user, rows, schedule), user) {
        var w := Loaded(db, user, rows, schedule);
        forall scan | HashKey(user, 0) in w.hashes && ScanOf(w.hashes, user, scan)
          ensures Lists(w.table, user, Scanned(w.hashes, user, scan))
        {
          OneRowListed(db, user, rows, schedule, scan);
        }
      }
    } else {
      FirstHashOnly(db, user, rows);
    }
  }
}
