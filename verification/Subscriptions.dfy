/**
 The requests of `subscription/data.go` against table and cache, one after the other, compared with a service that
 only has the table.
 */
module Subscriptions {
  import opened Decimal
  import opened SubscriptionCache
  import opened SubscriptionLoads

  /** `Get` is `GetSubscription` called alone, and `Load` the background load it or `AddDuration` starts. A load gets
      `rows` from its query and is queued as far as `schedule` says; a list served from the cache is scanned by
      `scan`. */
  datatype Request =
    | Get(id: int)
    | Activate(id: int, active: bool)
    | Extend(id: int, amount: int)
    | HasClub(user: int, subType: string)
    | List(user: int, rows: seq<Subscription>, schedule: seq<nat>, scan: seq<int>)
    | Load(user: int, rows: seq<Subscription>, schedule: seq<nat>)

  /** A missing subscription is an empty list. */
  datatype Answer = Rows(rows: seq<Subscription>) | YesNo(yes: bool)

  // ---- The table alone ----

  function Lookup(t: Table, id: int): Option<Subscription> {
    if id in t then Some(t[id]) else None
  }

  function Activated(t: Table, id: int, active: bool): Table {
    if id in t then t[id := t[id].(active := active)] else t
  }

  function Extended(t: Table, id: int, amount: int): Table {
    if id in t then t[id := t[id].(duration := t[id].duration + amount)] else t
  }

  function TableStep(t: Table, r: Request): Table {
    match r
    case Activate(id, active) => Activated(t, id, active)
    case Extend(id, amount) => Extended(t, id, amount)
    case _ => t
  }

  function AsSeq(o: Option<Subscription>): seq<Subscription> {
    if o.Some? then [o.value] else []
  }

  /** The user has an active subscription of the type. */
  predicate HasActive(t: Table, user: int, subType: string) {
    exists id :: id in t && t[id].userId == user && t[id].subType == subType && t[id].active
  }

  /** `a` is what a service without a cache may answer; a list has each row once, in any order. */
  ghost predicate Correct(t: Table, r: Request, a: Answer) {
    match r
    case Get(id) => a == Rows(AsSeq(Lookup(t, id)))
    case Activate(id, active) => a == Rows(AsSeq(Lookup(Activated(t, id, active), id)))
    case Extend(id, amount) => a == Rows(AsSeq(Lookup(Extended(t, id, amount), id)))
    case HasClub(user, subType) => a == YesNo(HasActive(t, user, subType))
    case List(user, _, _, _) => a.Rows? && IsSelection(t, user, a.rows)
    case Load(_, _, _) => true
  }

  function TableRun(t: Table, rs: seq<Request>, n: nat): Table
    requires n <= |rs|
  {
    if n == 0 then t else TableStep(TableRun(t, rs, n - 1), rs[n - 1])
  }

  /** The amounts added to `id` by the first `n` requests. */
  function Added(rs: seq<Request>, id: int, n: nat): int
    requires n <= |rs|
  {
    if n == 0 then 0 else Added(rs, id, n - 1) + if rs[n - 1].Extend? && rs[n - 1].id == id then rs[n - 1].amount else 0
  }

  /** Whether `id` is active after the first `n` requests, if it was `active` before. */
  function ActiveAfter(rs: seq<Request>, id: int, n: nat, active: bool): bool
    requires n <= |rs|
  {
    if n == 0 then active
    else if rs[n - 1].Activate? && rs[n - 1].id == id then rs[n - 1].active
    else ActiveAfter(rs, id, n - 1, active)
  }

  /** The row with its first owner, type and start, the amounts added to its duration, and its last activity. */
  function Accumulated(t: Table, rs: seq<Request>, n: nat, id: int): Option<Subscription>
    requires n <= |rs|
  {
    if id !in t then None
    else
      var row := t[id];
      Some(row.(duration := row.duration + Added(rs, id, n), active := ActiveAfter(rs, id, n, row.active)))
  }

  /** Every subscription keeps its owner, type and start; its duration is the initial one plus all amounts added. */
  lemma {:induction false} DurationsAddUp(t: Table, rs: seq<Request>, n: nat, id: int)
    requires n <= |rs|
    ensures Lookup(TableRun(t, rs, n), id) == Accumulated(t, rs, n, id)
  {
    if n > 0 {
      DurationsAddUp(t, rs, n - 1, id);
    }
  }

  // ---- Table and cache ----

  /** `GetSubscription`: scanning a missing hash leaves the struct zero. */
  function GetOf(db: Db, id: int): Option<Subscription> {
    var e := Entry(db, id);
    if e.None? then Lookup(db.table, id)
    else Some(if e.value in db.hashes then db.hashes[e.value] else ZERO)
  }

  function ActivateOf(db: Db, id: int, active: bool): Db {
    var e := Entry(db, id);
    var h := if e.None? then db.hashes
      else db.hashes[e.value := (if e.value in db.hashes then db.hashes[e.value] else ZERO).(active := active)];
    Db(Activated(db.table, id, active), db.pointers, h)
  }

  /** `AddDuration` writes the sum it computed from what `GetSubscription` returned. */
  function ExtendOf(db: Db, id: int, amount: int): (Db, Option<Subscription>) {
    var s := GetOf(db, id);
    if s.None? then (db, None)
    else
      var sum := s.value.(duration := s.value.duration + amount);
      var e := Entry(db, id);
      (Db(if id in db.table then db.table[id := db.table[id].(duration := sum.duration)] else db.table,
          db.pointers,
          if e.Some? then db.hashes[e.value := sum] else db.hashes),
       Some(sum))
  }

  /** The request reads the user's rows from the table and caches them. */
  predicate Loads(db: Db, r: Request) {
    r.Load? || (r.List? && HashKey(r.user, 0) !in db.hashes)
  }

  /** What the environment chooses for a request is possible. */
  ghost predicate Legal(db: Db, r: Request) {
    && (Loads(db, r) ==> IsSelection(db.table, r.user, r.rows) && IsSchedule(r.schedule, r.rows))
    && (r.List? && !Loads(db, r) ==> ScanOf(db.hashes, r.user, r.scan))
  }

  function Step(db: Db, r: Request): Db
    requires Loads(db, r) ==> IsSchedule(r.schedule, r.rows)
  {
    match r
    case Get(_) => db
    case Activate(id, active) => ActivateOf(db, id, active)
    case Extend(id, amount) => ExtendOf(db, id, amount).0
    case HasClub(_, _) => db
    case List(user, rows, schedule, _) => if Loads(db, r) then Loaded(db, user, rows, schedule) else db
    case Load(user, rows, schedule) => Loaded(db, user, rows, schedule)
  }

  function AnswerOf(db: Db, r: Request): Answer
    requires r.List? && !Loads(db, r) ==> forall k :: 0 <= k < |r.scan| ==> HashKey(r.user, r.scan[k]) in db.hashes
  {
    match r
    case Get(id) => Rows(AsSeq(GetOf(db, id)))
    case Activate(id, active) => Rows(AsSeq(GetOf(ActivateOf(db, id, active), id)))
    case Extend(id, amount) => Rows(AsSeq(ExtendOf(db, id, amount).1))
    case HasClub(user, subType) => YesNo(HasActive(db.table, user, subType))
    case List(user, rows, _, scan) => Rows(if Loads(db, r) then rows else Scanned(db.hashes, user, scan))
    case Load(_, rows, _) => Rows(rows)
  }

  /** If the request loads, it is queued completely, or no hash it writes is named by another row's index entry. */
  ghost predicate Safe(db: Db, r: Request) {
    Loads(db, r) ==> Complete(r.schedule, r.rows) || NoClash(db, r.user, r.rows)
  }

  lemma GetIsLookup(db: Db, id: int)
    requires Coherent(db)
    ensures GetOf(db, id) == Lookup(db.table, id)
  {
    if Entry(db, id).Some? {
      var user := db.table[id].userId;
      assert CoherentFor(db, user) && Owns(db.table, user, id);
      assert Exact(db, user, id);
    }
  }

  lemma ActivateIsWrite(db: Db, id: int, active: bool)
    requires Coherent(db)
    ensures ActivateOf(db, id, active) ==
      if id in db.table then WriteRow(db, id, db.table[id].(active := active))
      else db
  {
    GetIsLookup(db, id);
  }

  lemma ExtendIsWrite(db: Db, id: int, amount: int)
    requires Coherent(db)
    ensures ExtendOf(db, id, amount) ==
      if id in db.table then
        var row := db.table[id].(duration := db.table[id].duration + amount);
        (WriteRow(db, id, row), Some(row))
      else (db, None)
  {
    GetIsLookup(db, id);
  }

  /** A request with the cache changes the table as without, keeps the cache coherent, and, lists from the cache apart,
      is answered as by the table alone. */
  lemma StepCoherent(db: Db, r: Request)
    requires Coherent(db) && Legal(db, r) && Safe(db, r)
    ensures Coherent(Step(db, r)) && Step(db, r).table == TableStep(db.table, r)
    ensures !r.List? || Loads(db, r) ==> Correct(db.table, r, AnswerOf(db, r))
  {
    match r
    case Get(id) => GetIsLookup(db, id);
    case Activate(id, active) =>
      ActivateIsWrite(db, id, active);
      if id in db.table {
        WriteThrough(db, id, db.table[id].(active := active));
      }
      GetIsLookup(ActivateOf(db, id, active), id);
    case Extend(id, amount) =>
      ExtendIsWrite(db, id, amount);
      if id in db.table {
        WriteThrough(db, id, db.table[id].(duration := db.table[id].duration + amount));
      }
    case HasClub(_, _) =>
    case List(user, rows, schedule, _) =>
      if Loads(db, r) {
        LoadCoherent(db, user, rows, schedule);
      }
    case Load(user, rows, schedule) => LoadCoherent(db, user, rows, schedule);
  }

  /** The request is a list that is served from the cache by a scan that visits some hash twice. */
  predicate Repeats(db: Db, r: Request) {
    r.List? && !Loads(db, r) && !Once(r.scan)
  }

  /** With complete caches every answer is the table's, exactly but for lists whose scan repeats a hash; loads that are
      queued completely keep caches complete. */
  lemma StepFull(db: Db, r: Request)
    requires Coherent(db) && Full(db) && Legal(db, r) && (Loads(db, r) ==> Complete(r.schedule, r.rows))
    ensures Full(Step(db, r)) && (Correct(db.table, r, AnswerOf(db, r)) <==> !Repeats(db, r))
  {
    StepCoherent(db, r);
    if r.List? && !Loads(db, r) {
      assert FullFor(db, r.user);
      ScanSelectsIff(db, r.user, r.scan);
    }
    forall user ensures FullFor(Step(db, r), user) {
      assert FullFor(db, user);
      if Loads(db, r) {
        if user == r.user {
          CompleteLoadFull(db, user, r.rows, r.schedule);
        } else {
          LoadLeavesOthers(db, r.user, r.rows, r.schedule, user);
        }
      } else if r.Activate? && r.id in db.table {
        ActivateIsWrite(db, r.id, r.active);
        WriteKeepsFull(db, r.id, db.table[r.id].(active := r.active), user);
      } else if r.Activate? {
        ActivateIsWrite(db, r.id, r.active);
      } else if r.Extend? && r.id in db.table {
        ExtendIsWrite(db, r.id, r.amount);
        WriteKeepsFull(db, r.id, db.table[r.id].(duration := db.table[r.id].duration + r.amount), user);
      } else if r.Extend? {
        ExtendIsWrite(db, r.id, r.amount);
      }
    }
  }

  /** One subscription, indexed and cached, whose hash the scan visits twice: the list has its row twice. */
  lemma RepeatedHashRepeatsRow(row: Subscription)
    ensures
      var db := Db(map[row.id := row], map[IdKey(row.id) := HashKey(row.userId, 0)],
        map[HashKey(row.userId, 0) := row]);
      var r := List(row.userId, [], [], [0, 0]);
      && Coherent(db) && Full(db) && Legal(db, r)
      && AnswerOf(db, r) == Rows([row, row]) && !Correct(db.table, r, AnswerOf(db, r))
  {
    var user, k := row.userId, HashKey(row.userId, 0);
    var db := Db(map[row.id := row], map[IdKey(row.id) := k], map[k := row]);
    forall u ensures FullFor(db, u) {
      assert IdsOf(db.table, user) == {row.id};
      assert Owns(db.table, user, row.id) && Entry(db, row.id) == Some(k);
    }
    assert [0, 0][0] == 0;
    assert !Once([0, 0]) by { assert [0, 0][0] == [0, 0][1]; }
    ScanSelectsIff(db, user, [0, 0]);
  }

  /** A request that loads completely caches each row under its number and indexes it: the next list is served from the
      cache if there is a row. */
  lemma LoadCaches(db: Db, r: Request)
    requires Legal(db, r) && Loads(db, r) && Complete(r.schedule, r.rows)
    ensures var w := Step(db, r);
      && (forall i :: 0 <= i < |r.rows| ==>
            && Entry(w, r.rows[i].id) == Some(HashKey(r.user, i))
            && Find(w.hashes, HashKey(r.user, i)) == Some(r.rows[i]))
      && (r.rows != [] ==> forall rows, schedule, scan :: !Loads(w, List(r.user, rows, schedule, scan)))
  {
    LoadedFacts(db, r.user, r.rows, r.schedule);
    assert r.rows != [] ==> Find(Step(db, r).hashes, HashKey(r.user, 0)) == Some(r.rows[0]);
  }

  /** An index entry that names no hash makes the subscription read as all zeros. */
  lemma DanglingEntry(db: Db, id: int)
    requires Entry(db, id).Some? && Entry(db, id).value !in db.hashes
    ensures AnswerOf(db, Get(id)) == Rows([Subscription(0, 0, "", 0, 0, false)])
  {
  }

  // ---- Sequential runs ----

  /** `states[n]` is the state before request `n`, and `answers[n]` its answer. */
  ghost predicate IsRun(states: seq<Db>, rs: seq<Request>, answers: seq<Answer>) {
    && |states| == |rs| + 1 && |answers| == |rs|
    && forall n :: 0 <= n < |rs| ==>
      Legal(states[n], rs[n]) && states[n + 1] == Step(states[n], rs[n]) && answers[n] == AnswerOf(states[n], rs[n])
  }

  /** In every sequential run in which each load is queued completely or does not clash, the table goes as without a
      cache, the cache stays coherent, and every answer but a list from the cache is the table's. */
  lemma {:induction false} RunCoherent(states: seq<Db>, rs: seq<Request>, answers: seq<Answer>, n: nat)
    requires IsRun(states, rs, answers) && n <= |rs| && Coherent(states[0])
    requires forall m :: 0 <= m < n ==> Safe(states[m], rs[m])
    ensures Coherent(states[n]) && states[n].table == TableRun(states[0].table, rs, n)
    ensures n < |rs| && Safe(states[n], rs[n]) && (!rs[n].List? || Loads(states[n], rs[n])) ==>
      Correct(TableRun(states[0].table, rs, n), rs[n], answers[n])
  {
    if n > 0 {
      RunCoherent(states, rs, answers, n - 1);
      StepCoherent(states[n - 1], rs[n - 1]);
    }
    if n < |rs| && Safe(states[n], rs[n]) {
      StepCoherent(states[n], rs[n]);
    }
  }

  /** So with the cache in front, too, amounts add up, and each extension answers the sum so far. */
  lemma RunDurations(states: seq<Db>, rs: seq<Request>, answers: seq<Answer>, n: nat, id: int)
    requires IsRun(states, rs, answers) && n <= |rs| && Coherent(states[0])
    requires forall m :: 0 <= m < n ==> Safe(states[m], rs[m])
    ensures Lookup(states[n].table, id) == Accumulated(states[0].table, rs, n, id)
    ensures n < |rs| && rs[n].Extend? && rs[n].id == id ==>
      answers[n] == Rows(AsSeq(Accumulated(states[0].table, rs, n + 1, id)))
  {
    RunCoherent(states, rs, answers, n);
    DurationsAddUp(states[0].table, rs, n, id);
    if n < |rs| && rs[n].Extend? && rs[n].id == id {
      DurationsAddUp(states[0].table, rs, n + 1, id);
    }
  }

  /** The answer is the row of `id` after `n` requests, or nothing if there is no such subscription. */
  ghost predicate AnswersRow(t: Table, rs: seq<Request>, n: nat, id: int, a: Answer)
    requires n <= |rs|
  {
    a.Rows? &&
    if id !in t then a.rows == []
    else a.rows == [Subscription(id, t[id].userId, t[id].subType, t[id].start, t[id].duration + Added(rs, id, n),
                                 ActiveAfter(rs, id, n, t[id].active))]
  }

  lemma AccumulatedRow(t: Table, rs: seq<Request>, n: nat, id: int)
    requires n <= |rs| && KeyedById(t)
    ensures AnswersRow(t, rs, n, id, Rows(AsSeq(Accumulated(t, rs, n, id))))
  {
  }

  /** Some subscription of the user and type is active after `n` requests. */
  ghost predicate ClubAfter(t: Table, rs: seq<Request>, n: nat, user: int, subType: string)
    requires n <= |rs|
  {
    exists id :: id in t && t[id].userId == user && t[id].subType == subType && ActiveAfter(rs, id, n, t[id].active)
  }

  lemma ClubIsActive(t: Table, rs: seq<Request>, n: nat, user: int, subType: string)
    requires n <= |rs|
    ensures HasActive(TableRun(t, rs, n), user, subType) <==> ClubAfter(t, rs, n, user, subType)
  {
    var u := TableRun(t, rs, n);
    forall id ensures Lookup(u, id) == Accumulated(t, rs, n, id) {
      DurationsAddUp(t, rs, n, id);
    }
    forall id ensures
      && (id in u <==> id in t)
      && (id in t ==> u[id].userId == t[id].userId && u[id].subType == t[id].subType
                      && u[id].active == ActiveAfter(rs, id, n, t[id].active))
    {
      assert Lookup(u, id) == Accumulated(t, rs, n, id);
    }
  }

  /** In such a run every answer but a list's is told by the first table and the requests: the sum of the amounts and
      the last activity of a subscription, and whether any of the user's subscriptions of a type is active. */
  lemma RunAnswers(states: seq<Db>, rs: seq<Request>, answers: seq<Answer>, n: nat)
    requires IsRun(states, rs, answers) && n < |rs| && Coherent(states[0])
    requires forall m :: 0 <= m <= n ==> Safe(states[m], rs[m])
    ensures rs[n].Get? ==> AnswersRow(states[0].table, rs, n, rs[n].id, answers[n])
    ensures rs[n].Activate? || rs[n].Extend? ==> AnswersRow(states[0].table, rs, n + 1, rs[n].id, answers[n])
    ensures rs[n].HasClub? ==> answers[n] == YesNo(ClubAfter(states[0].table, rs, n, rs[n].user, rs[n].subType))
  {
    var t, r := states[0].table, rs[n];
    RunCoherent(states, rs, answers, n);
    match r
    case HasClub(user, subType) => ClubIsActive(t, rs, n, user, subType);
    case Get(id) =>
      DurationsAddUp(t, rs, n, id);
      AccumulatedRow(t, rs, n, id);
    case Activate(id, _) =>
      DurationsAddUp(t, rs, n + 1, id);
      AccumulatedRow(t, rs, n + 1, id);
    case Extend(id, _) =>
      DurationsAddUp(t, rs, n + 1, id);
      AccumulatedRow(t, rs, n + 1, id);
    case _ =>
  }

  /** If moreover caches are complete at first and all loads are queued completely, every answer is the table's, exactly
      but for lists whose scan repeats a hash. */
  lemma {:induction false} RunFull(states: seq<Db>, rs: seq<Request>, answers: seq<Answer>, n: nat)
    requires IsRun(states, rs, answers) && n <= |rs| && Coherent(states[0]) && Full(states[0])
    requires forall m :: 0 <= m < |rs| && Loads(states[m], rs[m]) ==> Complete(rs[m].schedule, rs[m].rows)
    ensures Full(states[n])
    ensures n < |rs| ==> (Correct(TableRun(states[0].table, rs, n), rs[n], answers[n]) <==> !Repeats(states[n], rs[n]))
  {
    RunCoherent(states, rs, answers, n);
    if n > 0 {
      RunFull(states, rs, answers, n - 1);
      RunCoherent(states, rs, answers, n - 1);
      StepFull(states[n - 1], rs[n - 1]);
    }
    if n < |rs| {
      StepFull(states[n], rs[n]);
    }
  }

  /** Such a list has each of the user's subscriptions once, with the sum of its amounts and its last activity. */
  lemma RunLists(states: seq<Db>, rs: seq<Request>, answers: seq<Answer>, n: nat)
    requires IsRun(states, rs, answers) && n < |rs| && rs[n].List? && Coherent(states[0]) && Full(states[0])
    requires forall m :: 0 <= m < |rs| && Loads(states[m], rs[m]) ==> Complete(rs[m].schedule, rs[m].rows)
    requires !Repeats(states[n], rs[n])
    ensures answers[n].Rows?
    ensures var t, rows := states[0].table, answers[n].rows;
      && (forall i, j :: 0 <= i < j < |rows| ==> rows[i].id != rows[j].id)
      && (forall id :: id in t && t[id].userId == rs[n].user ==> exists i :: 0 <= i < |rows| && rows[i].id == id)
      && (forall i :: 0 <= i < |rows| ==>
            rows[i].userId == rs[n].user && AnswersRow(t, rs, n, rows[i].id, Rows([rows[i]])))
  {
    var t, u, rows := states[0].table, TableRun(states[0].table, rs, n), answers[n].rows;
    RunFull(states, rs, answers, n);
    assert IsSelection(u, rs[n].user, rows);
    forall id | id in t && t[id].userId == rs[n].user ensures exists i :: 0 <= i < |rows| && rows[i].id == id {
      DurationsAddUp(t, rs, n, id);
      assert Lookup(u, id).Some? && Owns(u, rs[n].user, id);
      assert HasId(rows, id);
    }
    forall i | 0 <= i < |rows| ensures AnswersRow(t, rs, n, rows[i].id, Rows([rows[i]])) {
      DurationsAddUp(t, rs, n, rows[i].id);
      AccumulatedRow(t, rs, n, rows[i].id);
      assert Lookup(u, rows[i].id) == Some(rows[i]);
    }
  }

  // ---- A fixed order of rows ----

  /** Index entries name the hashes whose numbers `slot` gives to the ids. */
  ghost predicate InSlots(db: Db, slot: int -> int) {
    forall id, user, k :: Entry(db, id) == Some(HashKey(user, k)) ==> k == slot(id)
  }

  ghost predicate RowsInSlots(rows: seq<Subscription>, slot: int -> int) {
    forall k :: 0 <= k < |rows| ==> slot(rows[k].id) == k
  }

  lemma LoadInSlots(db: Db, user: int, rows: seq<Subscription>, schedule: seq<nat>, slot: int -> int)
    requires Coherent(db) && InSlots(db, slot) && RowsInSlots(rows, slot) && IsSelection(db.table, user, rows)
    requires IsSchedule(schedule, rows)
    ensures NoClash(db, user, rows) && InSlots(Loaded(db, user, rows, schedule), slot)
  {
    forall id, k | Entry(db, id) == Some(HashKey(user, k)) && 0 <= k < |rows| ensures rows[k].id == id {
      OwnerOfEntry(db, user, id, k);
      assert HasId(rows, id);
      var i :| 0 <= i < |rows| && rows[i].id == id;
      assert slot(rows[i].id) == i;
    }
    var w := Loaded(db, user, rows, schedule);
    forall id, u, k | Entry(w, id) == Some(HashKey(u, k)) ensures k == slot(id) {
      if HasId(rows, id) {
        var i: nat :| i < |rows| && rows[i].id == id;
        EntryAfter(db, user, rows, schedule, |schedule|, i);
      } else {
        OtherEntryAfter(db, user, rows, schedule, |schedule|, id);
      }
    }
  }

  /** If every load gets each user's rows in the same order, no load in a run ever clashes, however little of it is
      queued. */
  lemma {:induction false} FixedOrderIsSafe(states: seq<Db>, rs: seq<Request>, answers: seq<Answer>, slot: int -> int,
          n: nat)
    requires IsRun(states, rs, answers) && n <= |rs| && Coherent(states[0]) && InSlots(states[0], slot)
    requires forall m :: 0 <= m < |rs| && Loads(states[m], rs[m]) ==> RowsInSlots(rs[m].rows, slot)
    ensures Coherent(states[n]) && InSlots(states[n], slot) && (n < |rs| ==> Safe(states[n], rs[n]))
  {
    if n > 0 {
      var s, r := states[n - 1], rs[n - 1];
      FixedOrderIsSafe(states, rs, answers, slot, n - 1);
      StepCoherent(s, r);
      if Loads(s, r) {
        LoadInSlots(s, r.user, r.rows, r.schedule, slot);
      } else {
        assert Step(s, r).pointers == s.pointers;
        assert forall id :: Entry(Step(s, r), id) == Entry(s, id);
      }
    }
    if n < |rs| && Loads(states[n], rs[n]) {
      LoadInSlots(states[n], rs[n].user, rs[n].rows, rs[n].schedule, slot);
    }
  }

  // ---- The service ----

  class Database {
    var table: Table
    var pointers: Pointers
    var hashes: Hashes

    ghost function View(): Db
      reads this
    {
      Db(table, pointers, hashes)
    }

    method GetSubscription(id: int) returns (subscription: Option<Subscription>)
      ensures subscription == GetOf(View(), id)
      ensures Coherent(View()) ==> subscription == Lookup(table, id)
    {
      ghost var v := View();
      if Coherent(v) {
        GetIsLookup(v, id);
      }
      if IdKey(id) in pointers {
        var key := pointers[IdKey(id)];
        return Some(if key in hashes then hashes[key] else ZERO);
      }
      return Lookup(table, id);
    }

    method SetSubscriptionActive(id: int, active: bool) returns (subscription: Option<Subscription>)
      modifies `table, `hashes
      ensures View() == ActivateOf(old(View()), id, active) && subscription == GetOf(View(), id)
    {
      if IdKey(id) in pointers {
        var key := pointers[IdKey(id)];
        hashes := hashes[key := (if key in hashes then hashes[key] else ZERO).(active := active)];
      }
      if id in table {
        table := table[id := table[id].(active := active)];
      }
      subscription := GetSubscription(id);
    }

    method AddDuration(id: int, amount: int) returns (subscription: Option<Subscription>)
      modifies `table, `hashes
      ensures (View(), subscription) == ExtendOf(old(View()), id, amount)
    {
      subscription := GetSubscription(id);
      if subscription.None? {
        return;
      }
      subscription := Some(subscription.value.(duration := subscription.value.duration + amount));
      if IdKey(id) in pointers {
        hashes := hashes[pointers[IdKey(id)] := subscription.value];
      }
      if id in table {
        table := table[id := table[id].(duration := subscription.value.duration)];
      }
    }

    /** `pipe.Exec`. */
    method ExecPipe(pipe: seq<Command>)
      modifies `pointers, `hashes
      ensures View() == Exec(old(View()), pipe)
    {
      ghost var v := View();
      for i := 0 to |pipe|
        invariant View() == Exec(v, pipe[..i])
      {
        ExecSnoc(v, pipe[..i], pipe[i]);
        assert pipe[..i + 1] == pipe[..i] + [pipe[i]];
        ExecKeepsTable(v, pipe[..i]);
        match pipe[i]
        case HSet(k, row) => hashes := hashes[k := row];
        case Set(k, key) => pointers := pointers[k := key];
      }
      assert pipe[..|pipe|] == pipe;
    }

    /** `loadUserSubscriptionsFromDB`, whose query returned `rows`. */
    method LoadUserSubscriptions(user: int, rows: seq<Subscription>, schedule: seq<nat>)
      returns (subscriptions: seq<Subscription>)
      requires IsSchedule(schedule, rows)
      modifies `pointers, `hashes
      ensures View() == Loaded(old(View()), user, rows, schedule) && subscriptions == rows
    {
      var pipe := QueueCommands(user, rows, schedule);
      ExecPipe(pipe);
      subscriptions := rows;
    }

    /** `getUserSubscriptionsFromCache`, whose scan visits the hashes numbered `scan`. */
    method GetUserSubscriptionsFromCache(user: int, scan: seq<int>) returns (out: seq<Subscription>)
      requires ScanOf(hashes, user, scan)
      ensures out == Scanned(hashes, user, scan)
    {
      out := [];
      for i := 0 to |scan|
        invariant |out| == i && forall j :: 0 <= j < i ==> out[j] == hashes[HashKey(user, scan[j])]
      {
        out := out + [hashes[HashKey(user, scan[i])]];
      }
    }

    method GetSubscriptionsForUser(user: int, rows: seq<Subscription>, schedule: seq<nat>, scan: seq<int>)
      returns (subscriptions: seq<Subscription>)
      requires Legal(View(), List(user, rows, schedule, scan))
      modifies `pointers, `hashes
      ensures var r := List(user, rows, schedule, scan);
        View() == Step(old(View()), r) && Rows(subscriptions) == AnswerOf(old(View()), r)
    {
      if HashKey(user, 0) in hashes {
        subscriptions := GetUserSubscriptionsFromCache(user, scan);
      } else {
        subscriptions := LoadUserSubscriptions(user, rows, schedule);
      }
    }

    /** One request of `Listen`, or one of the calls inside them. */
    method Serve(r: Request) returns (answer: Answer)
      requires Legal(View(), r)
      modifies this
      ensures View() == Step(old(View()), r) && answer == AnswerOf(old(View()), r)
    {
      var found: Option<Subscription>;
      var rows: seq<Subscription>;
      match r
      case Get(id) =>
        found := GetSubscription(id);
        answer := Rows(AsSeq(found));
      case Activate(id, active) =>
        found := SetSubscriptionActive(id, active);
        answer := Rows(AsSeq(found));
      case Extend(id, amount) =>
        found := AddDuration(id, amount);
        answer := Rows(AsSeq(found));
      case HasClub(user, subType) =>
        answer := YesNo(HasActive(table, user, subType));
      case List(user, selected, schedule, scan) =>
        rows := GetSubscriptionsForUser(user, selected, schedule, scan);
        answer := Rows(rows);
      case Load(user, selected, schedule) =>
        rows := LoadUserSubscriptions(user, selected, schedule);
        answer := Rows(rows);
    }
  }
}
