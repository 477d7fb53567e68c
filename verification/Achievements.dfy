/**
 The achievement list of `achievements/data.go`: the table's rows grouped by name, and the same list rebuilt from
 cached records that a scan yields in any order, in any batches and more than once.
 */
module Achievements {

  datatype Level = Level(level: int, rewardAmount: int, rewardType: int, points: int, progress: int)

  /** A row of the table, and equally the record cached for it under its id. */
  datatype Row = Row(id: int, name: string, category: string, level: Level)

  datatype Group = Group(id: int, name: string, category: string, levels: map<int, Level>)

  type Groups = map<string, Group>

  function NewGroup(r: Row): Group {
    Group(r.id, r.name, r.category, map[r.level.level := r.level])
  }

  function WithLevel(g: Group, l: Level): Group {
    g.(levels := g.levels[l.level := l])
  }

  /** One iteration of `getAchievementsFromDB`: the first row of a name gives the id and the category. */
  function AddRow(m: Groups, r: Row): Groups {
    m[r.name := if r.name in m then WithLevel(m[r.name], r.level) else NewGroup(r)]
  }

  /** One iteration of `getAchievementsFromCache`, which keeps the smallest id. */
  function AddRecord(m: Groups, r: Row): Groups {
    m[r.name :=
      if r.name in m then WithLevel(m[r.name].(id := if r.id < m[r.name].id then r.id else m[r.name].id), r.level)
      else NewGroup(r)]
  }

  function FromTable(rows: seq<Row>): Groups {
    if rows == [] then map[] else AddRow(FromTable(rows[..|rows| - 1]), rows[|rows| - 1])
  }

  function FromCache(records: seq<Row>): Groups {
    if records == [] then map[] else AddRecord(FromCache(records[..|records| - 1]), records[|records| - 1])
  }

  // ---- What grouping means ----

  /** `m` groups `rows`: one group a name, holding exactly the levels of its rows, each field taken from some row. */
  ghost predicate Grouped(m: Groups, rows: seq<Row>) {
    && (forall r :: r in rows ==> r.name in m && r.level.level in m[r.name].levels)
    && (forall k :: k in m ==> m[k].name == k && GroupOf(m[k], rows))
  }

  ghost predicate GroupOf(g: Group, rows: seq<Row>) {
    && (exists r :: r in rows && r.name == g.name && r.category == g.category)
    && (exists r :: r in rows && r.name == g.name && r.id == g.id)
    && (forall l :: l in g.levels ==>
          exists r :: r in rows && r.name == g.name && r.level == g.levels[l] && r.level.level == l)
  }

  /** Either iteration keeps the grouping; `id` is the id it leaves. */
  lemma GroupedStep(m: Groups, rows: seq<Row>, r: Row, id: int)
    requires Grouped(m, rows)
    requires r.name in m ==> id == m[r.name].id || id == r.id
    ensures Grouped(m[r.name := if r.name in m then WithLevel(m[r.name].(id := id), r.level) else NewGroup(r)],
      rows + [r])
  {
  }

  /** The first row of each name. */
  ghost predicate IsFirst(rows: seq<Row>, i: nat) {
    i < |rows| && forall j :: 0 <= j < i ==> rows[j].name != rows[i].name
  }

  lemma {:induction false} TableGrouped(rows: seq<Row>)
    ensures Grouped(FromTable(rows), rows)
  {
    if rows != [] {
      var front, r := rows[..|rows| - 1], rows[|rows| - 1];
      var m := FromTable(front);
      TableGrouped(front);
      assert rows == front + [r];
      GroupedStep(m, front, r, if r.name in m then m[r.name].id else 0);
    }
  }

  lemma RecordGrouped(m: Groups, rows: seq<Row>, r: Row)
    requires Grouped(m, rows)
    ensures Grouped(AddRecord(m, r), rows + [r])
  {
  }

  lemma {:induction false} CacheGrouped(records: seq<Row>)
    ensures Grouped(FromCache(records), records)
  {
    if records != [] {
      var front, r := records[..|records| - 1], records[|records| - 1];
      var m := FromCache(front);
      CacheGrouped(front);
      assert records == front + [r];
      RecordGrouped(m, front, r);
    }
  }

  lemma NotGrouped(m: Groups, rows: seq<Row>, k: string)
    requires Grouped(m, rows) && forall r :: r in rows ==> r.name != k
    ensures k !in m
  {
  }

  /** The table's group has the id of the first row of its name. */
  lemma {:induction false} IdFromTable(rows: seq<Row>, i: nat)
    requires IsFirst(rows, i)
    ensures rows[i].name in FromTable(rows) && FromTable(rows)[rows[i].name].id == rows[i].id
  {
    var n := |rows| - 1;
    var front := rows[..n];
    if i < n {
      IdFromTable(front, i);
    } else {
      TableGrouped(front);
      NotGrouped(FromTable(front), front, rows[n].name);
    }
  }

  /** The cache's group has no larger id than any of its records. */
  lemma {:induction false} IdFromCache(records: seq<Row>, i: nat)
    requires i < |records|
    ensures records[i].name in FromCache(records) && FromCache(records)[records[i].name].id <= records[i].id
  {
    var n := |records| - 1;
    if i < n {
      IdFromCache(records[..n], i);
    }
  }

  // ---- Cache and table agree ----

  /** The scan yields the rows of the table in any order, each at least once. */
  ghost predicate ScanOf(records: seq<Row>, rows: seq<Row>) {
    forall r :: r in records <==> r in rows
  }

  /** One category a name, one payload a level of a name. */
  ghost predicate Uniform(rows: seq<Row>) {
    && (forall a, b :: a in rows && b in rows && a.name == b.name ==> a.category == b.category)
    && (forall a, b :: a in rows && b in rows && a.name == b.name && a.level.level == b.level.level ==>
      a.level == b.level)
  }

  /** The first row of a name has the smallest id of that name; rows sorted by id are of this kind. */
  ghost predicate FirstIsLeast(rows: seq<Row>) {
    forall i: nat, r :: IsFirst(rows, i) && r in rows && r.name == rows[i].name ==> rows[i].id <= r.id
  }

  lemma SortedRowsAreFirstIsLeast(rows: seq<Row>)
    requires forall i, j :: 0 <= i < j < |rows| ==> rows[i].id <= rows[j].id
    ensures FirstIsLeast(rows)
  {
  }

  lemma {:induction false} FirstExists(rows: seq<Row>, r: Row) returns (i: nat)
    requires r in rows
    ensures IsFirst(rows, i) && rows[i].name == r.name
  {
    var n := |rows| - 1;
    if exists x :: x in rows[..n] && x.name == r.name {
      var x :| x in rows[..n] && x.name == r.name;
      i := FirstExists(rows[..n], x);
    } else {
      i := n;
      assert rows[n].name == r.name;
      assert forall j :: 0 <= j < n ==> rows[..n][j] == rows[j];
    }
  }

  lemma SameGroup(g: Group, h: Group, rows: seq<Row>, records: seq<Row>)
    requires Uniform(rows) && ScanOf(records, rows) && GroupOf(g, rows) && GroupOf(h, records)
    requires g.name == h.name && g.id == h.id && g.levels.Keys == h.levels.Keys
    ensures g == h
  {
    forall l | l in g.levels ensures g.levels[l] == h.levels[l] {
      assert l in h.levels.Keys;
    }
    assert g.levels == h.levels;
  }

  lemma GroupedKey(m: Groups, rows: seq<Row>, k: string)
    requires Grouped(m, rows)
    ensures k in m <==> exists r :: r in rows && r.name == k
  {
  }

  lemma GroupedLevel(m: Groups, rows: seq<Row>, k: string, l: int)
    requires Grouped(m, rows) && k in m
    ensures l in m[k].levels <==> exists r :: r in rows && r.name == k && r.level.level == l
  {
  }

  lemma SameKeys(m: Groups, w: Groups, rows: seq<Row>, records: seq<Row>)
    requires ScanOf(records, rows) && Grouped(m, rows) && Grouped(w, records)
    ensures m.Keys == w.Keys && forall k :: k in m ==> m[k].levels.Keys == w[k].levels.Keys
  {
    forall k ensures k in m <==> k in w {
      GroupedKey(m, rows, k);
      GroupedKey(w, records, k);
    }
    forall k, l | k in m ensures l in m[k].levels <==> l in w[k].levels {
      GroupedLevel(m, rows, k, l);
      GroupedLevel(w, records, k, l);
    }
  }

  /** The least id among the records of a name is the id of a row that has the least among the rows of that name. */
  lemma SameLeast(rows: seq<Row>, records: seq<Row>, a: Row, b: Row)
    requires ScanOf(records, rows) && a in rows && b in records && a.name == b.name
    requires forall r :: r in rows && r.name == a.name ==> a.id <= r.id
    requires forall r :: r in records && r.name == b.name ==> b.id <= r.id
    ensures a.id == b.id
  {
  }

  lemma SameId(rows: seq<Row>, records: seq<Row>, r: Row)
    requires FirstIsLeast(rows) && ScanOf(records, rows) && r in records
    ensures r.name in FromCache(records) && r.name in FromTable(rows)
    ensures FromTable(rows)[r.name].id == FromCache(records)[r.name].id
  {
    var i := FirstExists(rows, r);
    IdFromTable(rows, i);
    CacheGrouped(records);
    forall x | x in records && x.name == r.name
      ensures x.name in FromCache(records) && FromCache(records)[r.name].id <= x.id
    {
      var j :| 0 <= j < |records| && records[j] == x;
      IdFromCache(records, j);
    }
    var least :| least in records && least.name == r.name && least.id == FromCache(records)[r.name].id;
    SameLeast(rows, records, rows[i], least);
  }

  lemma SameGroups(m: Groups, w: Groups, rows: seq<Row>, records: seq<Row>)
    requires Uniform(rows) && ScanOf(records, rows) && Grouped(m, rows) && Grouped(w, records)
    requires forall k :: k in m && k in w ==> m[k].id == w[k].id
    ensures m == w
  {
    SameKeys(m, w, rows, records);
    forall k | k in m ensures k in w && m[k] == w[k] {
      assert k in w.Keys;
      SameGroup(m[k], w[k], rows, records);
    }
  }

  lemma CacheEqualsTable(rows: seq<Row>, records: seq<Row>)
    requires Uniform(rows) && FirstIsLeast(rows) && ScanOf(records, rows)
    ensures FromCache(records) == FromTable(rows)
  {
    var m, w := FromTable(rows), FromCache(records);
    TableGrouped(rows);
    CacheGrouped(records);
    forall k | k in m && k in w ensures m[k].id == w[k].id {
      var r :| r in records && r.name == k;
      SameId(rows, records, r);
    }
    SameGroups(m, w, rows, records);
  }

  // ---- Which row gives what ----

  ghost predicate SameLevel(a: Row, b: Row) {
    a.name == b.name && a.level.level == b.level.level
  }

  /** No later row has the same name and level number. */
  ghost predicate LastOfLevel(rows: seq<Row>, i: nat) {
    i < |rows| && forall j :: i < j < |rows| ==> !SameLevel(rows[j], rows[i])
  }

  /** Row `r` is entered in the groups. */
  ghost predicate Entered(m: Groups, r: Row) {
    r.name in m && r.level.level in m[r.name].levels
  }

  /** What entering `r` does to what is there for the name and level of an earlier row `x`. */
  lemma EnteredNext(m: Groups, r: Row, x: Row)
    requires Entered(m, x)
    ensures var w := AddRow(m, r);
      && Entered(w, x) && w[x.name].id == m[x.name].id && w[x.name].category == m[x.name].category
      && (!SameLevel(r, x) ==> w[x.name].levels[x.level.level] == m[x.name].levels[x.level.level])
    ensures var w := AddRecord(m, r);
      && Entered(w, x) && w[x.name].category == m[x.name].category
      && (!SameLevel(r, x) ==> w[x.name].levels[x.level.level] == m[x.name].levels[x.level.level])
  {
  }

  lemma EnteredLast(m: Groups, r: Row)
    ensures var w := AddRow(m, r);
      && Entered(w, r) && w[r.name].levels[r.level.level] == r.level
      && (r.name !in m ==> w[r.name].id == r.id && w[r.name].category == r.category)
    ensures var w := AddRecord(m, r);
      && Entered(w, r) && w[r.name].levels[r.level.level] == r.level
      && (r.name !in m ==> w[r.name].category == r.category)
  {
  }

  lemma OfFront(rows: seq<Row>, i: nat)
    requires i + 1 < |rows|
    ensures var front := rows[..|rows| - 1];
      && front[i] == rows[i]
      && (IsFirst(rows, i) ==> IsFirst(front, i))
      && (LastOfLevel(rows, i) ==> LastOfLevel(front, i) && !SameLevel(rows[|rows| - 1], rows[i]))
  {
  }

  lemma FirstIsNew(rows: seq<Row>)
    requires rows != [] && IsFirst(rows, |rows| - 1)
    ensures rows[|rows| - 1].name !in FromTable(rows[..|rows| - 1])
    ensures rows[|rows| - 1].name !in FromCache(rows[..|rows| - 1])
  {
    var front, r := rows[..|rows| - 1], rows[|rows| - 1];
    TableGrouped(front);
    CacheGrouped(front);
    NotGrouped(FromTable(front), front, r.name);
    NotGrouped(FromCache(front), front, r.name);
  }

  /** In the table's groups the first row of a name gives id and category, and the last row of a level its payload. */
  lemma {:induction false} TableRows(rows: seq<Row>, i: nat)
    requires i < |rows|
    ensures var m, r := FromTable(rows), rows[i];
      && Entered(m, r)
      && (IsFirst(rows, i) ==> m[r.name].id == r.id && m[r.name].category == r.category)
      && (LastOfLevel(rows, i) ==> m[r.name].levels[r.level.level] == r.level)
  {
    var n := |rows| - 1;
    var m := FromTable(rows[..n]);
    assert FromTable(rows) == AddRow(m, rows[n]);
    hide FromTable, AddRow, AddRecord, IsFirst, LastOfLevel, SameLevel;
    if i < n {
      TableRows(rows[..n], i);
      OfFront(rows, i);
      EnteredNext(m, rows[n], rows[i]);
    } else {
      EnteredLast(m, rows[n]);
      if IsFirst(rows, i) {
        FirstIsNew(rows);
      }
    }
  }

  /** In the cache's groups the first record of a name gives the category, and the last record of a level its
      payload. */
  lemma {:induction false} CacheRecords(records: seq<Row>, i: nat)
    requires i < |records|
    ensures var m, r := FromCache(records), records[i];
      && Entered(m, r)
      && (IsFirst(records, i) ==> m[r.name].category == r.category)
      && (LastOfLevel(records, i) ==> m[r.name].levels[r.level.level] == r.level)
  {
    var n := |records| - 1;
    var m := FromCache(records[..n]);
    assert FromCache(records) == AddRecord(m, records[n]);
    hide FromCache, AddRow, AddRecord, IsFirst, LastOfLevel, SameLevel;
    if i < n {
      CacheRecords(records[..n], i);
      OfFront(records, i);
      EnteredNext(m, records[n], records[i]);
    } else {
      EnteredLast(m, records[n]);
      if IsFirst(records, i) {
        FirstIsNew(records);
      }
    }
  }

  lemma LastRecordWins(records: seq<Row>, r: Row)
    ensures r.name in FromCache(records + [r]) && r.level.level in FromCache(records + [r])[r.name].levels
    ensures FromCache(records + [r])[r.name].levels[r.level.level] == r.level
  {
  }

  lemma {:induction false} FirstRecordGivesCategory(r: Row, records: seq<Row>)
    ensures r.name in FromCache([r] + records) && FromCache([r] + records)[r.name].category == r.category
  {
    var all := [r] + records;
    if records == [] {
      assert all[..0] == [];
    } else {
      var n := |records| - 1;
      FirstRecordGivesCategory(r, records[..n]);
      assert all[..|all| - 1] == [r] + records[..n];
    }
  }

  /** The table's group has the level and the category of row `a`. */
  ghost predicate TableHas(rows: seq<Row>, a: Row) {
    var m := FromTable(rows);
    && a.name in m && a.level.level in m[a.name].levels
    && m[a.name].levels[a.level.level] == a.level && m[a.name].category == a.category
  }

  lemma LeastIdNeeded(rows: seq<Row>)
    requires FromCache(rows) == FromTable(rows)
    ensures FirstIsLeast(rows)
  {
    forall i: nat, r | IsFirst(rows, i) && r in rows && r.name == rows[i].name ensures rows[i].id <= r.id {
      IdFromTable(rows, i);
      var j :| 0 <= j < |rows| && rows[j] == r;
      IdFromCache(rows, j);
    }
  }

  /** Every scan of the table's records groups to the same as the table if and only if every name has one category,
      every level of a name has one payload, and the first row of a name has its smallest id. */
  lemma CacheEqualsTableIff(rows: seq<Row>)
    ensures (forall records :: ScanOf(records, rows) ==> FromCache(records) == FromTable(rows)) <==>
      Uniform(rows) && FirstIsLeast(rows)
  {
    if Uniform(rows) && FirstIsLeast(rows) {
      forall records | ScanOf(records, rows) ensures FromCache(records) == FromTable(rows) {
        CacheEqualsTable(rows, records);
      }
    }
    if forall records :: ScanOf(records, rows) ==> FromCache(records) == FromTable(rows) {
      forall a | a in rows ensures TableHas(rows, a) {
        assert ScanOf(rows + [a], rows) && ScanOf([a] + rows, rows);
        LastRecordWins(rows, a);
        FirstRecordGivesCategory(a, rows);
      }
      assert ScanOf(rows, rows);
      LeastIdNeeded(rows);
    }
  }

  // ---- The sorted list ----

  /** `slices.SortedFunc(maps.Values(m), compareAchievements)`: the groups in order of id. */
  ghost predicate SortedValues(m: Groups, out: seq<Group>) {
    && (forall i, j :: 0 <= i < j < |out| ==> out[i].id <= out[j].id && out[i].name != out[j].name)
    && (forall g :: g in out <==> g.name in m && m[g.name] == g)
  }

  ghost predicate UniqueIds(rows: seq<Row>) {
    forall a, b :: a in rows && b in rows && a.id == b.id ==> a == b
  }

  ghost predicate Ascending(out: seq<Group>) {
    forall i, j :: 0 <= i < j < |out| ==> out[i].id < out[j].id
  }

  lemma {:induction false} SameAscending(a: seq<Group>, b: seq<Group>)
    requires Ascending(a) && Ascending(b) && forall g :: g in a <==> g in b
    ensures a == b
  {
    if a == [] {
      assert forall i :: 0 <= i < |b| ==> b[i] in b;
    } else {
      assert a[0] in a && a[0] in b;
      assert b[0] in b && b[0] in a;
      assert a[0] == b[0];
      var x, y := a[1..], b[1..];
      assert a == [a[0]] + x && b == [b[0]] + y;
      assert a[0] !in x && b[0] !in y;
      assert forall g :: g in x <==> g in a && g != a[0];
      assert forall g :: g in y <==> g in b && g != b[0];
      SameAscending(x, y);
    }
  }

  lemma ValuesAscending(rows: seq<Row>, out: seq<Group>)
    requires UniqueIds(rows) && SortedValues(FromTable(rows), out)
    ensures Ascending(out)
  {
    TableGrouped(rows);
    forall i, j | 0 <= i < j < |out| ensures out[i].id < out[j].id {
      assert out[i] in out && out[j] in out;
      var a :| a in rows && a.name == out[i].name && a.id == out[i].id;
      var b :| b in rows && b.name == out[j].name && b.id == out[j].id;
      assert a != b;
    }
  }

  /** The list built from the cache is the list built from the table. */
  lemma CachedListEqualsTableList(rows: seq<Row>, records: seq<Row>, cached: seq<Group>, listed: seq<Group>)
    requires UniqueIds(rows) && Uniform(rows) && FirstIsLeast(rows) && ScanOf(records, rows)
    requires SortedValues(FromTable(rows), listed) && SortedValues(FromCache(records), cached)
    ensures cached == listed
  {
    CacheEqualsTable(rows, records);
    ValuesAscending(rows, listed);
    ValuesAscending(rows, cached);
    SameAscending(cached, listed);
  }

  // ---- The loops ----

  class Achievement {
    var id: int
    const name: string
    const category: string
    var levels: map<int, Level>

    ghost function View(): Group
      reads this
    {
      Group(id, name, category, levels)
    }

    constructor (r: Row)
      ensures id == r.id && name == r.name && category == r.category && levels == map[]
    {
      id, name, category, levels := r.id, r.name, r.category, map[];
    }
  }

  ghost predicate Shows(objects: map<string, Achievement>, m: Groups)
    reads objects.Values
  {
    && objects.Keys == m.Keys
    && forall k :: k in objects ==> objects[k].name == k && objects[k].View() == m[k]
  }

  /** The loop of `getAchievementsFromDB`. */
  method GroupRows(rows: seq<Row>) returns (achievements: map<string, Achievement>)
    ensures (forall k :: k in achievements ==> fresh(achievements[k])) && Shows(achievements, FromTable(rows))
  {
    achievements := map[];
    for i := 0 to |rows|
      invariant (forall k :: k in achievements ==> fresh(achievements[k])) && Shows(achievements, FromTable(rows[..i]))
    {
      var r := rows[i];
      if r.name !in achievements {
        var added := new Achievement(r);
        achievements := achievements[r.name := added];
      }
      var current := achievements[r.name];
      current.levels := current.levels[r.level.level := r.level];
      assert rows[..i + 1][..i] == rows[..i];
    }
    assert rows[..|rows|] == rows;
  }

  function Flatten(batches: seq<seq<Row>>): seq<Row> {
    if batches == [] then [] else Flatten(batches[..|batches| - 1]) + batches[|batches| - 1]
  }

  /** No record of any batch is left out, and none added. */
  lemma {:induction false} FlattenHas(batches: seq<seq<Row>>, r: Row)
    ensures r in Flatten(batches) <==> exists k :: 0 <= k < |batches| && r in batches[k]
  {
    if batches != [] {
      var n := |batches| - 1;
      FlattenHas(batches[..n], r);
      assert forall k :: 0 <= k < n ==> batches[..n][k] == batches[k];
    }
  }

  /** The loop body of `getAchievementsFromCache`. */
  method AddOne(achievements: map<string, Achievement>, ghost before: Groups, r: Row)
    returns (out: map<string, Achievement>)
    requires Shows(achievements, before)
    modifies achievements.Values
    ensures forall k :: k in out ==> out[k] in achievements.Values || fresh(out[k])
    ensures Shows(out, AddRecord(before, r))
  {
    out := achievements;
    if r.name !in out {
      var added := new Achievement(r);
      out := out[r.name := added];
    }
    var current := out[r.name];
    if r.id < current.id {
      current.id := r.id;
    }
    current.levels := current.levels[r.level.level := r.level];
  }

  lemma FromCacheSnoc(before: seq<Row>, batch: seq<Row>, i: nat)
    requires i < |batch|
    ensures FromCache(before + batch[..i + 1]) == AddRecord(FromCache(before + batch[..i]), batch[i])
  {
    assert (before + batch[..i + 1])[..|before| + i] == before + batch[..i];
  }

  /** The records of one batch. */
  method AddBatch(achievements: map<string, Achievement>, ghost before: seq<Row>, batch: seq<Row>)
    returns (out: map<string, Achievement>)
    requires Shows(achievements, FromCache(before))
    modifies achievements.Values
    ensures forall k :: k in out ==> out[k] in achievements.Values || fresh(out[k])
    ensures Shows(out, FromCache(before + batch))
  {
    out := achievements;
    assert before + batch[..0] == before;
    for i := 0 to |batch|
      invariant forall k :: k in out ==> out[k] in achievements.Values || fresh(out[k])
      invariant Shows(out, FromCache(before + batch[..i]))
    {
      FromCacheSnoc(before, batch, i);
      out := AddOne(out, FromCache(before + batch[..i]), batch[i]);
    }
    assert batch[..|batch|] == batch;
  }

  /** `getAchievementsFromCache` over all the batches of its scan. */
  method GroupRecords(batches: seq<seq<Row>>) returns (achievements: map<string, Achievement>)
    ensures forall k :: k in achievements ==> fresh(achievements[k])
    ensures Shows(achievements, FromCache(Flatten(batches)))
  {
    achievements := map[];
    for i := 0 to |batches|
      invariant forall k :: k in achievements ==> fresh(achievements[k])
      invariant Shows(achievements, FromCache(Flatten(batches[..i])))
    {
      achievements := AddBatch(achievements, Flatten(batches[..i]), batches[i]);
      assert batches[..i + 1][..i] == batches[..i];
    }
    assert batches[..|batches|] == batches;
  }
}
