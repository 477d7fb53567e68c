/**
 The cache of `subscription/data.go` and what it means for it to agree with the table. An index entry per
 subscription id names the hash that holds a copy of the row; the entries and hashes have their keys in one space of
 strings.
 */
module SubscriptionCache {
  import opened Decimal

  datatype Subscription = Subscription(id: int, userId: int, subType: string, start: int, duration: int, active: bool)

  /** What scanning a missing hash leaves in the struct. */
  const ZERO := Subscription(0, 0, "", 0, 0, false)

  // ---- Keys ----

  /** `user_subscription:%d:%d`, `user_subscription_keys:%d` and `user_subscription_type:%s:%d:%d`. */
  datatype Key = HashKey(user: int, index: int) | IdKey(id: int) | TypeKey(subType: string, user: int, index: int)

  function KeyText(k: Key): string {
    match k
    case HashKey(user, index) => "user_subscription:" + (Print(user) + [':'] + Print(index))
    case IdKey(id) => "user_subscription_keys:" + Print(id)
    case TypeKey(subType, user, index) =>
      "user_subscription_type:" + (subType + [':'] + Print(user) + [':'] + Print(index))
  }

  lemma PrintedZero()
    ensures Print(0) == "0"
  {
  }

  lemma PrintedTwelve()
    ensures Print(12) == "12"
  {
    assert PrintNat(1) == "1" && Print(12) == PrintNat(1) + "2";
  }

  lemma PrintedThreeDigits()
    ensures Print(345) == "345"
  {
    assert PrintNat(3) == "3" && PrintNat(34) == PrintNat(3) + "4" && Print(345) == PrintNat(34) + "5";
  }

  lemma KeyFormats()
    ensures KeyText(HashKey(12, 0)) == "user_subscription:12:0"
    ensures KeyText(IdKey(345)) == "user_subscription_keys:345"
    ensures KeyText(TypeKey("HABBO_CLUB", 12, 0)) == "user_subscription_type:HABBO_CLUB:12:0"
  {
    PrintedTwelve();
    PrintedZero();
    PrintedThreeDigits();
    hide Print;
  }

  lemma NoColon(n: int)
    ensures ':' !in Print(n)
  {
  }

  lemma PairInjective(u: int, i: int, v: int, j: int)
    requires Print(u) + [':'] + Print(i) == Print(v) + [':'] + Print(j)
    ensures u == v && i == j
  {
    NoColon(u);
    NoColon(v);
    CutAtSeparator(Print(u), Print(v), Print(i), Print(j), ':');
    PrintInjective(u, v);
    PrintInjective(i, j);
  }

  lemma TripleInjective(s: string, u: int, i: int, t: string, v: int, j: int)
    requires s + [':'] + Print(u) + [':'] + Print(i) == t + [':'] + Print(v) + [':'] + Print(j)
    ensures s == t && u == v && i == j
  {
    NoColon(u);
    NoColon(v);
    NoColon(i);
    NoColon(j);
    CutAtLastSeparator(s + [':'] + Print(u), t + [':'] + Print(v), Print(i), Print(j), ':');
    CutAtLastSeparator(s, t, Print(u), Print(v), ':');
    PrintInjective(u, v);
    PrintInjective(i, j);
  }

  lemma SamePrefix(p: string, a: string, b: string)
    requires p + a == p + b
    ensures a == b
  {
    assert a == (p + a)[|p|..] && b == (p + b)[|p|..];
  }

  lemma KindOfKey(k: Key)
    ensures |KeyText(k)| > 18
    ensures KeyText(k)[17] == (if k.HashKey? then ':' else '_')
    ensures !k.HashKey? ==> KeyText(k)[18] == (if k.IdKey? then 'k' else 't')
  {
    hide Print;
  }

  /** Different keys are different strings, whatever the type names and the signs of the numbers. */
  lemma KeyTextInjective(k: Key, l: Key)
    requires KeyText(k) == KeyText(l)
    ensures k == l
  {
    KindOfKey(k);
    KindOfKey(l);
    if k.HashKey? {
      SamePrefix("user_subscription:", Print(k.user) + [':'] + Print(k.index), Print(l.user) + [':'] + Print(l.index));
      PairInjective(k.user, k.index, l.user, l.index);
    } else if k.IdKey? {
      SamePrefix("user_subscription_keys:", Print(k.id), Print(l.id));
      PrintInjective(k.id, l.id);
    } else {
      SamePrefix("user_subscription_type:", k.subType + [':'] + Print(k.user) + [':'] + Print(k.index),
        l.subType + [':'] + Print(l.user) + [':'] + Print(l.index));
      TripleInjective(k.subType, k.user, k.index, l.subType, l.user, l.index);
    }
  }

  // ---- State ----

  type Table = map<int, Subscription>
  type Pointers = map<Key, Key>
  type Hashes = map<Key, Subscription>

  datatype Db = Db(table: Table, pointers: Pointers, hashes: Hashes)

  function Find<V>(m: map<Key, V>, k: Key): Option<V> {
    if k in m then Some(m[k]) else None
  }

  /** The hash that the index entry of `id` names. */
  function Entry(db: Db, id: int): Option<Key> {
    Find(db.pointers, IdKey(id))
  }

  predicate Owns(t: Table, user: int, id: int) {
    id in t && t[id].userId == user
  }

  // ---- Coherence ----

  ghost predicate KeyedById(t: Table) {
    forall id :: id in t ==> t[id].id == id
  }

  /** The index entry of `id`, if there is one, names a hash of `user` that equals the row. */
  ghost predicate Exact(db: Db, user: int, id: int)
    requires id in db.table
  {
    var e := Entry(db, id);
    e.None? || (e.value.HashKey? && e.value.user == user && Find(db.hashes, e.value) == Some(db.table[id]))
  }

  /** The index entries of the user's subscriptions are exact. */
  ghost predicate CoherentFor(db: Db, user: int) {
    forall id :: Owns(db.table, user, id) ==> Exact(db, user, id)
  }

  ghost predicate Coherent(db: Db) {
    && KeyedById(db.table)
    && (forall id :: Entry(db, id).Some? ==> id in db.table)
    && (forall user :: CoherentFor(db, user))
  }

  /** Different ids never share a hash. */
  lemma HashesApart(db: Db, i: int, j: int)
    requires Coherent(db) && Entry(db, i).Some? && Entry(db, j).Some? && i != j
    ensures Entry(db, i) != Entry(db, j)
  {
    assert CoherentFor(db, db.table[i].userId) && CoherentFor(db, db.table[j].userId);
    assert Exact(db, db.table[i].userId, i) && Exact(db, db.table[j].userId, j);
  }

  // ---- Complete caches ----

  function IdsOf(t: Table, user: int): set<int> {
    set id | id in t && t[id].userId == user
  }

  predicate Uncached(h: Hashes, user: int) {
    forall k :: k in h ==> !(k.HashKey? && k.user == user)
  }

  /** Some subscription of the user is indexed under hash `k`. */
  ghost predicate Named(db: Db, user: int, k: Key) {
    exists id :: Owns(db.table, user, id) && Entry(db, id) == Some(k)
  }

  /** Nothing is cached for the user, or each row is indexed, and the hashes are numbered from 0 and all indexed. */
  ghost predicate FullFor(db: Db, user: int) {
    || Uncached(db.hashes, user)
    || ( && (forall i :: HashKey(user, i) in db.hashes <==> 0 <= i < |IdsOf(db.table, user)|)
         && (forall id :: Owns(db.table, user, id) ==> Entry(db, id).Some?)
         && (forall i :: HashKey(user, i) in db.hashes ==> Named(db, user, HashKey(user, i))))
  }

  ghost predicate Full(db: Db) {
    forall user :: FullFor(db, user)
  }

  /** A scan of the user's hashes visits each, perhaps more than once, in any order. */
  ghost predicate ScanOf(h: Hashes, user: int, scan: seq<int>) {
    && (forall k :: 0 <= k < |scan| ==> HashKey(user, scan[k]) in h)
    && (forall i :: HashKey(user, i) in h ==> exists k :: 0 <= k < |scan| && scan[k] == i)
  }

  function Scanned(h: Hashes, user: int, scan: seq<int>): seq<Subscription>
    requires forall k :: 0 <= k < |scan| ==> HashKey(user, scan[k]) in h
  {
    seq(|scan|, k requires 0 <= k < |scan| => h[HashKey(user, scan[k])])
  }

  /** `rows` lists exactly the user's rows. */
  ghost predicate Lists(t: Table, user: int, rows: seq<Subscription>) {
    && (forall k :: 0 <= k < |rows| ==> Owns(t, user, rows[k].id) && t[rows[k].id] == rows[k])
    && (forall id :: Owns(t, user, id) ==> exists k :: 0 <= k < |rows| && rows[k] == t[id])
  }

  /** Scanning a complete cache lists the table's rows. */
  lemma ScanLists(db: Db, user: int, scan: seq<int>)
    requires Coherent(db) && FullFor(db, user) && HashKey(user, 0) in db.hashes && ScanOf(db.hashes, user, scan)
    ensures Lists(db.table, user, Scanned(db.hashes, user, scan))
  {
    var rows := Scanned(db.hashes, user, scan);
    assert CoherentFor(db, user);
    forall k | 0 <= k < |rows| ensures Owns(db.table, user, rows[k].id) && db.table[rows[k].id] == rows[k] {
      assert Named(db, user, HashKey(user, scan[k]));
      var id :| Owns(db.table, user, id) && Entry(db, id) == Some(HashKey(user, scan[k]));
      assert Exact(db, user, id);
    }
    forall id | Owns(db.table, user, id) ensures exists k :: 0 <= k < |rows| && rows[k] == db.table[id] {
      assert Exact(db, user, id);
      var i := Entry(db, id).value.index;
      assert HashKey(user, i) in db.hashes;
      var k :| 0 <= k < |scan| && scan[k] == i;
      assert rows[k] == db.table[id];
    }
  }

  // ---- Writing one row through ----

  /** Table and hash of `id` after its row became `row`. */
  function WriteRow(db: Db, id: int, row: Subscription): Db {
    Db(db.table[id := row], db.pointers,
       if Entry(db, id).Some? then db.hashes[Entry(db, id).value := row] else db.hashes)
  }

  /** Writing a row to its hash and to the table keeps every index entry exact. */
  lemma WriteThrough(db: Db, id: int, row: Subscription)
    requires Coherent(db) && id in db.table && row.id == id && row.userId == db.table[id].userId
    ensures Coherent(WriteRow(db, id, row))
  {
    var w := WriteRow(db, id, row);
    assert CoherentFor(db, row.userId) && Exact(db, row.userId, id);
    forall user, i | Owns(w.table, user, i) ensures Exact(w, user, i) {
      assert CoherentFor(db, user) && Exact(db, user, i);
      if i != id && Entry(db, i).Some? && Entry(db, id).Some? {
        HashesApart(db, i, id);
      }
    }
  }

  lemma WriteKeepsFull(db: Db, id: int, row: Subscription, user: int)
    requires Coherent(db) && id in db.table && row.id == id && row.userId == db.table[id].userId && FullFor(db, user)
    ensures FullFor(WriteRow(db, id, row), user)
  {
    var w := WriteRow(db, id, row);
    assert CoherentFor(db, row.userId) && Exact(db, row.userId, id);
    assert forall k :: k in w.hashes <==> k in db.hashes;
    assert IdsOf(w.table, user) == IdsOf(db.table, user);
    forall k | Named(db, user, k) ensures Named(w, user, k) {
      var i :| Owns(db.table, user, i) && Entry(db, i) == Some(k);
      assert Owns(w.table, user, i) && Entry(w, i) == Some(k);
    }
    assert forall i :: Owns(w.table, user, i) <==> Owns(db.table, user, i);
  }
}
