/**
 Ranks of `permission/data.go`: a rank parsed from a table row column by column, and parsed again from the hash the
 row was cached in, whose fields Go visits in any order.
 */
module Ranks {
  import opened Decimal

  datatype Permission = Permission(key: string, setting: int)

  datatype Rank = Rank(
    id: int, level: int, permissions: map<string, Permission>, variables: map<string, string>, name: string,
    badge: string, roomEffect: int, logCommands: bool, prefix: string, prefixColor: string,
    diamondsTimer: int, creditsTimer: int, pixelsTimer: int, gotwTimer: int)

  /** What a column sets. */
  datatype Field =
    | Id | Level | RankName | Badge | RoomEffect | Prefix | PrefixColor | Points | Credits | Pixels | Gotw | LogCommands
    | Permissions | Variables

  function FieldOf(column: string): Field {
    if column == "id" then Id
    else if column == "level" then Level
    else if column == "rank_name" then RankName
    else if column == "badge" then Badge
    else if column == "room_effect" then RoomEffect
    else if column == "prefix" then Prefix
    else if column == "prefix_color" then PrefixColor
    else if column == "auto_points_amount" then Points
    else if column == "auto_credits_amount" then Credits
    else if column == "auto_pixels_amount" then Pixels
    else if column == "auto_gotw_amount" then Gotw
    else if column == "log_commands" then LogCommands
    else if "acc_" <= column || "cmd_" <= column then Permissions
    else Variables
  }

  /** The column of each field that has one. */
  function ColumnOf(f: Field): string {
    match f
    case Id => "id"
    case Level => "level"
    case RankName => "rank_name"
    case Badge => "badge"
    case RoomEffect => "room_effect"
    case Prefix => "prefix"
    case PrefixColor => "prefix_color"
    case Points => "auto_points_amount"
    case Credits => "auto_credits_amount"
    case Pixels => "auto_pixels_amount"
    case Gotw => "auto_gotw_amount"
    case LogCommands => "log_commands"
    case Permissions => ""
    case Variables => ""
  }

  const EMPTY := Rank(0, 0, map[], map[], "", "", 0, false, "", "", 1, 1, 1, 1)

  /** A number is replaced only by text that parses. */
  function Number(text: string, default: int): int {
    var n := ParseInt32(text);
    if n.Some? then n.value else default
  }

  /** The rank after assigning the column `column`, of field `f`. */
  function Assign(r: Rank, f: Field, column: string, value: string): Rank {
    var n := ParseInt32(value);
    Rank(
      if f == Id && n.Some? then n.value else r.id,
      if f == Level && n.Some? then n.value else r.level,
      if f == Permissions && n.Some? then r.permissions[column := Permission(column, n.value)] else r.permissions,
      if f == Variables then r.variables[column := value] else r.variables,
      if f == RankName then value else r.name,
      if f == Badge then value else r.badge,
      if f == RoomEffect && n.Some? then n.value else r.roomEffect,
      if f == LogCommands then value == "1" else r.logCommands,
      if f == Prefix then value else r.prefix,
      if f == PrefixColor then value else r.prefixColor,
      if f == Points && n.Some? then n.value else r.diamondsTimer,
      if f == Credits && n.Some? then n.value else r.creditsTimer,
      if f == Pixels && n.Some? then n.value else r.pixelsTimer,
      if f == Gotw && n.Some? then n.value else r.gotwTimer)
  }

  function AssignText(r: Rank, column: string, value: string): Rank {
    Assign(r, FieldOf(column), column, value)
  }

  /** The switch in both parsers. */
  method AssignColumn(r: Rank, column: string, value: string) returns (output: Rank)
    ensures output == AssignText(r, column, value)
  {
    output := r;
    var n := ParseInt32(value);
    match FieldOf(column)
    case Id =>
      if n.Some? { output := output.(id := n.value); }
    case Level =>
      if n.Some? { output := output.(level := n.value); }
    case RankName =>
      output := output.(name := value);
    case Badge =>
      output := output.(badge := value);
    case RoomEffect =>
      if n.Some? { output := output.(roomEffect := n.value); }
    case Prefix =>
      output := output.(prefix := value);
    case PrefixColor =>
      output := output.(prefixColor := value);
    case Points =>
      if n.Some? { output := output.(diamondsTimer := n.value); }
    case Credits =>
      if n.Some? { output := output.(creditsTimer := n.value); }
    case Pixels =>
      if n.Some? { output := output.(pixelsTimer := n.value); }
    case Gotw =>
      if n.Some? { output := output.(gotwTimer := n.value); }
    case LogCommands =>
      output := output.(logCommands := value == "1");
    case Permissions =>
      if n.Some? { output := output.(permissions := output.permissions[column := Permission(column, n.value)]); }
    case Variables =>
      output := output.(variables := output.variables[column := value]);
  }

  // ---- What a rank is, without an order ----

  type Columns = map<string, string>

  /** How columns are recognised. The proofs below work for any such pair of functions. */
  ghost predicate Naming(field: string -> Field, column: Field -> string) {
    && (forall f :: f != Permissions && f != Variables ==> field(column(f)) == f)
    && (forall c :: field(c) != Permissions && field(c) != Variables ==> column(field(c)) == c)
  }

  function Text(m: Columns, column: string): string {
    if column in m then m[column] else ""
  }

  function NumberIn(m: Columns, column: string, default: int): int {
    if column in m then Number(m[column], default) else default
  }

  function PermissionsIn(field: string -> Field, m: Columns): map<string, Permission> {
    map c | c in m && field(c) == Permissions && ParseInt32(m[c]).Some? :: Permission(c, ParseInt32(m[c]).value)
  }

  function VariablesIn(field: string -> Field, m: Columns): Columns {
    map c | c in m && field(c) == Variables :: m[c]
  }

  /** The rank that a set of columns stands for. */
  function RankOf(field: string -> Field, column: Field -> string, m: Columns): Rank {
    Rank(
      NumberIn(m, column(Id), 0),
      NumberIn(m, column(Level), 0),
      PermissionsIn(field, m),
      VariablesIn(field, m),
      Text(m, column(RankName)),
      Text(m, column(Badge)),
      NumberIn(m, column(RoomEffect), 0),
      Text(m, column(LogCommands)) == "1",
      Text(m, column(Prefix)),
      Text(m, column(PrefixColor)),
      NumberIn(m, column(Points), 1),
      NumberIn(m, column(Credits), 1),
      NumberIn(m, column(Pixels), 1),
      NumberIn(m, column(Gotw), 1))
  }

  lemma PermissionsStep(field: string -> Field, m: Columns, c: string, value: string)
    requires c !in m
    ensures var n := ParseInt32(value);
      PermissionsIn(field, m[c := value]) ==
      if field(c) == Permissions && n.Some? then PermissionsIn(field, m)[c := Permission(c, n.value)]
      else PermissionsIn(field, m)
  {
  }

  lemma VariablesStep(field: string -> Field, m: Columns, c: string, value: string)
    requires c !in m
    ensures VariablesIn(field, m[c := value]) ==
      if field(c) == Variables then VariablesIn(field, m)[c := value]
      else VariablesIn(field, m)
  {
  }

  /** Assigning one more column to the rank of some columns gives the rank of all of them. */
  lemma AssignStep(field: string -> Field, column: Field -> string, m: Columns, c: string, value: string)
    requires Naming(field, column) && c !in m
    ensures Assign(RankOf(field, column, m), field(c), c, value) == RankOf(field, column, m[c := value])
  {
    PermissionsStep(field, m, c, value);
    VariablesStep(field, m, c, value);
  }

  /** The switch recognises each column. */
  lemma ColumnName(f: Field)
    requires f != Permissions && f != Variables
    ensures FieldOf(ColumnOf(f)) == f
  {
  }

  /** No two columns set the same number or text. */
  lemma NamedColumn(c: string)
    requires FieldOf(c) != Permissions && FieldOf(c) != Variables
    ensures ColumnOf(FieldOf(c)) == c
  {
  }

  lemma ColumnNames()
    ensures Naming(FieldOf, ColumnOf)
  {
    var field, column := FieldOf, ColumnOf;
    forall f | f != Permissions && f != Variables ensures field(column(f)) == f {
      ColumnName(f);
    }
    forall c | field(c) != Permissions && field(c) != Variables ensures column(field(c)) == c {
      NamedColumn(c);
    }
  }

  // ---- Parsing a row and parsing a hash ----

  /** `assign` applied to the first `n` columns, in the order given. */
  function Fold<R>(assign: (R, string, string) -> R, start: R, cols: seq<string>, values: seq<string>, n: nat): R
    requires n <= |cols| && n <= |values|
  {
    if n == 0 then start else assign(Fold(assign, start, cols, values, n - 1), cols[n - 1], values[n - 1])
  }

  /** The rank after the first `n` columns of a row. */
  function Parsed(cols: seq<string>, values: seq<string>, n: nat): Rank
    requires n <= |cols| && n <= |values|
  {
    Fold(AssignText, EMPTY, cols, values, n)
  }

  /** The hash after `HSet` of the first `n` columns. */
  function Stored(hash: Columns, cols: seq<string>, values: seq<string>, n: nat): Columns
    requires n <= |cols| && n <= |values|
  {
    if n == 0 then hash else Stored(hash, cols, values, n - 1)[cols[n - 1] := values[n - 1]]
  }

  predicate Distinct(cols: seq<string>) {
    forall i, j :: 0 <= i < j < |cols| ==> cols[i] != cols[j]
  }

  lemma {:induction false} StoredAt(hash: Columns, cols: seq<string>, values: seq<string>, n: nat, i: nat)
    requires Distinct(cols) && i < n <= |cols| && n <= |values|
    ensures cols[i] in Stored(hash, cols, values, n) && Stored(hash, cols, values, n)[cols[i]] == values[i]
  {
    if i < n - 1 {
      StoredAt(hash, cols, values, n - 1, i);
    }
  }

  ghost predicate Among(cols: seq<string>, n: nat, c: string)
    requires n <= |cols|
  {
    exists i :: 0 <= i < n && cols[i] == c
  }

  lemma {:induction false} StoredFrom(hash: Columns, cols: seq<string>, values: seq<string>, n: nat, c: string)
    requires n <= |cols| && n <= |values| && !Among(cols, n, c)
    ensures c in Stored(hash, cols, values, n) <==> c in hash
  {
    if n > 0 {
      StoredFrom(hash, cols, values, n - 1, c);
    }
  }

  lemma {:induction false} FoldIs<R>(assign: (R, string, string) -> R, meaning: Columns -> R, cols: seq<string>,
          values: seq<string>, n: nat)
    requires forall m: Columns, c, v :: c !in m ==> assign(meaning(m), c, v) == meaning(m[c := v])
    requires Distinct(cols) && n <= |cols| && n <= |values|
    ensures Fold(assign, meaning(map[]), cols, values, n) == meaning(Stored(map[], cols, values, n))
  {
    if n > 0 {
      FoldIs(assign, meaning, cols, values, n - 1);
      assert !Among(cols, n - 1, cols[n - 1]);
      StoredFrom(map[], cols, values, n - 1, cols[n - 1]);
    }
  }

  /** The rank of a set of columns under the names of the permissions table. */
  function Meaning(m: Columns): Rank {
    RankOf(FieldOf, ColumnOf, m)
  }

  lemma MeaningStep(m: Columns, c: string, v: string)
    requires c !in m
    ensures AssignText(Meaning(m), c, v) == Meaning(m[c := v])
  {
    ColumnNames();
    AssignStep(FieldOf, ColumnOf, m, c, v);
  }

  lemma ParsedIsMeaning(cols: seq<string>, values: seq<string>, n: nat)
    requires Distinct(cols) && n <= |cols| && n <= |values|
    ensures Parsed(cols, values, n) == Meaning(Stored(map[], cols, values, n))
  {
    var assign, meaning := AssignText, Meaning;
    forall m: Columns, c, v | c !in m ensures assign(meaning(m), c, v) == meaning(m[c := v]) {
      MeaningStep(m, c, v);
    }
    FoldIs(assign, meaning, cols, values, n);
    assert Meaning(map[]) == EMPTY;
  }

  /** `range hash` visits each column once, in the order `order`. */
  ghost predicate Visits(order: seq<string>, hash: Columns) {
    && Distinct(order)
    && (forall i :: 0 <= i < |order| ==> order[i] in hash)
    && (forall c :: c in hash ==> exists i :: 0 <= i < |order| && order[i] == c)
  }

  function ValuesOf(order: seq<string>, hash: Columns): seq<string>
    requires forall i :: 0 <= i < |order| ==> order[i] in hash
  {
    seq(|order|, i requires 0 <= i < |order| => hash[order[i]])
  }

  lemma StoredFromOrder(hash: Columns, order: seq<string>, c: string)
    requires Visits(order, hash)
    ensures var m := Stored(map[], order, ValuesOf(order, hash), |order|);
      && (c in m <==> c in hash)
      && (c in hash ==> m[c] == hash[c])
  {
    if c in hash {
      var i: nat :| i < |order| && order[i] == c;
      StoredAt(map[], order, ValuesOf(order, hash), |order|, i);
    } else {
      assert !Among(order, |order|, c);
      StoredFrom(map[], order, ValuesOf(order, hash), |order|, c);
    }
  }

  lemma StoredAll(hash: Columns, order: seq<string>)
    requires Visits(order, hash)
    ensures Stored(map[], order, ValuesOf(order, hash), |order|) == hash
  {
    var values := ValuesOf(order, hash);
    forall c ensures c in Stored(map[], order, values, |order|) <==> c in hash {
      StoredFromOrder(hash, order, c);
    }
    forall c | c in hash ensures Stored(map[], order, values, |order|)[c] == hash[c] {
      StoredFromOrder(hash, order, c);
    }
  }

  lemma ParsedFromCache(hash: Columns, order: seq<string>)
    requires Visits(order, hash)
    ensures Parsed(order, ValuesOf(order, hash), |order|) == Meaning(hash)
  {
    StoredAll(hash, order);
    ParsedIsMeaning(order, ValuesOf(order, hash), |order|);
  }

  lemma SameHash(hash: Columns, cols: seq<string>, values: seq<string>)
    requires Distinct(cols) && |cols| <= |values| && forall c :: c in hash ==> Among(cols, |cols|, c)
    ensures Stored(hash, cols, values, |cols|) == Stored(map[], cols, values, |cols|)
  {
    var n := |cols|;
    var m, w := Stored(hash, cols, values, n), Stored(map[], cols, values, n);
    forall c ensures (c in m <==> c in w) && (c in m ==> m[c] == w[c]) {
      if Among(cols, n, c) {
        var i: nat :| i < n && cols[i] == c;
        StoredAt(hash, cols, values, n, i);
        StoredAt(map[], cols, values, n, i);
      } else {
        StoredFrom(hash, cols, values, n, c);
        StoredFrom(map[], cols, values, n, c);
      }
    }
  }

  /** `rankFromQueryResult`: the rank, and the hash its row is cached in. */
  method RankFromQueryResult(cols: seq<string>, result: seq<string>, hash: Columns)
    returns (output: Rank, cached: Columns)
    requires |cols| <= |result|
    ensures output == Parsed(cols, result, |cols|) && cached == Stored(hash, cols, result, |cols|)
  {
    output, cached := EMPTY, hash;
    for i := 0 to |cols|
      invariant output == Parsed(cols, result, i) && cached == Stored(hash, cols, result, i)
    {
      output := AssignColumn(output, cols[i], result[i]);
      cached := cached[cols[i] := result[i]];
    }
  }

  /** `rankFromQueryResultFromCache`: whatever the order of iteration, the rank is the one the columns stand for. */
  method RankFromCache(hash: Columns, order: seq<string>) returns (output: Rank)
    requires Visits(order, hash)
    ensures output == Meaning(hash)
  {
    hide Meaning, AssignText, Distinct;
    ghost var values := ValuesOf(order, hash);
    output := EMPTY;
    for i := 0 to |order|
      invariant output == Parsed(order, values, i)
    {
      output := AssignColumn(output, order[i], hash[order[i]]);
    }
    ParsedFromCache(hash, order);
  }

  /** A row with distinct columns parses to the rank that its cached hash parses to, in any order of iteration;
      the hash may hold an older version of the row. */
  lemma CachedRankIsRowRank(hash: Columns, cols: seq<string>, result: seq<string>, cached: Columns, order: seq<string>)
    requires Distinct(cols) && |cols| <= |result| && forall c :: c in hash ==> Among(cols, |cols|, c)
    requires cached == Stored(hash, cols, result, |cols|) && Visits(order, cached)
    ensures Parsed(order, ValuesOf(order, cached), |order|) == Parsed(cols, result, |cols|)
  {
    ParsedFromCache(cached, order);
    SameHash(hash, cols, result);
    ParsedIsMeaning(cols, result, |cols|);
  }

  // ---- What each column means ----

  predicate StartsWith(column: string, prefix: string) {
    |column| >= |prefix| && column[..|prefix|] == prefix
  }

  predicate IsNamed(column: string) {
    column in {"id", "level", "rank_name", "badge", "room_effect", "prefix", "prefix_color", "auto_points_amount",
               "auto_credits_amount", "auto_pixels_amount", "auto_gotw_amount", "log_commands"}
  }

  /** A column other than the twelve named ones that starts with "acc_" or "cmd_". */
  predicate IsPermission(column: string) {
    !IsNamed(column) && (StartsWith(column, "acc_") || StartsWith(column, "cmd_"))
  }

  lemma FieldByName(column: string)
    ensures FieldOf(column) == Permissions <==> IsPermission(column)
    ensures FieldOf(column) == Variables <==> !IsNamed(column) && !IsPermission(column)
  {
  }

  /** The number in a column, or `default` if it is missing or does not parse. */
  ghost predicate HoldsNumber(m: Columns, column: string, default: int, x: int) {
    x == if column in m && ParseInt32(m[column]).Some? then ParseInt32(m[column]).value else default
  }

  ghost predicate HoldsText(m: Columns, column: string, x: string) {
    x == if column in m then m[column] else ""
  }

  lemma NumberHeld(m: Columns)
    ensures forall c, default :: HoldsNumber(m, c, default, NumberIn(m, c, default))
  {
    hide ParseInt32;
  }

  lemma TextHeld(m: Columns)
    ensures forall c :: HoldsText(m, c, Text(m, c))
  {
  }

  /** The twelve named columns set one field each; the four amounts are 1 without their column. */
  lemma NamedColumns(m: Columns)
    ensures var r := Meaning(m);
      && HoldsNumber(m, "id", 0, r.id) && HoldsNumber(m, "level", 0, r.level)
      && HoldsNumber(m, "room_effect", 0, r.roomEffect)
      && HoldsNumber(m, "auto_points_amount", 1, r.diamondsTimer)
      && HoldsNumber(m, "auto_credits_amount", 1, r.creditsTimer)
      && HoldsNumber(m, "auto_pixels_amount", 1, r.pixelsTimer)
      && HoldsNumber(m, "auto_gotw_amount", 1, r.gotwTimer)
      && HoldsText(m, "rank_name", r.name) && HoldsText(m, "badge", r.badge)
      && HoldsText(m, "prefix", r.prefix) && HoldsText(m, "prefix_color", r.prefixColor)
      && (r.logCommands <==> "log_commands" in m && m["log_commands"] == "1")
  {
    NumberHeld(m);
    TextHeld(m);
    hide FieldOf, PermissionsIn, VariablesIn, NumberIn, HoldsNumber, HoldsText;
  }

  /** The other columns are permissions if they start with "acc_" or "cmd_", and then only if they parse; the rest are
      variables. */
  lemma OtherColumns(m: Columns, c: string)
    ensures var r := Meaning(m);
      && (c in r.permissions <==> c in m && IsPermission(c) && ParseInt32(m[c]).Some?)
      && (c in r.permissions ==> r.permissions[c] == Permission(c, ParseInt32(m[c]).value))
      && (c in r.variables <==> c in m && !IsNamed(c) && !StartsWith(c, "acc_") && !StartsWith(c, "cmd_"))
      && (c in r.variables ==> r.variables[c] == m[c])
  {
    FieldByName(c);
  }

  // ---- Single permissions ----

  /** The hash hit of `GetPermission`. */
  function CachedPermission(hash: Columns, key: string): Option<int> {
    if key in hash then ParseInt32(hash[key]) else None
  }

  /** The setting under `key` in a rank. */
  function Setting(r: Rank, key: string): Option<int> {
    if key in r.permissions then Some(r.permissions[key].setting) else None
  }

  /** A hash hit answers what the rank parsed from that hash holds, for every hash, exactly for the keys that are
      permissions: on any other numeric column it answers although the rank has no such permission. */
  lemma HashHitIsRankPermissionIff(key: string)
    ensures (forall hash: Columns :: CachedPermission(hash, key) == Setting(Meaning(hash), key)) <==>
      IsPermission(key)
  {
    FieldByName(key);
    if !IsPermission(key) {
      ParseInt32OfPrint(1);
      var hash: Columns := map[key := Print(1)];
      assert CachedPermission(hash, key) == Some(1);
      assert Setting(Meaning(hash), key) == None;
    }
  }

  /** `GetPermission` with its fallback to the table's row, if there is one; `None` is its error. */
  method GetPermission(hash: Columns, row: Option<Columns>, key: string) returns (permission: Option<int>)
    ensures permission ==
      if CachedPermission(hash, key).Some? then CachedPermission(hash, key)
      else if row.Some? then CachedPermission(row.value, key) else None
    ensures row.Some? && (forall c :: c in hash ==> c in row.value && row.value[c] == hash[c]) ==>
      permission == CachedPermission(row.value, key)
  {
    if key in hash {
      var n := ParseInt32(hash[key]);
      if n.Some? {
        return n;
      }
    }
    if row.None? || key !in row.value {
      return None;
    }
    return ParseInt32(row.value[key]);
  }
}
