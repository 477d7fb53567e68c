/**
 What the achievement list shows a user: `GetLevelForProgress` and `GetNextLevel` of `achievements/data.go` and the
 loop body of `sendAchievementsListComposer` in `achievements/event.go`. Go visits the levels in any order.
 */
module AchievementLadder {
  import opened Achievements
  import opened Decimal

  type Levels = map<int, Level>

  /** The highest-numbered level whose threshold `progress` meets, if any. */
  ghost predicate IsLevelFor(levels: Levels, progress: int, out: Option<Level>) {
    if out.None? then progress <= 0 || forall k :: k in levels ==> progress < levels[k].progress
    else
      && progress > 0
      && (exists k :: k in levels && levels[k] == out.value)
      && out.value.progress <= progress
      && (forall k :: k in levels && levels[k].progress <= progress ==> levels[k].level <= out.value.level)
  }

  /** `range levels` visits the keys in the order `order`. */
  ghost predicate Visits(order: seq<int>, levels: Levels) {
    && (forall i :: 0 <= i < |order| ==> order[i] in levels)
    && (forall k :: k in levels ==> exists i :: 0 <= i < |order| && order[i] == k)
  }

  /** The level found among the first `n` keys visited. */
  ghost predicate BestOf(levels: Levels, order: seq<int>, n: nat, progress: int, out: Option<Level>)
    requires n <= |order| && Visits(order, levels)
  {
    if out.None? then forall i :: 0 <= i < n ==> progress < levels[order[i]].progress
    else
      && (exists i :: 0 <= i < n && levels[order[i]] == out.value)
      && out.value.progress <= progress
      && (forall i :: 0 <= i < n && levels[order[i]].progress <= progress ==> levels[order[i]].level <= out.value.level)
  }

  lemma BestOfAll(levels: Levels, order: seq<int>, progress: int, out: Option<Level>)
    requires Visits(order, levels) && progress > 0 && BestOf(levels, order, |order|, progress, out)
    ensures IsLevelFor(levels, progress, out)
  {
    if out.Some? {
      var i :| 0 <= i < |order| && levels[order[i]] == out.value;
      var k := order[i];
      assert k in levels && levels[k] == out.value;
    }
  }

  method GetLevelForProgress(levels: Levels, order: seq<int>, progress: int) returns (out: Option<Level>)
    requires Visits(order, levels)
    ensures IsLevelFor(levels, progress, out)
  {
    out := None;
    if progress > 0 {
      for i := 0 to |order|
        invariant BestOf(levels, order, i, progress, out)
      {
        var lvl := levels[order[i]];
        if progress >= lvl.progress {
          if out.Some? {
            if out.value.level > lvl.level {
              continue;
            }
          }
          out := Some(lvl);
        }
      }
      BestOfAll(levels, order, progress, out);
    }
  }

  ghost predicate IsNextLevel(levels: Levels, level: int, out: Option<Level>) {
    if out.None? then forall k :: k in levels ==> levels[k].level != level + 1
    else out.value.level == level + 1 && exists k :: k in levels && levels[k] == out.value
  }

  method GetNextLevel(levels: Levels, order: seq<int>, level: int) returns (out: Option<Level>)
    requires Visits(order, levels)
    ensures IsNextLevel(levels, level, out)
  {
    for i := 0 to |order|
      invariant forall j :: 0 <= j < i ==> levels[order[j]].level != level + 1
    {
      var k := order[i];
      if levels[k].level == level + 1 {
        return Some(levels[k]);
      }
    }
    return None;
  }

  // ---- The entry shown ----

  /** The numbers written for one achievement. */
  datatype Entry = Entry(lvl: int, threshold: int, nextThreshold: int, nextAmount: int, nextType: int, progress: int,
    achieved: bool)

  /** `user` is the progress of the user's record, if there is one. */
  ghost predicate Shown(levels: Levels, user: Option<int>, e: Entry) {
    exists level, next :: Finds(levels, user, level, next) && e == EntryOf(user, level, next)
  }

  /** `level` and `next` are the results of the two lookups. */
  ghost predicate Finds(levels: Levels, user: Option<int>, level: Option<Level>, next: Option<Level>) {
    && (if user.Some? then IsLevelFor(levels, user.value, level) else level == None)
    && IsNextLevel(levels, if level.Some? then level.value.level else 0, next)
  }

  function EntryOf(user: Option<int>, level: Option<Level>, next: Option<Level>): Entry {
    Entry(
      if next.Some? then next.value.level else if level.Some? then level.value.level else 0,
      if level.Some? then level.value.progress else 0,
      if next.Some? then next.value.progress else -1,
      if next.Some? then next.value.rewardAmount else -1,
      if next.Some? then next.value.rewardType else -1,
      if user.Some? && user.value >= 0 then user.value else 0,
      level.Some? && user.Some? && next.None? && user.value >= level.value.progress)
  }

  /** The loop body of `sendAchievementsListComposer`; each lookup ranges over the levels in its own order. */
  method Show(levels: Levels, order: seq<int>, again: seq<int>, user: Option<int>) returns (e: Entry)
    requires Visits(order, levels) && Visits(again, levels)
    ensures Shown(levels, user, e)
  {
    var level: Option<Level> := None;
    if user.Some? {
      level := GetLevelForProgress(levels, order, user.value);
    }
    var next: Option<Level>;
    if level.Some? {
      next := GetNextLevel(levels, again, level.value.level);
    } else {
      next := GetNextLevel(levels, again, 0);
    }
    var lvl := 0;
    if next.Some? {
      lvl := next.value.level;
    } else {
      if level.Some? {
        lvl := level.value.level;
      }
    }
    var threshold := 0;
    if level.Some? {
      threshold := level.value.progress;
    }
    var nextThreshold, nextAmount, nextType := -1, -1, -1;
    if next.Some? {
      nextThreshold, nextAmount, nextType := next.value.progress, next.value.rewardAmount, next.value.rewardType;
    }
    var prog := 0;
    if user.Some? {
      prog := user.value;
    }
    if prog < 0 {
      prog := 0;
    }
    var hasAchieved: bool;
    if level.None? || user.None? {
      hasAchieved := false;
    } else {
      hasAchieved := next.None? && user.value >= level.value.progress;
    }
    e := Entry(lvl, threshold, nextThreshold, nextAmount, nextType, prog, hasAchieved);
    assert Finds(levels, user, level, next) && e == EntryOf(user, level, next);
  }

  /** Each level is kept under its number, as both groupings do. */
  ghost predicate Keyed(levels: Levels) {
    forall k :: k in levels ==> levels[k].level == k
  }

  /** What is shown does not depend on the order in which Go visits the levels. */
  lemma OrderDoesNotMatter(g: Group, rows: seq<Row>, user: Option<int>, e: Entry, f: Entry)
    requires GroupOf(g, rows) && Shown(g.levels, user, e) && Shown(g.levels, user, f)
    ensures e == f
  {
  }

  // ---- Ladders ----

  /** Levels 1 to `n` with positive, strictly increasing thresholds. */
  ghost predicate IsLadder(levels: Levels, n: nat) {
    && (forall k :: k in levels <==> 1 <= k <= n)
    && Keyed(levels)
    && (forall k :: k in levels ==> levels[k].progress > 0)
    && (forall j, k :: j in levels && k in levels && j < k ==> levels[j].progress < levels[k].progress)
  }

  /** How many of the first `n` thresholds are at most `progress`. */
  ghost function Met(levels: Levels, n: nat, progress: int): (k: nat)
    requires forall k :: 1 <= k <= n ==> k in levels
    ensures k <= n
  {
    if n == 0 then 0 else Met(levels, n - 1, progress) + if levels[n].progress <= progress then 1 else 0
  }

  /** On a ladder the thresholds met are the first ones. */
  lemma {:induction false} MetAreFirst(levels: Levels, n: nat, m: nat, progress: int)
    requires IsLadder(levels, n) && m <= n
    ensures forall k :: 1 <= k <= m ==> (levels[k].progress <= progress <==> k <= Met(levels, m, progress))
  {
    if m > 0 {
      MetAreFirst(levels, n, m - 1, progress);
    }
  }

  function Progress(user: Option<int>): int {
    if user.Some? then user.value else 0
  }

  lemma LadderLevel(levels: Levels, n: nat, progress: int, level: Option<Level>)
    requires IsLadder(levels, n) && IsLevelFor(levels, progress, level)
    ensures var k := Met(levels, n, progress); level == if k == 0 then None else Some(levels[k])
  {
    var k := Met(levels, n, progress);
    MetAreFirst(levels, n, n, progress);
    assert k > 0 ==> k in levels;
    if level.Some? {
      assert level.value.level in levels;
    } else {
      assert 1 <= n ==> 1 in levels;
    }
  }

  lemma LadderNext(levels: Levels, n: nat, level: nat, next: Option<Level>)
    requires IsLadder(levels, n) && level <= n && IsNextLevel(levels, level, next)
    ensures next == if level < n then Some(levels[level + 1]) else None
  {
  }

  /** With `k` of the `n` thresholds of a ladder met, the level shown is `min(n, k + 1)`, between thresholds `k` and
      `k + 1` and with the reward of level `k + 1`, and the achievement counts as achieved exactly when `k == n`
      and there are levels at all. */
  lemma LadderShown(levels: Levels, n: nat, user: Option<int>, e: Entry)
    requires IsLadder(levels, n) && Shown(levels, user, e)
    ensures var k := Met(levels, n, Progress(user));
      && e.lvl == (if k < n then k + 1 else n)
      && (e.achieved <==> k == n && n > 0)
      && e.threshold == (if k == 0 then 0 else levels[k].progress)
      && e.nextThreshold == (if k == n then -1 else levels[k + 1].progress)
      && e.nextAmount == (if k == n then -1 else levels[k + 1].rewardAmount)
      && e.nextType == (if k == n then -1 else levels[k + 1].rewardType)
      && e.progress == (if Progress(user) < 0 then 0 else Progress(user))
  {
    var k := Met(levels, n, Progress(user));
    MetAreFirst(levels, n, n, Progress(user));
    assert (n > 0 ==> 1 in levels) && (k > 0 ==> k in levels);
    hide Met, IsLevelFor, IsNextLevel;
    var level, next :| Finds(levels, user, level, next) && e == EntryOf(user, level, next);
    if user.Some? {
      LadderLevel(levels, n, user.value, level);
    }
    LadderNext(levels, n, k, next);
  }

  lemma {:induction false} MetMonotone(levels: Levels, n: nat, p: int, q: int)
    requires p <= q && forall k :: 1 <= k <= n ==> k in levels
    ensures Met(levels, n, p) <= Met(levels, n, q)
  {
    if n > 0 {
      MetMonotone(levels, n - 1, p, q);
    }
  }

  /** More progress never shows a lower level, nor takes an achievement back. */
  lemma ShownMonotone(levels: Levels, n: nat, p: int, q: int, e: Entry, f: Entry)
    requires IsLadder(levels, n) && p <= q && Shown(levels, Some(p), e) && Shown(levels, Some(q), f)
    ensures e.lvl <= f.lvl && (e.achieved ==> f.achieved) && e.progress <= f.progress && e.threshold <= f.threshold
  {
    LadderShown(levels, n, Some(p), e);
    LadderShown(levels, n, Some(q), f);
    MetMonotone(levels, n, p, q);
  }
}
