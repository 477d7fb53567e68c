/**
 Club time: the gift arithmetic of `catalog/data.go` and the time left of `subscription/composers.go`. Times are in
 seconds. The clock is read anew for every subscription: `clock[i]` is the reading for subscription `i`.
 Floating-point divisions are exact here, so floor and ceiling are integers.
 */
module ClubTime {
  import opened Decimal
  import Wire

  datatype Subscription = Subscription(subType: string, start: int, duration: int, active: bool)

  const DAY := 86400
  const GIFT_PERIOD := 2678400

  /** `math.Ceil` of a quotient. */
  function CeilDiv(a: int, b: int): int
    requires b > 0
  {
    -(-a / b)
  }

  function MinZero(x: int): int {
    if x < 0 then 0 else x
  }

  function End(s: Subscription): int {
    s.start + s.duration
  }

  // ---- Past time ----

  /** `calculateRemaining` of the catalog, which adds 32-bit numbers. */
  function CatalogRemaining(s: Subscription, now: int): int {
    Wire.Signed32(End(s) % Wire.TWO32) - now
  }

  /** `GetRemaining` of the subscription service, which adds 64-bit numbers. */
  function GetRemaining(s: Subscription, now: int): int {
    End(s) - now
  }

  /** What one subscription adds at one reading of the clock. */
  type Term = (Subscription, int) -> int

  /** The sum of `term` over the first `n` subscriptions, each at its own reading. */
  function Sum(subs: seq<Subscription>, clock: seq<int>, n: nat, term: Term): int
    requires n <= |subs| && n <= |clock|
  {
    if n == 0 then 0 else Sum(subs, clock, n - 1, term) + term(subs[n - 1], clock[n - 1])
  }

  function CatalogTerm(s: Subscription, now: int): int {
    s.duration - MinZero(CatalogRemaining(s, now))
  }

  function ServiceTerm(s: Subscription, now: int): int {
    s.duration - GetRemaining(s, now)
  }

  function CatalogPast(subs: seq<Subscription>, clock: seq<int>): int
    requires |clock| == |subs|
  {
    Sum(subs, clock, |subs|, CatalogTerm)
  }

  function ServicePast(subs: seq<Subscription>, clock: seq<int>): int
    requires |clock| == |subs|
  {
    Sum(subs, clock, |subs|, ServiceTerm)
  }

  /** The loop of the catalog's `calculatePastTime`. */
  method CalculatePastTimeAsHC(subs: seq<Subscription>, clock: seq<int>) returns (past: int)
    requires |clock| == |subs|
    ensures past == CatalogPast(subs, clock)
  {
    past := 0;
    for i := 0 to |subs|
      invariant past == Sum(subs, clock, i, CatalogTerm)
    {
      past := past + (subs[i].duration - MinZero(CatalogRemaining(subs[i], clock[i])));
    }
  }

  /** The loop of the subscription service's `calculatePastTime`. */
  method CalculatePastTime(subs: seq<Subscription>, clock: seq<int>) returns (past: int)
    requires |clock| == |subs|
    ensures past == ServicePast(subs, clock)
  {
    past := 0;
    for i := 0 to |subs|
      invariant past == Sum(subs, clock, i, ServiceTerm)
    {
      past := past + (subs[i].duration - GetRemaining(subs[i], clock[i]));
    }
  }

  /** Sums compare as their terms do, and are equal only if all the terms are. */
  lemma {:induction false} SumAtMost(subs: seq<Subscription>, c: seq<int>, d: seq<int>, n: nat, f: Term, g: Term)
    requires n <= |subs| && n <= |c| && n <= |d| && forall i :: 0 <= i < n ==> f(subs[i], c[i]) <= g(subs[i], d[i])
    ensures Sum(subs, c, n, f) <= Sum(subs, d, n, g)
    ensures Sum(subs, c, n, f) == Sum(subs, d, n, g) <==>
      forall i :: 0 <= i < n ==> f(subs[i], c[i]) == g(subs[i], d[i])
  {
    if n > 0 {
      SumAtMost(subs, c, d, n - 1, f, g);
    }
  }

  /** The part of a subscription that has passed. */
  function Elapsed(s: Subscription, now: int): int {
    if End(s) <= now then s.duration else now - s.start
  }

  function Duration(s: Subscription, now: int): int {
    s.duration
  }

  function Nothing(s: Subscription, now: int): int {
    0
  }

  /** A subscription the database can hold, started by `now`. */
  predicate Started(s: Subscription, now: int) {
    IsInt32(s.start) && IsInt32(s.duration) && 0 <= s.duration && s.start <= now && 0 <= now
  }

  /** The catalog counts the part that has passed exactly if the end of the subscription fits in 32 bits or has
      passed; otherwise the end wraps and it counts the whole duration. */
  lemma CatalogCountsElapsedIff(s: Subscription, now: int)
    requires Started(s, now)
    ensures CatalogTerm(s, now) == Elapsed(s, now) <==> IsInt32(End(s)) || End(s) <= now
    ensures !IsInt32(End(s)) ==> CatalogTerm(s, now) == s.duration
  {
  }

  ghost predicate AllStarted(subs: seq<Subscription>, clock: seq<int>) {
    |clock| == |subs| && forall i :: 0 <= i < |subs| ==> Started(subs[i], clock[i]) && IsInt32(End(subs[i]))
  }

  /** Past time is the time that has passed in all subscriptions. */
  lemma CatalogPastIsElapsed(subs: seq<Subscription>, clock: seq<int>)
    requires AllStarted(subs, clock)
    ensures CatalogPast(subs, clock) == Sum(subs, clock, |subs|, Elapsed)
  {
    forall i | 0 <= i < |subs| ensures CatalogTerm(subs[i], clock[i]) == Elapsed(subs[i], clock[i]) {
      CatalogCountsElapsedIff(subs[i], clock[i]);
    }
    SumAtMost(subs, clock, clock, |subs|, CatalogTerm, Elapsed);
  }

  function SinceStart(s: Subscription, now: int): int {
    now - s.start
  }

  /** The subscription service counts all the time since each start, expired or not. */
  lemma ServicePastIsSinceStart(subs: seq<Subscription>, clock: seq<int>)
    requires |clock| == |subs|
    ensures ServicePast(subs, clock) == Sum(subs, clock, |subs|, SinceStart)
  {
    SumAtMost(subs, clock, clock, |subs|, ServiceTerm, SinceStart);
  }

  lemma {:induction false} SumZero(subs: seq<Subscription>, clock: seq<int>, n: nat)
    requires n <= |subs| && n <= |clock|
    ensures Sum(subs, clock, n, Nothing) == 0
  {
    if n > 0 {
      SumZero(subs, clock, n - 1);
    }
  }

  /** Past time lies between 0 and the sum of the durations. */
  lemma PastTimeBounds(subs: seq<Subscription>, clock: seq<int>)
    requires AllStarted(subs, clock)
    ensures 0 <= CatalogPast(subs, clock) <= Sum(subs, clock, |subs|, Duration)
  {
    CatalogPastIsElapsed(subs, clock);
    SumZero(subs, clock, |subs|);
    SumAtMost(subs, clock, clock, |subs|, Nothing, Elapsed);
    SumAtMost(subs, clock, clock, |subs|, Elapsed, Duration);
  }

  /** Past time never decreases when the clock is read later. */
  lemma PastTimeMonotone(subs: seq<Subscription>, clock: seq<int>, later: seq<int>)
    requires AllStarted(subs, clock) && |later| == |subs| && forall i :: 0 <= i < |subs| ==> clock[i] <= later[i]
    ensures CatalogPast(subs, clock) <= CatalogPast(subs, later)
  {
    CatalogPastIsElapsed(subs, clock);
    CatalogPastIsElapsed(subs, later);
    SumAtMost(subs, clock, later, |subs|, Elapsed, Elapsed);
  }

  /** The two services, reading the clock alike, agree on past time exactly while no subscription has expired:
      afterwards the subscription service goes on counting. */
  lemma ServicesAgreeIff(subs: seq<Subscription>, clock: seq<int>)
    requires AllStarted(subs, clock)
    ensures CatalogPast(subs, clock) <= ServicePast(subs, clock)
    ensures CatalogPast(subs, clock) == ServicePast(subs, clock) <==>
      forall i :: 0 <= i < |subs| ==> GetRemaining(subs[i], clock[i]) >= 0
  {
    CatalogPastIsElapsed(subs, clock);
    SumAtMost(subs, clock, clock, |subs|, Elapsed, ServiceTerm);
  }

  // ---- Gifts ----

  function TotalGifts(past: int): int {
    CeilDiv(past, GIFT_PERIOD)
  }

  function TimeTillNextClubGift(past: int, totalGifts: int): int {
    totalGifts * GIFT_PERIOD - past
  }

  function RemainingClubGifts(claimed: int, totalGifts: int): int {
    totalGifts - claimed
  }

  /** There are more than `g` gifts exactly when more than `g` whole gift periods have passed. */
  lemma GiftsEarned(past: int, g: int)
    ensures TotalGifts(past) > g <==> past > g * 2678400
  {
  }

  /** The time to the next gift is the time until one more second earns one, and is always less than a gift period. */
  lemma NextGift(past: int)
    ensures var total := TotalGifts(past); var left := TimeTillNextClubGift(past, total);
      && 0 <= left < 2678400
      && TotalGifts(past + left) == total && TotalGifts(past + left + 1) == total + 1
  {
    var total := TotalGifts(past);
    var left := TimeTillNextClubGift(past, total);
    assert past + left == total * GIFT_PERIOD;
  }

  datatype GiftInfo = GiftInfo(daysTillNextGift: int, availableGifts: int, daysAsHC: int)

  /** In `left` seconds all gifts earned so far have just been used up: one second more earns another. */
  predicate EarnsNextIn(past: int, left: int) {
    0 <= left && TotalGifts(past + left) == TotalGifts(past) && TotalGifts(past + left + 1) == TotalGifts(past) + 1
  }

  predicate WholeDays(days: int, t: int) {
    days * 86400 <= t < (days + 1) * 86400
  }

  /** The numbers of `GetClubGiftsComposerData`: whole days to the next gift, from 0 to 30; whole days as a member; and
      more than `g` unclaimed gifts exactly when more than `g` periods beyond the claimed ones have passed. */
  method ClubGifts(subs: seq<Subscription>, claimed: int, clock: seq<int>) returns (info: GiftInfo)
    requires |clock| == |subs|
    ensures exists left :: EarnsNextIn(CatalogPast(subs, clock), left) && WholeDays(info.daysTillNextGift, left)
    ensures 0 <= info.daysTillNextGift <= 30
    ensures WholeDays(info.daysAsHC, CatalogPast(subs, clock))
    ensures Unclaimed(info.availableGifts, CatalogPast(subs, clock), claimed)
  {
    var past := CalculatePastTimeAsHC(subs, clock);
    var totalGifts := TotalGifts(past);
    var timeTillNextClubGift := TimeTillNextClubGift(past, totalGifts);
    NextGift(past);
    assert EarnsNextIn(past, timeTillNextClubGift);
    info := GiftInfo(timeTillNextClubGift / DAY, RemainingClubGifts(claimed, totalGifts), past / DAY);
    forall g ensures Exceeds(info.availableGifts, past, claimed, g) {
      GiftsEarned(past, claimed + g);
    }
  }

  predicate Exceeds(gifts: int, past: int, claimed: int, g: int) {
    gifts > g <==> past > (claimed + g) * 2678400
  }

  ghost predicate Unclaimed(gifts: int, past: int, claimed: int) {
    forall g :: Exceeds(gifts, past, claimed, g)
  }

  /** Read later, days as a member and unclaimed gifts are never fewer. */
  lemma GiftsOverTime(subs: seq<Subscription>, claimed: int, clock: seq<int>, later: seq<int>, a: GiftInfo, b: GiftInfo)
    requires AllStarted(subs, clock) && |later| == |subs| && forall i :: 0 <= i < |subs| ==> clock[i] <= later[i]
    requires WholeDays(a.daysAsHC, CatalogPast(subs, clock))
    requires Unclaimed(a.availableGifts, CatalogPast(subs, clock), claimed)
    requires WholeDays(b.daysAsHC, CatalogPast(subs, later))
    requires Unclaimed(b.availableGifts, CatalogPast(subs, later), claimed)
    ensures 0 <= a.daysAsHC <= b.daysAsHC && -claimed <= a.availableGifts <= b.availableGifts
  {
    PastTimeBounds(subs, clock);
    PastTimeMonotone(subs, clock, later);
    var p, q := CatalogPast(subs, clock), CatalogPast(subs, later);
    assert Exceeds(a.availableGifts, p, claimed, b.availableGifts)
      && Exceeds(b.availableGifts, q, claimed, b.availableGifts);
    assert Exceeds(a.availableGifts, p, claimed, -claimed - 1);
  }

  // ---- Time left ----

  predicate IsValid(s: Subscription, subType: string, now: int) {
    s.subType == subType && s.active && GetRemaining(s, now) > 0
  }

  /** An active subscription of the type that has not ended at `now`. */
  ghost predicate InForce(s: Subscription, subType: string, now: int) {
    s.active && s.subType == subType && now < s.start + s.duration
  }

  /** Subscription `i` is the first that was in force when it was looked at. */
  ghost predicate IsCurrent(subs: seq<Subscription>, subType: string, clock: seq<int>, i: nat)
    requires |clock| == |subs|
  {
    i < |subs| && InForce(subs[i], subType, clock[i]) && forall j :: 0 <= j < i ==> !InForce(subs[j], subType, clock[j])
  }

  ghost predicate NoneValid(subs: seq<Subscription>, subType: string, clock: seq<int>)
    requires |clock| == |subs|
  {
    forall i :: 0 <= i < |subs| ==> !InForce(subs[i], subType, clock[i])
  }

  /** `getCurrentSubscription`: the first valid one. */
  method GetCurrentSubscription(subs: seq<Subscription>, subType: string, clock: seq<int>)
    returns (current: Option<Subscription>)
    requires |clock| == |subs|
    ensures if current.None? then NoneValid(subs, subType, clock)
      else exists i: nat :: IsCurrent(subs, subType, clock, i) && subs[i] == current.value
  {
    for i := 0 to |subs|
      invariant forall j :: 0 <= j < i ==> !InForce(subs[j], subType, clock[j])
    {
      if IsValid(subs[i], subType, clock[i]) {
        assert IsCurrent(subs, subType, clock, i);
        return Some(subs[i]);
      }
    }
    return None;
  }

  /** `calculateDaysAndMinutes`. The minutes always bracket the time left. The days do so exactly unless less than a
      day is left, which is shown as one day. */
  method CalculateDaysAndMinutes(t: int) returns (days: int, minutes: int)
    ensures 60 * (minutes - 1) < t <= 60 * minutes
    ensures WholeDays(days, t) <==> !(0 < t < 86400)
    ensures 0 < t < 86400 ==> days == 1
  {
    days := t / DAY;
    minutes := CeilDiv(t, 60);
    if days < 1 && minutes > 0 {
      days := 1;
    }
  }

  datatype Left = Left(timeRemaining: int, days: int, minutes: int)

  /** `getSubscriptionTime` of the current subscription, which reads the clock once more, at `now`. A day and a minute
      or more are shown exactly while time is left at that reading. */
  method GetSubscriptionTime(subs: seq<Subscription>, subType: string, clock: seq<int>, now: int) returns (left: Left)
    requires |clock| == |subs|
    ensures NoneValid(subs, subType, clock) ==> left == Left(0, 0, 0)
    ensures !NoneValid(subs, subType, clock) ==>
      && (exists i: nat ::
            IsCurrent(subs, subType, clock, i) && left.timeRemaining == subs[i].start + subs[i].duration - now)
      && 60 * (left.minutes - 1) < left.timeRemaining <= 60 * left.minutes
      && (left.days >= 1 && left.minutes >= 1 <==> left.timeRemaining > 0)
  {
    var current := GetCurrentSubscription(subs, subType, clock);
    if current.None? {
      return Left(0, 0, 0);
    }
    var remaining := GetRemaining(current.value, now);
    var days, minutes := CalculateDaysAndMinutes(remaining);
    left := Left(remaining, days, minutes);
  }
}
