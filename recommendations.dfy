/** Class recommendations (`GET /api/ai/recommendations`): the context handed
    to the recommender (the classes with free seats in the next 30 days, the
    customer's past classes and preferred hours, each class's difficulty) and
    the first three recommendations it returns. The recommender itself is a
    parameter. */
module Recommendations {
  import opened Common
  import opened Schema
  import opened Store

  const CustomerNotFound := ApiError(404, "Customer not found")
  const Horizon: int := 30 * DayMs

  // ---------------------------------------------------------------------
  // Candidates and availability

  /** The `where` of the instance query: scheduled, starting in `[now, now + 30 days]`. */
  predicate Candidate(now: int, inst: ClassInstance) {
    inst.status == "scheduled" && now <= inst.scheduledStartTime <= now + Horizon
  }

  /** The instances the `where` selects, in table order. */
  function CandidatePool(instances: seq<ClassInstance>, now: int): (r: seq<ClassInstance>)
    ensures forall i :: 0 <= i < |r| ==> r[i] in instances && Candidate(now, r[i])
    ensures forall inst :: inst in instances && Candidate(now, inst) ==> inst in r
  {
    Filter(instances, (inst: ClassInstance) => Candidate(now, inst))
  }

  /** `take: 20` of the candidates, earliest start first; none left out starts
      before one taken. */
  function Candidates(instances: seq<ClassInstance>, now: int): (r: seq<ClassInstance>)
    ensures |r| == Min(20, |CandidatePool(instances, now)|)
    ensures multiset(r) <= multiset(CandidatePool(instances, now))
    ensures forall i :: 0 <= i < |r| ==> r[i] in instances && Candidate(now, r[i])
    ensures forall i, j :: 0 <= i < j < |r| ==> r[i].scheduledStartTime <= r[j].scheduledStartTime
    ensures forall inst :: inst in instances && Candidate(now, inst) && inst !in r ==>
      forall i :: 0 <= i < |r| ==> r[i].scheduledStartTime <= inst.scheduledStartTime
  {
    var pool := CandidatePool(instances, now);
    var le := ByStart();
    var r := TopBy(pool, le, 20);
    EarliestFirst(instances, now, pool, le, r);
    r
  }

  /** What `Candidates` promises, from the facts `TopBy` gives about the pool. */
  lemma EarliestFirst(instances: seq<ClassInstance>, now: int, pool: seq<ClassInstance>,
                      le: (ClassInstance, ClassInstance) -> bool, r: seq<ClassInstance>)
    requires pool == CandidatePool(instances, now)
    requires forall a, b :: le(a, b) <==> a.scheduledStartTime <= b.scheduledStartTime
    requires SortedBy(r, le) && multiset(r) <= multiset(pool)
    requires forall x :: x in pool && x !in r ==> forall i :: 0 <= i < |r| ==> le(r[i], x)
    ensures forall i :: 0 <= i < |r| ==> r[i] in instances && Candidate(now, r[i])
    ensures forall i, j :: 0 <= i < j < |r| ==> r[i].scheduledStartTime <= r[j].scheduledStartTime
    ensures forall inst :: inst in instances && Candidate(now, inst) && inst !in r ==>
      forall i :: 0 <= i < |r| ==> r[i].scheduledStartTime <= inst.scheduledStartTime
  {
    assert forall i :: 0 <= i < |r| ==> r[i] in multiset(pool);
    assert forall i, j :: 0 <= i < j < |r| ==> le(r[i], r[j]);
  }

  /** Fewer seat-holding bookings than the class's capacity. */
  predicate HasSeat(classes: seq<ClassDef>, bookings: seq<Booking>, inst: ClassInstance) {
    inst.classId < |classes| && SeatsTaken(bookings, inst.id) < classes[inst.classId].maxCapacity
  }

  /** The candidates with a free seat, in candidate order. */
  function Seated(classes: seq<ClassDef>, bookings: seq<Booking>, candidates: seq<ClassInstance>)
    : (r: seq<ClassInstance>)
    ensures IsSubseq(r, candidates)
    ensures forall i :: 0 <= i < |r| ==> HasSeat(classes, bookings, r[i])
    ensures forall i :: 0 <= i < |candidates| && HasSeat(classes, bookings, candidates[i]) ==>
      candidates[i] in r
  {
    var p := (inst: ClassInstance) => HasSeat(classes, bookings, inst);
    FilterIsSubseq(candidates, p);
    Filter(candidates, p)
  }

  /** `.filter(has a seat).slice(0, 10)`: the first ten candidates with a free
      seat, in candidate order. A candidate with a seat is kept exactly when
      fewer than ten candidates before it have one. */
  function AvailableOf(classes: seq<ClassDef>, bookings: seq<Booking>, candidates: seq<ClassInstance>)
    : (r: seq<ClassInstance>)
    ensures |r| == Min(10, |Seated(classes, bookings, candidates)|)
    ensures IsSubseq(r, candidates)
    ensures forall i :: 0 <= i < |r| ==> HasSeat(classes, bookings, r[i])
    ensures forall i :: (0 <= i < |candidates| && HasSeat(classes, bookings, candidates[i]) &&
                         |Seated(classes, bookings, candidates[..i])| < 10) ==> candidates[i] in r
  {
    var open := Seated(classes, bookings, candidates);
    TakeIsSubseq(open, 10);
    SubseqTrans(Take(open, 10), open, candidates);
    FirstTenSeated(classes, bookings, candidates);
    Take(open, 10)
  }

  lemma FirstTenSeated(classes: seq<ClassDef>, bookings: seq<Booking>, candidates: seq<ClassInstance>)
    ensures forall i :: (0 <= i < |candidates| && HasSeat(classes, bookings, candidates[i]) &&
                         |Seated(classes, bookings, candidates[..i])| < 10) ==> candidates[i] in Take(Seated(classes, bookings, candidates), 10)
  {
    var p := (inst: ClassInstance) => HasSeat(classes, bookings, inst);
    forall i | 0 <= i < |candidates| && HasSeat(classes, bookings, candidates[i]) &&
      |Seated(classes, bookings, candidates[..i])| < 10
      ensures candidates[i] in Take(Seated(classes, bookings, candidates), 10)
    {
      FilterPosition(candidates, i, p);
      var k := |Filter(candidates[..i], p)|;
      assert Take(Seated(classes, bookings, candidates), 10)[k] == candidates[i];
    }
  }

  // ---------------------------------------------------------------------
  // Past classes

  /** `self.indexOf(x)`: the first position of `x`, or -1. */
  function IndexOf<T(==)>(s: seq<T>, x: T): (k: int)
    ensures k == -1 <==> x !in s
    ensures k != -1 ==> 0 <= k < |s| && s[k] == x && forall j :: 0 <= j < k ==> s[j] != x
  {
    if s == [] then -1
    else if s[0] == x then 0
    else var k := IndexOf(s[1..], x); if k == -1 then -1 else k + 1
  }

  /** `s.filter((x, i, self) => self.indexOf(x) === i)`, from position `i` on. */
  function KeepFirstFrom<T(==)>(s: seq<T>, i: nat): seq<T>
    requires i <= |s|
    decreases |s| - i
  {
    if i == |s| then []
    else if IndexOf(s, s[i]) == i then [s[i]] + KeepFirstFrom(s, i + 1)
    else KeepFirstFrom(s, i + 1)
  }

  /** `s.filter((x, i, self) => self.indexOf(x) === i)`. */
  function KeepFirst<T(==)>(s: seq<T>): seq<T> {
    KeepFirstFrom(s, 0)
  }

  /** What survives from position `i` on was first seen at `i` or later. */
  lemma {:induction false} KeepFirstMembers<T>(s: seq<T>, i: nat)
    requires i <= |s|
    ensures forall a :: 0 <= a < |KeepFirstFrom(s, i)| ==>
      KeepFirstFrom(s, i)[a] in s && IndexOf(s, KeepFirstFrom(s, i)[a]) >= i
    decreases |s| - i
  {
    if i < |s| {
      KeepFirstMembers(s, i + 1);
      var r := KeepFirstFrom(s, i);
      var rest := KeepFirstFrom(s, i + 1);
      if IndexOf(s, s[i]) == i {
        assert r == [s[i]] + rest;
        assert forall a :: 1 <= a < |r| ==> r[a] == rest[a - 1];
      } else {
        assert r == rest;
      }
    }
  }

  /** What survives keeps the order of first occurrence. */
  lemma {:induction false} KeepFirstOrder<T>(s: seq<T>, i: nat)
    requires i <= |s|
    ensures forall a, b :: 0 <= a < b < |KeepFirstFrom(s, i)| ==>
      IndexOf(s, KeepFirstFrom(s, i)[a]) < IndexOf(s, KeepFirstFrom(s, i)[b])
    decreases |s| - i
  {
    if i < |s| {
      KeepFirstOrder(s, i + 1);
      KeepFirstMembers(s, i + 1);
      var r := KeepFirstFrom(s, i);
      var rest := KeepFirstFrom(s, i + 1);
      if IndexOf(s, s[i]) == i {
        assert r == [s[i]] + rest;
        forall a, b | 0 <= a < b < |r|
          ensures IndexOf(s, r[a]) < IndexOf(s, r[b])
        {
          assert r[b] == rest[b - 1];
          assert IndexOf(s, rest[b - 1]) >= i + 1;
          if a > 0 {
            assert r[a] == rest[a - 1];
          } else {
            assert r[a] == s[i];
          }
        }
      } else {
        assert r == rest;
      }
    }
  }

  /** Every element first seen at `i` or later survives. */
  lemma {:induction false} KeepFirstComplete<T>(s: seq<T>, i: nat)
    requires i <= |s|
    ensures forall k :: i <= k < |s| && IndexOf(s, s[k]) >= i ==> s[k] in KeepFirstFrom(s, i)
    decreases |s| - i
  {
    if i < |s| {
      KeepFirstComplete(s, i + 1);
      var rest := KeepFirstFrom(s, i + 1);
      forall k | i <= k < |s| && IndexOf(s, s[k]) >= i
        ensures s[k] in KeepFirstFrom(s, i)
      {
        var m := IndexOf(s, s[k]);
        if m == i {
          assert s[i] == s[k];
          assert KeepFirstFrom(s, i) == [s[i]] + rest;
        } else {
          assert k > i;
          assert s[k] in rest;
        }
      }
    }
  }

  /** `pastClasses` has no repeats, holds every name of `s`, and keeps the
      names in the order of their first occurrence. */
  lemma KeepFirstSpec<T>(s: seq<T>)
    ensures var r := KeepFirst(s);
      && (forall a, b :: 0 <= a < b < |r| ==> r[a] != r[b])
      && (forall x :: x in s <==> x in r)
      && (forall a, b :: 0 <= a < b < |r| ==> IndexOf(s, r[a]) < IndexOf(s, r[b]))
  {
    KeepFirstMembers(s, 0);
    KeepFirstOrder(s, 0);
    KeepFirstComplete(s, 0);
    var r := KeepFirst(s);
    assert r == KeepFirstFrom(s, 0);
    forall x | x in s
      ensures x in r
    {
      var k := IndexOf(s, x);
      assert s[k] == x;
    }
    forall a, b | 0 <= a < b < |r|
      ensures r[a] != r[b]
    {
      assert IndexOf(s, r[a]) < IndexOf(s, r[b]);
    }
  }

  /** The customer's bookings, of any status, in table order. */
  function OwnBookings(bookings: seq<Booking>, customerId: nat): (r: seq<Booking>)
    ensures forall i :: 0 <= i < |r| ==> r[i] in bookings && r[i].customerId == customerId
    ensures forall b :: b in bookings && b.customerId == customerId ==> b in r
  {
    Filter(bookings, (b: Booking) => b.customerId == customerId)
  }

  /** The customer's ten most recent bookings, of any status. */
  function RecentBookingsOf(bookings: seq<Booking>, customerId: nat): (r: seq<Booking>)
    ensures |r| == Min(10, |OwnBookings(bookings, customerId)|)
    ensures multiset(r) <= multiset(OwnBookings(bookings, customerId))
    ensures forall i :: 0 <= i < |r| ==> r[i] in bookings && r[i].customerId == customerId
    ensures forall i, j :: 0 <= i < j < |r| ==> r[i].bookedAt >= r[j].bookedAt
    ensures forall b :: b in bookings && b.customerId == customerId && b !in r ==>
      forall i :: 0 <= i < |r| ==> b.bookedAt <= r[i].bookedAt
  {
    var own := OwnBookings(bookings, customerId);
    var le := NewestFirst();
    var r := TopBy(own, le, 10);
    assert forall i :: 0 <= i < |r| ==> r[i] in multiset(own);
    assert forall i, j :: 0 <= i < j < |r| ==> le(r[i], r[j]);
    r
  }

  /** The tables the handler joins, with their foreign keys in range. */
  ghost predicate Linked(classes: seq<ClassDef>, instances: seq<ClassInstance>, bookings: seq<Booking>) {
    && InstancesOk(instances, |classes|)
    && forall i :: 0 <= i < |bookings| ==> bookings[i].classInstanceId < |instances|
  }

  /** The class name of each booking, in booking order. */
  function ClassNames(classes: seq<ClassDef>, instances: seq<ClassInstance>, bs: seq<Booking>): (names: seq<string>)
    requires InstancesOk(instances, |classes|)
    requires forall i :: 0 <= i < |bs| ==> bs[i].classInstanceId < |instances|
    ensures |names| == |bs|
    ensures forall i :: 0 <= i < |bs| ==> names[i] == classes[instances[bs[i].classInstanceId].classId].name
  {
    if bs == [] then []
    else [classes[instances[bs[0].classInstanceId].classId].name] + ClassNames(classes, instances, bs[1..])
  }

  /** The hour of day at which each booking's class starts. */
  function StartHours(instances: seq<ClassInstance>, bs: seq<Booking>): (hours: seq<int>)
    requires forall i :: 0 <= i < |bs| ==> bs[i].classInstanceId < |instances|
    ensures |hours| == |bs|
    ensures forall i :: 0 <= i < |bs| ==> hours[i] == HourOfDay(instances[bs[i].classInstanceId].scheduledStartTime)
    ensures forall i :: 0 <= i < |hours| ==> 0 <= hours[i] < 24
  {
    if bs == [] then []
    else [HourOfDay(instances[bs[0].classInstanceId].scheduledStartTime)] + StartHours(instances, bs[1..])
  }

  // ---------------------------------------------------------------------
  // Preferred hours

  /** `(acc[hour] || 0) + 1` folded over the hours: how often `h` occurs. */
  function HourCount(hours: seq<int>, h: int): (n: nat)
    ensures n <= |hours|
    ensures n > 0 <==> h in hours
  {
    var p := (x: int) => x == h;
    FoundCounts(hours, p, h);
    Count(hours, p)
  }

  lemma FoundCounts(hours: seq<int>, p: int -> bool, h: int)
    requires forall x :: p(x) <==> x == h
    ensures Count(hours, p) > 0 <==> h in hours
  {
    if h in hours {
      var k :| 0 <= k < |hours| && hours[k] == h;
      assert hours[k] in Filter(hours, p);
    }
    if Count(hours, p) > 0 {
      var f := Filter(hours, p);
      assert f[0] in hours && p(f[0]);
      assert f[0] == h;
    }
  }

  /** The record's keys in `Object.entries` order: the hours that occur,
      ascending. */
  function PresentHours(hours: seq<int>): (r: seq<int>)
    ensures forall i :: 0 <= i < |r| ==> r[i] in hours
    ensures forall h :: h in hours && 0 <= h < 24 ==> h in r
    ensures Increasing(r)
  {
    var all := seq(24, i => i);
    var p := (h: int) => h in hours;
    EveryHourListed(all, p);
    FilterIncreasing(all, p);
    Filter(all, p)
  }

  lemma EveryHourListed(all: seq<int>, p: int -> bool)
    requires all == seq(24, i => i)
    ensures forall h :: 0 <= h < 24 && p(h) ==> h in Filter(all, p)
  {
    forall h | 0 <= h < 24 && p(h)
      ensures h in Filter(all, p)
    {
      assert all[h] == h;
    }
  }

  /** The order the stable sort by count leaves: higher count first, and on
      equal counts the lower hour (the earlier key) first. */
  function MoreFrequent(hours: seq<int>): (le: (int, int) -> bool)
    ensures TotalPreorder(le)
    ensures forall a, b :: le(a, b) <==>
      HourCount(hours, a) > HourCount(hours, b) || (HourCount(hours, a) == HourCount(hours, b) && a <= b)
  {
    (a: int, b: int) => HourCount(hours, a) > HourCount(hours, b) || (HourCount(hours, a) == HourCount(hours, b) && a <= b)
  }

  /** `Object.entries(...).sort(by count desc).slice(0, 3)`: at most three
      hours of the bookings, most frequent first; no hour left out is more
      frequent than one kept, or as frequent and earlier; among kept hours of
      equal count the earlier comes first. */
  function TopHours(hours: seq<int>): (r: seq<int>)
    requires forall i :: 0 <= i < |hours| ==> 0 <= hours[i] < 24
    ensures |r| == Min(3, |PresentHours(hours)|)
    ensures multiset(r) <= multiset(PresentHours(hours))
    ensures Distinct(r)
    ensures hours != [] ==> r != []
    ensures forall i :: 0 <= i < |r| ==> r[i] in hours
    ensures forall i, j :: 0 <= i < j < |r| ==> HourCount(hours, r[i]) >= HourCount(hours, r[j])
    ensures forall i, j :: 0 <= i < j < |r| && HourCount(hours, r[i]) == HourCount(hours, r[j]) ==> r[i] < r[j]
    ensures forall h :: h in hours && h !in r ==> forall i :: 0 <= i < |r| ==>
      HourCount(hours, r[i]) > HourCount(hours, h) || (HourCount(hours, r[i]) == HourCount(hours, h) && r[i] <= h)
  {
    var present := PresentHours(hours);
    var le := MoreFrequent(hours);
    var r := TopBy(present, le, 3);
    TopHoursRanked(hours, present, le, r);
    IncreasingDistinct(present);
    SubMultisetDistinct(r, present);
    TiesAscending(hours, r);
    r
  }

  /** What `TopHours` promises, from the facts `TopBy` gives about the
      present hours. */
  lemma TopHoursRanked(hours: seq<int>, present: seq<int>, le: (int, int) -> bool, r: seq<int>)
    requires forall a, b :: le(a, b) <==>
      HourCount(hours, a) > HourCount(hours, b) || (HourCount(hours, a) == HourCount(hours, b) && a <= b)
    requires forall i :: 0 <= i < |present| ==> present[i] in hours
    requires forall h :: h in hours && 0 <= h < 24 ==> h in present
    requires forall i :: 0 <= i < |hours| ==> 0 <= hours[i] < 24
    requires |r| == Min(3, |present|) && SortedBy(r, le) && multiset(r) <= multiset(present)
    requires forall x :: x in present && x !in r ==> forall i :: 0 <= i < |r| ==> le(r[i], x)
    ensures hours != [] ==> r != []
    ensures forall i :: 0 <= i < |r| ==> r[i] in hours
    ensures forall i, j :: 0 <= i < j < |r| ==> HourCount(hours, r[i]) >= HourCount(hours, r[j])
    ensures forall i, j :: 0 <= i < j < |r| && HourCount(hours, r[i]) == HourCount(hours, r[j]) ==> r[i] <= r[j]
    ensures forall h :: h in hours && h !in r ==> forall i :: 0 <= i < |r| ==>
      HourCount(hours, r[i]) > HourCount(hours, h) || (HourCount(hours, r[i]) == HourCount(hours, h) && r[i] <= h)
  {
    assert hours != [] ==> hours[0] in present;
    assert forall i :: 0 <= i < |r| ==> r[i] in multiset(present);
    assert forall i, j :: 0 <= i < j < |r| ==> le(r[i], r[j]);
    assert forall h :: h in hours && h !in r ==> h in present;
  }

  lemma TiesAscending(hours: seq<int>, r: seq<int>)
    requires Distinct(r)
    requires forall i, j :: 0 <= i < j < |r| && HourCount(hours, r[i]) == HourCount(hours, r[j]) ==> r[i] <= r[j]
    ensures forall i, j :: 0 <= i < j < |r| && HourCount(hours, r[i]) == HourCount(hours, r[j]) ==> r[i] < r[j]
  { }

  lemma IncreasingDistinct(s: seq<int>)
    requires Increasing(s)
    ensures Distinct(s)
  { }

  /** `${hour}:00`. */
  function HourLabel(h: nat): (s: string)
    ensures s == NatToString(h) + ":00"
  {
    NatToString(h) + ":00"
  }

  function Labels(hs: seq<int>): (r: seq<string>)
    requires forall i :: 0 <= i < |hs| ==> hs[i] >= 0
    ensures |r| == |hs|
    ensures forall i :: 0 <= i < |hs| ==> r[i] == HourLabel(hs[i])
  {
    if hs == [] then [] else [HourLabel(hs[0])] + Labels(hs[1..])
  }

  const DefaultTimes: seq<string> := ["09:00", "18:00"]

  /** `preferredTimes`: the labels of the top hours, or the defaults when the
      customer has no booking. */
  function PreferredTimes(hours: seq<int>): (r: seq<string>)
    requires forall i :: 0 <= i < |hours| ==> 0 <= hours[i] < 24
    ensures hours == [] <==> r == DefaultTimes
    ensures hours != [] ==> 1 <= |r| <= 3 && r == Labels(TopHours(hours))
  {
    var top := TopHours(hours);
    if top == [] then DefaultTimes
    else
      var r := Labels(top);
      assert r[0] != DefaultTimes[0] by {
        assert top[0] in hours;
        LabelNotPadded(top[0]);
      }
      r
  }

  /** Only hour 9 could give "09:00", and it gives "9:00". */
  lemma LabelNotPadded(h: nat)
    requires h < 100
    ensures HourLabel(h) != "09:00"
  {
    if h >= 10 {
      var s := NatToString(h);
      assert s == NatToString(h / 10) + [DigitChar(h % 10)];
      assert NatToString(h / 10) == [DigitChar(h / 10)];
      assert HourLabel(h)[0] == DigitChar(h / 10);
      assert DigitValue(HourLabel(h)[0]) >= 1;
    } else {
      assert |HourLabel(h)| == 4;
    }
  }

  // ---------------------------------------------------------------------
  // Difficulty

  /** "beginner" when the lower-cased name contains "beginner", else
      "advanced" when it contains "advanced", else "intermediate". */
  function Difficulty(name: string): (d: string)
    ensures d in {"beginner", "advanced", "intermediate"}
    ensures d == "beginner" <==> Contains(ToLower(name), "beginner")
    ensures d == "advanced" <==> !Contains(ToLower(name), "beginner") && Contains(ToLower(name), "advanced")
  {
    var lower := ToLower(name);
    if Contains(lower, "beginner") then "beginner"
    else if Contains(lower, "advanced") then "advanced"
    else "intermediate"
  }

  /** Upper-casing a name does not change its difficulty. */
  lemma DifficultyIgnoresCase(name: string)
    ensures Difficulty(ToUpper(name)) == Difficulty(name)
  {
    assert ToLower(ToUpper(name)) == ToLower(name) by {
      forall i | 0 <= i < |name|
        ensures ToLowerChar(ToUpperChar(name[i])) == ToLowerChar(name[i])
      {
      }
    }
  }

  // ---------------------------------------------------------------------
  // The handler

  datatype ClassForAi = ClassForAi(name: string, instructorName: string, scheduledStartTime: int, difficulty: string)

  datatype Context = Context(
    customerName: string, pastClasses: seq<string>, totalClasses: int,
    preferredTimes: seq<string>, availableClasses: seq<ClassForAi>)

  datatype Recommendation = Recommendation(className: string, reason: string)

  datatype AvailableClass = AvailableClass(
    id: nat, className: string, instructorName: string, scheduledStartTime: int, priceCredits: int)

  datatype Reply = Reply(recommendations: seq<Recommendation>, availableClasses: seq<AvailableClass>)

  function ForAi(classes: seq<ClassDef>, inst: ClassInstance): (c: ClassForAi)
    requires inst.classId < |classes|
    ensures c.name == classes[inst.classId].name && c.difficulty == Difficulty(classes[inst.classId].name)
  {
    var k := classes[inst.classId];
    ClassForAi(k.name, k.instructorName, inst.scheduledStartTime, Difficulty(k.name))
  }

  function Listed(classes: seq<ClassDef>, inst: ClassInstance): (a: AvailableClass)
    requires inst.classId < |classes|
    ensures a.id == inst.id && a.className == classes[inst.classId].name
    ensures a.priceCredits == classes[inst.classId].priceCredits
  {
    var k := classes[inst.classId];
    AvailableClass(inst.id, k.name, k.instructorName, inst.scheduledStartTime, k.priceCredits)
  }

  function ForAiAll(classes: seq<ClassDef>, insts: seq<ClassInstance>): (r: seq<ClassForAi>)
    requires forall i :: 0 <= i < |insts| ==> insts[i].classId < |classes|
    ensures |r| == |insts|
    ensures forall i :: 0 <= i < |insts| ==> r[i] == ForAi(classes, insts[i])
  {
    seq(|insts|, i requires 0 <= i < |insts| => ForAi(classes, insts[i]))
  }

  function ListedAll(classes: seq<ClassDef>, insts: seq<ClassInstance>): (r: seq<AvailableClass>)
    requires forall i :: 0 <= i < |insts| ==> insts[i].classId < |classes|
    ensures |r| == |insts|
    ensures forall i :: 0 <= i < |insts| ==> r[i] == Listed(classes, insts[i])
  {
    if insts == [] then [] else [Listed(classes, insts[0])] + ListedAll(classes, insts[1..])
  }

  /** The open classes of the next 30 days, as the handler computes them. */
  function OpenClasses(classes: seq<ClassDef>, instances: seq<ClassInstance>, bookings: seq<Booking>, now: int)
    : (r: seq<ClassInstance>)
    requires InstancesOk(instances, |classes|)
    ensures |r| == Min(10, |Seated(classes, bookings, Candidates(instances, now))|)
    ensures forall i :: 0 <= i < |r| ==>
      r[i] in instances && Candidate(now, r[i]) && HasSeat(classes, bookings, r[i]) && r[i].classId < |classes|
    ensures IsSubseq(r, Candidates(instances, now))
    ensures var cs := Candidates(instances, now);
      forall i :: (0 <= i < |cs| && HasSeat(classes, bookings, cs[i]) &&
                   |Seated(classes, bookings, cs[..i])| < 10) ==> cs[i] in r
  {
    var candidates := Candidates(instances, now);
    var r := AvailableOf(classes, bookings, candidates);
    SubseqMembers(r, candidates);
    r
  }

  /** The context handed to the recommender for customer `c`. */
  function ContextOf(users: seq<User>, customers: seq<Customer>, classes: seq<ClassDef>,
                     instances: seq<ClassInstance>, bookings: seq<Booking>, c: nat, now: int): (ctx: Context)
    requires CustomersOk(customers, |users|) && Linked(classes, instances, bookings) && c < |customers|
    ensures var recent := RecentBookingsOf(bookings, c);
      && ctx.pastClasses == KeepFirst(ClassNames(classes, instances, recent))
      && ctx.preferredTimes == PreferredTimes(StartHours(instances, recent))
      && ctx.totalClasses == customers[c].totalClassesAttended
      && ctx.availableClasses == ForAiAll(classes, OpenClasses(classes, instances, bookings, now))
    ensures var u := users[customers[c].userId]; ctx.customerName == u.firstName + " " + u.lastName
  {
    var recent := RecentBookingsOf(bookings, c);
    var u := users[customers[c].userId];
    Context(u.firstName + " " + u.lastName,
            KeepFirst(ClassNames(classes, instances, recent)),
            customers[c].totalClassesAttended,
            PreferredTimes(StartHours(instances, recent)),
            ForAiAll(classes, OpenClasses(classes, instances, bookings, now)))
  }

  /** `GET /api/ai/recommendations` for user `userId`, with `recommend`
      standing for the language-model call. */
  function GetRecommendations(users: seq<User>, customers: seq<Customer>, classes: seq<ClassDef>,
                              instances: seq<ClassInstance>, bookings: seq<Booking>, userId: nat, now: int,
                              recommend: Context -> seq<Recommendation>): (r: Result<Reply>)
    requires CustomersOk(customers, |users|) && Linked(classes, instances, bookings)
    ensures FindCustomer(customers, userId).None? <==> r == Err(CustomerNotFound)
    ensures r.Ok? ==>
      var ctx := ContextOf(users, customers, classes, instances, bookings, FindCustomer(customers, userId).value, now);
      && |r.value.recommendations| == Min(3, |recommend(ctx)|)
      && (forall i :: 0 <= i < |r.value.recommendations| ==> r.value.recommendations[i] == recommend(ctx)[i])
      && r.value.availableClasses == ListedAll(classes, OpenClasses(classes, instances, bookings, now))
  {
    match FindCustomer(customers, userId)
    case None => Err(CustomerNotFound)
    case Some(c) =>
      var ctx := ContextOf(users, customers, classes, instances, bookings, c, now);
      Ok(Reply(Take(recommend(ctx), 3), ListedAll(classes, OpenClasses(classes, instances, bookings, now))))
  }
}
