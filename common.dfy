/** Shared vocabulary: optional values, API errors, integer time, and the
    sequence operations (filter, take, order by) that the database queries
    of the route handlers are built from. */
module Common {

  datatype Option<+T> = None | Some(value: T)

  /** An HTTP error response: status code and the `error` message. */
  datatype ApiError = ApiError(status: int, message: string)

  /** What a route handler answers: a value, or an error response. */
  datatype Result<+T> = Ok(value: T) | Err(error: ApiError)

  // ---------------------------------------------------------------------
  // Time: milliseconds since the epoch, one fixed time zone, no DST.

  const SecondMs: int := 1000
  const MinuteMs: int := 60 * SecondMs
  const HourMs: int := 60 * MinuteMs
  const DayMs: int := 24 * HourMs
  /** 1970-01-01, day 0, was a Thursday (Sunday = 0). */
  const EpochWeekday: int := 4

  /** Midnight of the calendar day holding `t` (JavaScript `setHours(0, 0, 0, 0)`). */
  function DayStart(t: int): (r: int)
    ensures r <= t < r + DayMs
    ensures r % DayMs == 0
  {
    t - t % DayMs
  }

  /** The weekday of `t`, 0 = Sunday (JavaScript `getDay`). */
  function Weekday(t: int): (w: int)
    ensures 0 <= w < 7
  {
    (t / DayMs + EpochWeekday) % 7
  }

  /** 1970-01-01 (day 0) is a Thursday and 1970-01-04 a Sunday; Sundays are
      the days whose number is 3 modulo 7. */
  lemma WeekdayAnchors(t: int)
    ensures Weekday(0) == 4 && Weekday(3 * DayMs) == 0
    ensures Weekday(t) == 0 <==> (t / DayMs) % 7 == 3
  {
  }

  /** The hour of the day of `t` (JavaScript `getHours`). */
  function HourOfDay(t: int): (h: int)
    ensures 0 <= h < 24
    ensures DayStart(t) + h * HourMs <= t < DayStart(t) + (h + 1) * HourMs
  {
    (t % DayMs) / HourMs
  }

  /** Every moment of a day starting at `d` has `d` as its day start. */
  lemma DayStartWithin(d: int, x: int)
    requires d % DayMs == 0 && 0 <= x < DayMs
    ensures DayStart(d + x) == d
    ensures (d + x) / DayMs == d / DayMs
  {
    assert d == (d / DayMs) * DayMs;
  }

  /** The next day starts one day later. */
  lemma NextDayStart(d: int)
    requires d % DayMs == 0
    ensures (d + DayMs) % DayMs == 0
  {
  }

  /** The last millisecond of a day, 23:59:59.999. */
  lemma LastMsOfDay(d: int)
    requires d % DayMs == 0
    ensures (d + DayMs - 1) % DayMs == DayMs - 1
    ensures DayStart(d + DayMs - 1) == d
  {
    DayStartWithin(d, DayMs - 1);
  }

  /** A last millisecond at or before `d + r`, with `r` short of the day's last
      millisecond, lies before the day starting at `d`. */
  lemma LastMsBefore(x: int, d: int, r: int)
    requires x % DayMs == DayMs - 1 && d % DayMs == 0 && 0 <= r < DayMs - 1 && x <= d + r
    ensures x < d
  {
    assert x == (x / DayMs) * DayMs + DayMs - 1;
    assert d == (d / DayMs) * DayMs;
  }

  lemma DivPlusMultiple(a: int, k: int)
    requires 0 <= a < DayMs
    ensures (a + k * DayMs) / DayMs == k
  {
  }

  /** Moving one day forward moves the weekday forward by one. */
  lemma WeekdayNextDay(t: int)
    ensures Weekday(t + DayMs) == (Weekday(t) + 1) % 7
  {
    assert (t + DayMs) / DayMs == t / DayMs + 1;
  }

  // ---------------------------------------------------------------------
  // Sequences

  function Min(a: int, b: int): int { if a <= b then a else b }

  /** `a` is `b` with some elements left out, order kept. */
  predicate IsSubseq<T(==)>(a: seq<T>, b: seq<T>)
    decreases |b|
  {
    if a == [] then true
    else if b == [] then false
    else if a[0] == b[0] then IsSubseq(a[1..], b[1..])
    else IsSubseq(a, b[1..])
  }

  /** Being a subsequence is transitive. */
  lemma {:induction false} SubseqTrans<T>(a: seq<T>, b: seq<T>, c: seq<T>)
    requires IsSubseq(a, b) && IsSubseq(b, c)
    ensures IsSubseq(a, c)
    decreases |c|
  {
    if a != [] {
      if b[0] == c[0] {
        if a[0] == b[0] {
          SubseqTrans(a[1..], b[1..], c[1..]);
        } else {
          SubseqTrans(a, b[1..], c[1..]);
          SubseqOfTail(a, c);
        }
      } else {
        SubseqTrans(a, b, c[1..]);
        SubseqOfTail(a, c);
      }
    }
  }

  /** Every element of a subsequence is an element of the whole. */
  lemma {:induction false} SubseqMembers<T>(a: seq<T>, b: seq<T>)
    requires IsSubseq(a, b)
    ensures forall i :: 0 <= i < |a| ==> a[i] in b
    decreases |b|
  {
    if a != [] {
      if a[0] == b[0] {
        SubseqMembers(a[1..], b[1..]);
        assert forall i :: 1 <= i < |a| ==> a[i] == a[1..][i - 1];
      } else {
        SubseqMembers(a, b[1..]);
      }
    }
  }

  /** `Array.prototype.filter`, and a `where` clause of a query. */
  function Filter<T>(s: seq<T>, p: T -> bool): (r: seq<T>)
    ensures |r| <= |s|
    ensures forall i :: 0 <= i < |r| ==> r[i] in s && p(r[i])
    ensures forall i :: 0 <= i < |s| && p(s[i]) ==> s[i] in r
  {
    if s == [] then []
    else if p(s[0]) then [s[0]] + Filter(s[1..], p)
    else Filter(s[1..], p)
  }

  /** The number of elements satisfying `p` (a `count` query). */
  function Count<T>(s: seq<T>, p: T -> bool): (n: nat)
    ensures n <= |s|
  {
    |Filter(s, p)|
  }

  /** A filter that keeps every element keeps the sequence. */
  lemma {:induction false} FilterAll<T>(s: seq<T>, p: T -> bool)
    requires forall i :: 0 <= i < |s| ==> p(s[i])
    ensures Filter(s, p) == s
  {
    if s != [] {
      FilterAll(s[1..], p);
      assert s == [s[0]] + s[1..];
    }
  }

  lemma {:induction false} FilterIsSubseq<T>(s: seq<T>, p: T -> bool)
    ensures IsSubseq(Filter(s, p), s)
  {
    if s != [] {
      FilterIsSubseq(s[1..], p);
      if !p(s[0]) {
        SubseqOfTail(Filter(s[1..], p), s);
      }
    }
  }

  /** A subsequence of the tail is a subsequence of the whole. */
  lemma {:induction false} SubseqOfTail<T>(a: seq<T>, b: seq<T>)
    requires b != [] && IsSubseq(a, b[1..])
    ensures IsSubseq(a, b)
    decreases |b|, |a|
  {
    if a != [] && a[0] == b[0] {
      DropHeadSubseq(a, b[1..]);
    }
  }

  /** Leaving out the first element of a subsequence keeps it a subsequence. */
  lemma {:induction false} DropHeadSubseq<T>(a: seq<T>, c: seq<T>)
    requires a != [] && IsSubseq(a, c)
    ensures IsSubseq(a[1..], c)
    decreases |c|, |a|
  {
    if a[0] == c[0] {
      SubseqOfTail(a[1..], c);
    } else {
      DropHeadSubseq(a, c[1..]);
      SubseqOfTail(a[1..], c);
    }
  }

  lemma {:induction false} FilterAppend<T>(s: seq<T>, x: T, p: T -> bool)
    ensures Filter(s + [x], p) == Filter(s, p) + (if p(x) then [x] else [])
  {
    if s == [] {
      assert s + [x] == [x];
    } else {
      assert (s + [x])[1..] == s[1..] + [x];
      FilterAppend(s[1..], x, p);
    }
  }

  lemma {:induction false} FilterComposes<T>(s: seq<T>, p: T -> bool, q: T -> bool)
    ensures Filter(Filter(s, p), q) == Filter(s, x => p(x) && q(x))
  {
    if s != [] {
      FilterComposes(s[1..], p, q);
    }
  }

  /** A weaker condition counts at least as many elements. */
  lemma {:induction false} CountMono<T>(s: seq<T>, p: T -> bool, q: T -> bool)
    requires forall i :: 0 <= i < |s| ==> p(s[i]) ==> q(s[i])
    ensures Count(s, p) <= Count(s, q)
  {
    if s != [] {
      CountMono(s[1..], p, q);
    }
  }

  /** A permutation has the same elements. */
  lemma PermutationMembers<T>(a: seq<T>, b: seq<T>)
    requires multiset(a) == multiset(b)
    ensures forall i :: 0 <= i < |a| ==> a[i] in b
    ensures forall i :: 0 <= i < |b| ==> b[i] in a
  {
    forall i | 0 <= i < |a|
      ensures a[i] in b
    {
      assert a[i] in multiset(b);
    }
    forall i | 0 <= i < |b|
      ensures b[i] in a
    {
      assert b[i] in multiset(a);
    }
  }

  /** Nothing passes a filter that rejects every element. */
  lemma FilterNone<T>(s: seq<T>, p: T -> bool)
    requires forall i :: 0 <= i < |s| ==> !p(s[i])
    ensures Filter(s, p) == []
  {
  }

  lemma {:induction false} FilterConcat<T>(a: seq<T>, b: seq<T>, p: T -> bool)
    ensures Filter(a + b, p) == Filter(a, p) + Filter(b, p)
    decreases |a|
  {
    if a == [] {
      assert a + b == b;
    } else {
      assert (a + b)[1..] == a[1..] + b;
      FilterConcat(a[1..], b, p);
    }
  }

  /** An element that passes lands in the filtered sequence right after
      what passes before it. */
  lemma FilterPosition<T>(s: seq<T>, i: nat, p: T -> bool)
    requires i < |s| && p(s[i])
    ensures |Filter(s[..i], p)| < |Filter(s, p)|
    ensures Filter(s, p)[|Filter(s[..i], p)|] == s[i]
  {
    assert s == s[..i] + ([s[i]] + s[i + 1..]);
    FilterConcat(s[..i], [s[i]] + s[i + 1..], p);
    assert ([s[i]] + s[i + 1..])[1..] == s[i + 1..];
  }

  predicate Increasing(s: seq<int>) {
    forall i, j :: 0 <= i < j < |s| ==> s[i] < s[j]
  }

  lemma AboveHead(s: seq<int>, p: int -> bool)
    requires s != [] && Increasing(s)
    ensures forall k :: 0 <= k < |Filter(s[1..], p)| ==> s[0] < Filter(s[1..], p)[k]
  {
    var rest := Filter(s[1..], p);
    forall k | 0 <= k < |rest|
      ensures s[0] < rest[k]
    {
      assert rest[k] in s[1..];
      var m :| 0 <= m < |s[1..]| && s[1..][m] == rest[k];
      assert s[m + 1] == rest[k];
    }
  }

  /** Filtering keeps a strictly increasing sequence strictly increasing. */
  lemma {:induction false} FilterIncreasing(s: seq<int>, p: int -> bool)
    requires Increasing(s)
    ensures Increasing(Filter(s, p))
    decreases |s|
  {
    if s != [] {
      assert Increasing(s[1..]) by {
        forall i, j | 0 <= i < j < |s[1..]|
          ensures s[1..][i] < s[1..][j]
        {
          assert s[1..][i] == s[i + 1] && s[1..][j] == s[j + 1];
        }
      }
      FilterIncreasing(s[1..], p);
      if p(s[0]) {
        var rest := Filter(s[1..], p);
        AboveHead(s, p);
        var r := [s[0]] + rest;
        forall i, j | 0 <= i < j < |r|
          ensures r[i] < r[j]
        {
          assert r[j] == rest[j - 1];
          if i > 0 {
            assert r[i] == rest[i - 1];
          }
        }
        assert Filter(s, p) == r;
      }
    }
  }

  /** No element occurs twice. */
  predicate Distinct<T(==)>(s: seq<T>) {
    forall i, j :: 0 <= i < j < |s| ==> s[i] != s[j]
  }

  lemma {:induction false} DistinctOnce<T>(s: seq<T>, x: T)
    requires Distinct(s)
    ensures multiset(s)[x] <= 1
    decreases |s|
  {
    if s != [] {
      assert s == [s[0]] + s[1..];
      assert Distinct(s[1..]) by {
        forall i, j | 0 <= i < j < |s[1..]|
          ensures s[1..][i] != s[1..][j]
        {
          assert s[1..][i] == s[i + 1] && s[1..][j] == s[j + 1];
        }
      }
      DistinctOnce(s[1..], x);
      if x == s[0] {
        forall k | 0 <= k < |s[1..]|
          ensures s[1..][k] != x
        {
          assert s[1..][k] == s[k + 1];
        }
        assert x !in s[1..];
      }
    }
  }

  /** Part of a sequence without repeats (as a multiset) has no repeats. */
  lemma SubMultisetDistinct<T>(r: seq<T>, s: seq<T>)
    requires Distinct(s) && multiset(r) <= multiset(s)
    ensures Distinct(r)
  {
    forall i, j | 0 <= i < j < |r|
      ensures r[i] != r[j]
    {
      if r[i] == r[j] {
        var x := r[i];
        assert r == r[..j] + [r[j]] + r[j + 1..];
        assert r[..j][i] == x;
        assert multiset(r[..j])[x] >= 1;
        assert multiset(r)[x] >= 2;
        DistinctOnce(s, x);
        assert false;
      }
    }
  }

  /** `take: n` of a query, `slice(0, n)` of an array. */
  function Take<T>(s: seq<T>, n: nat): (r: seq<T>)
    ensures |r| == Min(n, |s|)
    ensures forall i :: 0 <= i < |r| ==> r[i] == s[i]
  {
    if n <= |s| then s[..n] else s
  }

  lemma {:induction false} PrefixIsSubseq<T>(s: seq<T>, n: nat)
    requires n <= |s|
    ensures IsSubseq(s[..n], s)
    decreases |s|
  {
    if n == 0 {
    } else {
      PrefixIsSubseq(s[1..], n - 1);
      assert s[..n][1..] == s[1..][..n - 1];
    }
  }

  /** `take: n` keeps a prefix, hence a subsequence. */
  lemma TakeIsSubseq<T>(s: seq<T>, n: nat)
    ensures IsSubseq(Take(s, n), s)
  {
    if n <= |s| {
      PrefixIsSubseq(s, n);
    } else {
      PrefixIsSubseq(s, |s|);
      assert s[..|s|] == s;
    }
  }

  // ---------------------------------------------------------------------
  // Ordering (an `orderBy` clause, `Array.prototype.sort`)

  ghost predicate TotalPreorder<T(!new)>(le: (T, T) -> bool) {
    && (forall a, b :: le(a, b) || le(b, a))
    && (forall a, b, c :: le(a, b) && le(b, c) ==> le(a, c))
  }

  predicate SortedBy<T>(s: seq<T>, le: (T, T) -> bool) {
    forall i, j :: 0 <= i < j < |s| ==> le(s[i], s[j])
  }

  function InsertBy<T(!new)>(x: T, s: seq<T>, le: (T, T) -> bool): (r: seq<T>)
    requires TotalPreorder(le) && SortedBy(s, le)
    ensures |r| == |s| + 1
    ensures multiset(r) == multiset(s) + multiset{x}
    ensures SortedBy(r, le)
  {
    if s == [] then [x]
    else if le(x, s[0]) then
      assert forall j :: 0 < j < |s| ==> le(s[0], s[j]);
      [x] + s
    else
      var t := InsertBy(x, s[1..], le);
      assert s == [s[0]] + s[1..];
      HeadBelowAll(s[0], x, s[1..], t, le);
      [s[0]] + t
  }

  lemma HeadBelowAll<T(!new)>(h: T, x: T, s: seq<T>, t: seq<T>, le: (T, T) -> bool)
    requires TotalPreorder(le) && !le(x, h)
    requires forall j :: 0 <= j < |s| ==> le(h, s[j])
    requires multiset(t) == multiset(s) + multiset{x}
    requires SortedBy(t, le)
    ensures SortedBy([h] + t, le)
  {
    assert le(h, x);
    forall j | 0 <= j < |t|
      ensures le(h, t[j])
    {
      assert t[j] in multiset(t);
      if t[j] != x {
        assert t[j] in multiset(s);
        var k :| 0 <= k < |s| && s[k] == t[j];
      }
    }
  }

  /** Insertion sort; `r` is a permutation of `s` ordered by `le`. */
  function SortBy<T(!new)>(s: seq<T>, le: (T, T) -> bool): (r: seq<T>)
    requires TotalPreorder(le)
    ensures |r| == |s|
    ensures multiset(r) == multiset(s)
    ensures SortedBy(r, le)
  {
    if s == [] then []
    else
      assert s == [s[0]] + s[1..];
      InsertBy(s[0], SortBy(s[1..], le), le)
  }

  /** Filtering keeps the order. */
  lemma {:induction false} FilterSorted<T>(s: seq<T>, p: T -> bool, le: (T, T) -> bool)
    requires SortedBy(s, le)
    ensures SortedBy(Filter(s, p), le)
  {
    if s != [] {
      FilterSorted(s[1..], p, le);
      var rest := Filter(s[1..], p);
      forall j | 0 <= j < |rest|
        ensures le(s[0], rest[j])
      {
        var k :| 0 <= k < |s[1..]| && s[1..][k] == rest[j];
        assert s[1 + k] == rest[j];
      }
    }
  }

  /** A prefix of a sorted sequence is sorted. */
  lemma TakeSorted<T>(s: seq<T>, n: nat, le: (T, T) -> bool)
    requires SortedBy(s, le)
    ensures SortedBy(Take(s, n), le)
  {
  }

  /** Every element kept by `take` ranks at least as high as every element dropped. */
  lemma {:induction false} TakeKeepsBest<T>(s: seq<T>, n: nat, le: (T, T) -> bool)
    requires SortedBy(s, le)
    ensures forall i, j :: 0 <= i < Min(n, |s|) <= j < |s| ==> le(s[i], s[j])
  {
  }

  /** `orderBy` then `take: n`: the first `n` elements by `le`. */
  function TopBy<T(!new)>(s: seq<T>, le: (T, T) -> bool, n: nat): (r: seq<T>)
    requires TotalPreorder(le)
    ensures |r| == Min(n, |s|)
    ensures SortedBy(r, le)
    ensures multiset(r) <= multiset(s)
    ensures forall x :: x in s && x !in r ==> forall i :: 0 <= i < |r| ==> le(r[i], x)
  {
    var sorted := SortBy(s, le);
    var r := Take(sorted, n);
    TakeSorted(sorted, n, le);
    TakeKeepsBest(sorted, n, le);
    assert sorted == r + sorted[|r|..];
    assert multiset(sorted) == multiset(r) + multiset(sorted[|r|..]);
    forall x | x in s && x !in r
      ensures forall i :: 0 <= i < |r| ==> le(r[i], x)
    {
      assert x in multiset(sorted);
      var j :| 0 <= j < |sorted| && sorted[j] == x;
      assert j >= |r|;
    }
    r
  }

  /** `Math.round(scale * a / t)` for `0 <= a <= t`, 0 when `t == 0`: the integer
      nearest `scale * a / t`, halves rounded up. */
  function RoundRatio(a: nat, t: nat, scale: nat): (q: int)
    requires a <= t
    ensures t == 0 ==> q == 0
    ensures t > 0 ==> 2 * t * q - t <= 2 * scale * a < 2 * t * q + t
    ensures 0 <= q <= scale
  {
    if t == 0 then 0
    else
      var q := (2 * scale * a + t) / (2 * t);
      RoundRatioBounds(a, t, scale, q);
      q
  }

  lemma RoundRatioBounds(a: nat, t: nat, scale: nat, q: int)
    requires 0 < t && a <= t && q == (2 * scale * a + t) / (2 * t)
    ensures 2 * t * q - t <= 2 * scale * a < 2 * t * q + t
    ensures 0 <= q <= scale
  {
    var n := 2 * scale * a + t;
    var d := 2 * t;
    assert n == d * q + n % d;
    assert 0 <= n % d < d;
    assert scale * a <= scale * t by {
      MulLeft(scale, a, t);
    }
    if q > scale {
      MulLeft(d, scale + 1, q);
      assert false;
    }
    if q < 0 {
      MulLeft(d, q, -1);
      assert false;
    }
  }

  lemma MulLeft(k: nat, x: int, y: int)
    requires x <= y
    ensures k * x <= k * y
  {
  }

  // ---------------------------------------------------------------------
  // Strings (ASCII only)

  /** A query-string flag: `searchParams.get(name) === 'true'`. */
  function QueryFlag(param: Option<string>): (on: bool)
    ensures on <==> param == Some("true")
  {
    param.Some? && param.value == "true"
  }

  predicate IsDigit(c: char) { '0' <= c <= '9' }

  function DigitValue(c: char): (d: int)
    requires IsDigit(c)
    ensures 0 <= d <= 9
  {
    c as int - '0' as int
  }

  function DigitChar(d: int): (c: char)
    requires 0 <= d <= 9
    ensures IsDigit(c) && DigitValue(c) == d
  {
    ('0' as int + d) as char
  }

  /** Decimal notation of a natural number, as JavaScript's template literals print it. */
  function NatToString(n: nat): (s: string)
    ensures |s| >= 1
    ensures forall i :: 0 <= i < |s| ==> IsDigit(s[i])
    decreases n
  {
    if n < 10 then [DigitChar(n)] else NatToString(n / 10) + [DigitChar(n % 10)]
  }

  predicate AllDigits(s: string) {
    forall i :: 0 <= i < |s| ==> IsDigit(s[i])
  }

  /** The value of a string of decimal digits, most significant first. */
  function DigitsValue(s: string): (n: nat)
    requires AllDigits(s)
    decreases |s|
  {
    if s == [] then 0 else DigitsValue(s[..|s| - 1]) * 10 + DigitValue(s[|s| - 1])
  }

  /** The longest prefix of `s` made of digits. */
  function DigitPrefix(s: string): (p: string)
    ensures |p| <= |s| && p == s[..|p|]
    ensures AllDigits(p)
    ensures |p| < |s| ==> !IsDigit(s[|p|])
  {
    if s == [] || !IsDigit(s[0]) then [] else [s[0]] + DigitPrefix(s[1..])
  }

  predicate IsHexDigit(c: char) { IsDigit(c) || 'a' <= c <= 'f' || 'A' <= c <= 'F' }

  function HexDigitValue(c: char): (d: int)
    requires IsHexDigit(c)
    ensures 0 <= d <= 15
    ensures IsDigit(c) ==> d == DigitValue(c)
  {
    if IsDigit(c) then DigitValue(c)
    else if 'a' <= c <= 'f' then c as int - 'a' as int + 10
    else c as int - 'A' as int + 10
  }

  predicate AllHexDigits(s: string) {
    forall i :: 0 <= i < |s| ==> IsHexDigit(s[i])
  }

  /** The value of a string of hexadecimal digits, most significant first. */
  function HexValue(s: string): (n: nat)
    requires AllHexDigits(s)
    decreases |s|
  {
    if s == [] then 0 else HexValue(s[..|s| - 1]) * 16 + HexDigitValue(s[|s| - 1])
  }

  /** The longest prefix of `s` made of hexadecimal digits. */
  function HexPrefix(s: string): (p: string)
    ensures |p| <= |s| && p == s[..|p|]
    ensures AllHexDigits(p)
    ensures |p| < |s| ==> !IsHexDigit(s[|p|])
  {
    if s == [] || !IsHexDigit(s[0]) then [] else [s[0]] + HexPrefix(s[1..])
  }

  /** `parseInt` without a radix reads "0x" or "0X" as the start of a
      hexadecimal number. */
  predicate HexMarked(s: string) {
    |s| >= 2 && s[0] == '0' && (s[1] == 'x' || s[1] == 'X')
  }

  /** `parseInt(s)` without a radix on a string with no leading white space or
      sign. After "0x" or "0X": the value of the hexadecimal digits that follow,
      or `None` (NaN) when none does. Otherwise: the value of the leading decimal
      digits, or `None` when it does not start with one. */
  function ParseNat(s: string): (r: Option<nat>)
    ensures HexMarked(s) ==> (r.Some? <==> |s| > 2 && IsHexDigit(s[2]))
    ensures HexMarked(s) && r.Some? ==> r.value == HexValue(HexPrefix(s[2..]))
    ensures !HexMarked(s) ==> (r.Some? <==> s != [] && IsDigit(s[0]))
    ensures !HexMarked(s) && r.Some? ==> r.value == DigitsValue(DigitPrefix(s))
  {
    if HexMarked(s) then
      var h := HexPrefix(s[2..]);
      if h == [] then None else Some(HexValue(h))
    else
      var p := DigitPrefix(s);
      if p == [] then None else Some(DigitsValue(p))
  }

  /** "0x10" reads as sixteen. */
  lemma HexLimitExample()
    ensures ParseNat("0x10") == Some(16)
  {
    assert "0x10"[2..] == "10";
    assert HexPrefix("10"[1..]) == "0" by { assert "10"[1..] == "0"; }
    assert HexValue("10") == 16 by { assert "10"[..1] == "1"; }
  }

  /** Upper-case "0X" and hexadecimal letters: "0X1f" reads as 31. */
  lemma UpperHexLimitExample()
    ensures ParseNat("0X1f") == Some(31)
  {
    assert "0X1f"[2..] == "1f";
    assert HexPrefix("1f"[1..]) == "f" by { assert "1f"[1..] == "f"; }
    assert HexValue("1f") == 31 by { assert "1f"[..1] == "1"; }
  }

  /** A bare "0x" is NaN. */
  lemma BareHexMarkExample()
    ensures ParseNat("0x") == None
  {
    assert "0x"[2..] == [];
  }

  /** A partial parse: "10abc" reads its leading digits, 10. */
  lemma PartialLimitExample()
    ensures ParseNat("10abc") == Some(10)
  {
    assert DigitPrefix("10abc"[1..]) == "0" by { assert "10abc"[1..] == "0abc"; }
    assert DigitsValue("10") == 10 by { assert "10"[..1] == "1"; }
  }

  /** `parseInt` reads back what `NatToString` prints. */
  lemma {:induction false} ParseNatToString(n: nat)
    ensures ParseNat(NatToString(n)) == Some(n)
  {
    var s := NatToString(n);
    assert !HexMarked(s) by {
      if |s| >= 2 {
        assert IsDigit(s[1]);
      }
    }
    AllDigitsPrefix(s);
    DigitsOfNatToString(n);
  }

  lemma {:induction false} AllDigitsPrefix(s: string)
    requires AllDigits(s)
    ensures DigitPrefix(s) == s
    decreases |s|
  {
    if s != [] {
      AllDigitsPrefix(s[1..]);
    }
  }

  lemma {:induction false} DigitsOfNatToString(n: nat)
    ensures DigitsValue(NatToString(n)) == n
    decreases n
  {
    var s := NatToString(n);
    if n >= 10 {
      DigitsOfNatToString(n / 10);
      assert s[..|s| - 1] == NatToString(n / 10);
    }
  }

  function ToLowerChar(c: char): char {
    if 'A' <= c <= 'Z' then (c as int + 32) as char else c
  }

  function ToUpperChar(c: char): char {
    if 'a' <= c <= 'z' then (c as int - 32) as char else c
  }

  /** `String.prototype.toLowerCase` on ASCII letters. */
  function ToLower(s: string): (r: string)
    ensures |r| == |s|
    ensures forall i :: 0 <= i < |s| ==> r[i] == ToLowerChar(s[i])
  {
    seq(|s|, i requires 0 <= i < |s| => ToLowerChar(s[i]))
  }

  /** `String.prototype.toUpperCase` on ASCII letters. */
  function ToUpper(s: string): (r: string)
    ensures |r| == |s|
    ensures forall i :: 0 <= i < |s| ==> r[i] == ToUpperChar(s[i])
  {
    seq(|s|, i requires 0 <= i < |s| => ToUpperChar(s[i]))
  }

  predicate StartsWith(s: string, prefix: string) {
    |prefix| <= |s| && s[..|prefix|] == prefix
  }

  /** `String.prototype.includes`: `sub` occurs somewhere in `s`. */
  predicate Contains(s: string, sub: string)
    decreases |s|
  {
    StartsWith(s, sub) || (s != [] && Contains(s[1..], sub))
  }

  /** Lexicographic order on character codes (an `orderBy: name asc`). */
  predicate LexLe(a: string, b: string)
    decreases |a|
  {
    if a == [] then true
    else if b == [] then false
    else if a[0] != b[0] then a[0] < b[0]
    else LexLe(a[1..], b[1..])
  }

  lemma {:induction false} LexLeTotal(a: string, b: string)
    ensures LexLe(a, b) || LexLe(b, a)
    decreases |a|
  {
    if a != [] && b != [] && a[0] == b[0] {
      LexLeTotal(a[1..], b[1..]);
    }
  }

  lemma {:induction false} LexLeTransitive(a: string, b: string, c: string)
    requires LexLe(a, b) && LexLe(b, c)
    ensures LexLe(a, c)
    decreases |a|
  {
    if a != [] && b != [] && c != [] && a[0] == b[0] && b[0] == c[0] {
      LexLeTransitive(a[1..], b[1..], c[1..]);
    }
  }
}
