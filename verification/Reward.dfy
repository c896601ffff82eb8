/**
 Staking rewards, chain/state.go: the base reward of a staker accrues second by second at
 a rate that is fixed per chain year, and is settled for all stakers of a kind whenever
 one of them stakes, claims or unstakes.

 The specification adds up seconds.  The program splits the time into chain years and
 multiplies, in unsigned 64-bit arithmetic.
 */
module Reward {
  import opened ChainTypes
  import opened VersionDb

  const SECONDS_YEAR: nat := 364 * 24 * 60 * 60

  function Quotient(a: nat, b: nat): (q: nat)
    requires b > 0
    ensures q * b <= a < q * b + b
  {
    a / b
  }

  /** System parameters.  rewardCurYear stands for the yearly token emission. */
  datatype Params = Params(
    createTime: nat, rewardCurYear: nat -> nat, stakePercentage: StakerKind -> nat, percBase: StakerKind -> nat)
  {
    /** What the stakers of a kind share in a year; the year index is cut to 32 bits. */
    function YearlyBase(kind: StakerKind, year: nat): (total: nat) {
      var roleTotalYear := Wrap(rewardCurYear(year % 0x1_0000_0000) * stakePercentage(kind)) / 100;
      if kind == Validator then roleTotalYear else Wrap(roleTotalYear * percBase(kind)) / 100
    }

    function Totals(kind: StakerKind): nat -> nat {
      (year: nat) => YearlyBase(kind, year)
    }

    /** What one of num stakers earns in a second of each year. */
    function Rate(kind: StakerKind, num: nat): nat -> nat
      requires num > 0
    {
      (year: nat) => Quotient(YearlyBase(kind, year), num * SECONDS_YEAR)
    }
  }

  function YearOf(created: nat, t: int): int { (t - created) / SECONDS_YEAR }

  /** What accrues from one point in time to a later one at a rate that depends on the year
      of the second. */
  function Accrued(rate: nat -> nat, created: nat, start: nat, end: nat): nat
    requires created <= start
    decreases end
  {
    if end <= start then 0
    else Accrued(rate, created, start, end - 1) + rate(YearOf(created, end - 1))
  }

  /** Accrual over time run backwards takes back what was earned, but only within a year;
      the loop over the years does not run backwards. */
  function Net(rate: nat -> nat, created: nat, start: nat, end: nat): int
    requires created <= start && created <= end
  {
    if start <= end then Accrued(rate, created, start, end)
    else if YearOf(created, start) == YearOf(created, end) then 0 - Accrued(rate, created, end, start)
    else 0
  }

  /** No second is lost or counted twice where an interval is cut. */
  lemma {:induction false} AccruedSplit(rate: nat -> nat, created: nat, start: nat, mid: nat, end: nat)
    requires created <= start <= mid <= end
    ensures Accrued(rate, created, start, end) == Accrued(rate, created, start, mid) + Accrued(rate, created, mid, end)
    decreases end
  {
    if mid < end {
      AccruedSplit(rate, created, start, mid, end - 1);
    }
  }

  lemma {:induction false} AccruedWithinYear(rate: nat -> nat, created: nat, year: nat, start: nat, end: nat)
    requires created <= start <= end
    requires created + year * SECONDS_YEAR <= start && end <= created + (year + 1) * SECONDS_YEAR
    ensures Accrued(rate, created, start, end) == Times(rate(year), end - start)
    decreases end
  {
    if start < end {
      AccruedWithinYear(rate, created, year, start, end - 1);
      assert YearOf(created, end - 1) == year;
    }
  }

  /** Multiplication as repeated addition. */
  function Times(rate: nat, secs: nat): nat {
    if secs == 0 then 0 else Times(rate, secs - 1) + rate
  }

  lemma {:induction false} TimesIsProduct(rate: nat, secs: nat)
    ensures Times(rate, secs) == rate * secs
  {
    if secs > 0 {
      TimesIsProduct(rate, secs - 1);
    }
  }

  datatype RewardMeta = RewardMeta(baseReward: UInt64, lastOprTime: nat)

  /** How many seconds between two points in time the loop counts for year i. */
  function WorkSecs(created: nat, start: nat, end: nat, i: nat): nat {
    var tmpStart, tmpEnd := created + i * SECONDS_YEAR, created + (i + 1) * SECONDS_YEAR;
    Wrap(if tmpEnd < end then if tmpStart > start then tmpEnd - tmpStart else tmpEnd - start
         else if tmpStart > start then end - tmpStart else end - start)
  }

  /** Where year i begins within an interval. */
  function Cut(created: nat, start: nat, end: nat, i: nat): nat {
    var year := created + i * SECONDS_YEAR;
    if year <= start then start else if end <= year then end else year
  }

  /** The loop cuts the interval at the years: it counts every second once, in its year. */
  lemma CutsByYear(created: nat, start: nat, end: nat, i: nat)
    requires created <= start <= end <= MAX_UINT64 && YearOf(created, start) <= i <= YearOf(created, end)
    ensures start <= Cut(created, start, end, i) <= Cut(created, start, end, i + 1) <= end
    ensures WorkSecs(created, start, end, i) ==
            Cut(created, start, end, i + 1) - Cut(created, start, end, i) <= SECONDS_YEAR
    ensures created + i * SECONDS_YEAR <= Cut(created, start, end, i)
    ensures Cut(created, start, end, i + 1) <= created + (i + 1) * SECONDS_YEAR
    ensures i == YearOf(created, start) ==> Cut(created, start, end, i) == start
    ensures i == YearOf(created, end) ==> Cut(created, start, end, i + 1) == end
  {}

  lemma AccrueYear(rate: nat -> nat, created: nat, start: nat, end: nat, i: nat)
    requires created <= start <= end <= MAX_UINT64 && YearOf(created, start) <= i <= YearOf(created, end)
    ensures start <= Cut(created, start, end, i) <= Cut(created, start, end, i + 1)
    ensures Accrued(rate, created, start, Cut(created, start, end, i + 1)) ==
            Accrued(rate, created, start, Cut(created, start, end, i))
            + Times(rate(i), WorkSecs(created, start, end, i))
  {
    CutsByYear(created, start, end, i);
    AccrueBetween(rate, created, start, Cut(created, start, end, i), Cut(created, start, end, i + 1), i);
  }

  lemma AccrueBetween(rate: nat -> nat, created: nat, start: nat, first: nat, last: nat, year: nat)
    requires created <= start <= first <= last
    requires created + year * SECONDS_YEAR <= first && last <= created + (year + 1) * SECONDS_YEAR
    ensures Accrued(rate, created, start, last) ==
            Accrued(rate, created, start, first) + Times(rate(year), last - first)
  {
    AccruedSplit(rate, created, start, first, last);
    AccruedWithinYear(rate, created, year, first, last);
  }

  lemma TakeBackWithinYear(rate: nat -> nat, created: nat, start: nat, end: nat)
    requires created <= end < start <= MAX_UINT64 && YearOf(created, start) == YearOf(created, end)
    ensures Wrap(Times(rate(YearOf(created, end)), WorkSecs(created, start, end, YearOf(created, end)))) ==
            Wrap(0 - Accrued(rate, created, end, start))
  {
    var i := YearOf(created, end);
    AccruedWithinYear(rate, created, i, end, start);
    assert WorkSecs(created, start, end, i) == Wrap(end - start);
    TimesNegative(rate(i), start - end);
  }

  lemma TimesNegative(rate: nat, secs: nat)
    ensures Wrap(Times(rate, Wrap(0 - secs))) == Wrap(0 - Times(rate, secs))
  {
    TimesIsProduct(rate, Wrap(0 - secs));
    TimesIsProduct(rate, secs);
    WrapProduct(rate, 0 - secs);
    assert rate * (0 - secs) == 0 - rate * secs;
  }

  function Carried(reward: Option<RewardMeta>): UInt64 {
    if reward.Some? then reward.value.baseReward else 0
  }

  function Since(reward: Option<RewardMeta>, stakeTime: nat): nat {
    if reward.Some? then reward.value.lastOprTime else stakeTime
  }

  /** What the loop has added before it comes to year i. */
  function NetBefore(rate: nat -> nat, created: nat, start: nat, end: nat, i: nat): int
    requires created <= start && created <= end
  {
    if start <= end then Accrued(rate, created, start, Cut(created, start, end, i))
    else if i <= YearOf(created, start) then 0
    else Net(rate, created, start, end)
  }

  lemma NetBeforeFirstYear(rate: nat -> nat, created: nat, start: nat, end: nat)
    requires created <= start <= MAX_UINT64 && created <= end <= MAX_UINT64
    ensures YearOf(created, start) >= 0 && YearOf(created, end) >= 0
    ensures NetBefore(rate, created, start, end, YearOf(created, start)) == 0
  {}

  lemma NetYear(rate: nat -> nat, created: nat, start: nat, end: nat, i: nat) returns (delta: int)
    requires created <= start <= MAX_UINT64 && created <= end <= MAX_UINT64
    requires YearOf(created, start) <= i <= YearOf(created, end)
    ensures NetBefore(rate, created, start, end, i + 1) == NetBefore(rate, created, start, end, i) + delta
    ensures Wrap(delta) == Wrap(Times(rate(i), WorkSecs(created, start, end, i)))
  {
    if start <= end {
      AccrueYear(rate, created, start, end, i);
      delta := Times(rate(i), WorkSecs(created, start, end, i));
    } else {
      SameYear(created, start, end, i);
      TakeBackWithinYear(rate, created, start, end);
      delta := 0 - Accrued(rate, created, end, start);
    }
  }

  lemma SameYear(created: nat, start: nat, end: nat, i: nat)
    requires created <= end < start && YearOf(created, start) <= i <= YearOf(created, end)
    ensures YearOf(created, start) == i == YearOf(created, end)
  {}

  lemma WrapStep(total: int, delta: int, added: int)
    requires Wrap(delta) == Wrap(added)
    ensures Wrap(Wrap(total) + Wrap(added)) == Wrap(total + delta)
  {
    WrapTwo(total, delta);
  }

  lemma NetAfterLastYear(rate: nat -> nat, created: nat, start: nat, end: nat, i: nat)
    requires i == if YearOf(created, start) <= YearOf(created, end) then YearOf(created, end) + 1
             else YearOf(created, start)
    requires created <= start <= MAX_UINT64 && created <= end <= MAX_UINT64
    ensures NetBefore(rate, created, start, end, i) == Net(rate, created, start, end)
  {
    if start <= end {
      CutsByYear(created, start, end, YearOf(created, end));
    }
  }

  /** The body of the loop of StakerReword. */
  method AddYear(rate: nat -> nat, created: nat, startTime: nat, endTime: nat, i: nat, baseReward: UInt64)
    returns (more: UInt64)
    ensures more == Wrap(baseReward + Wrap(Times(rate(i), WorkSecs(created, startTime, endTime, i))))
  {
    var workSecs := WorkSecs(created, startTime, endTime, i);
    TimesIsProduct(rate(i), workSecs);
    var earned := rate(i) * workSecs;
    more := Wrap(baseReward + Wrap(earned));
  }

  /** StakerReword, the base part: what has been carried over plus what has accrued since
      the last settlement, second by second. */
  method StakerReword(rate: nat -> nat, created: nat, reward: Option<RewardMeta>, stakeTime: nat, endTime: nat)
    returns (baseReward: UInt64)
    requires created <= Since(reward, stakeTime) <= MAX_UINT64 && created <= endTime <= MAX_UINT64
    ensures baseReward == Wrap(Carried(reward) + Net(rate, created, Since(reward, stakeTime), endTime))
  {
    var startTime := stakeTime;
    baseReward := 0;
    if reward.Some? {
      startTime := reward.value.lastOprTime;
      baseReward := baseReward + reward.value.baseReward;
    }
    NetBeforeFirstYear(rate, created, startTime, endTime);
    var sYear, eYear := YearOf(created, startTime), YearOf(created, endTime);
    var i := sYear;
    while i < eYear + 1
      invariant sYear <= i && (if sYear <= eYear then i <= eYear + 1 else i == sYear)
      invariant baseReward == Wrap(Carried(reward) + NetBefore(rate, created, startTime, endTime, i))
    {
      ghost var delta := NetYear(rate, created, startTime, endTime, i);
      baseReward := AddYear(rate, created, startTime, endTime, i, baseReward);
      WrapStep(Carried(reward) + NetBefore(rate, created, startTime, endTime, i), delta,
               Times(rate(i), WorkSecs(created, startTime, endTime, i)));
      i := i + 1;
    }
    NetAfterLastYear(rate, created, startTime, endTime, i);
  }

  // ---------- the years partition the time and cap the reward ----------

  function SecsByYear(created: nat, start: nat, end: nat): nat -> nat {
    (i: nat) => WorkSecs(created, start, end, i)
  }

  function SumOver(f: nat -> nat, first: nat, n: nat): nat {
    if n <= first then 0 else SumOver(f, first, n - 1) + f(n - 1)
  }

  lemma {:induction false} SumToCut(created: nat, start: nat, end: nat, n: nat)
    requires created <= start <= end <= MAX_UINT64 && YearOf(created, start) <= n <= YearOf(created, end) + 1
    ensures SumOver(SecsByYear(created, start, end), YearOf(created, start), n) == Cut(created, start, end, n) - start
  {
    if n > YearOf(created, start) {
      SumToCut(created, start, end, n - 1);
      CutsByYear(created, start, end, n - 1);
    } else {
      CutsByYear(created, start, end, n);
    }
  }

  /** The loop counts every second of the interval exactly once, at most a year of them in
      one round. */
  lemma YearsPartitionTime(created: nat, start: nat, end: nat)
    requires created <= start <= end <= MAX_UINT64
    ensures YearOf(created, start) >= 0 && YearOf(created, end) >= 0
    ensures SumOver(SecsByYear(created, start, end), YearOf(created, start), YearOf(created, end) + 1) == end - start
    ensures forall i :: YearOf(created, start) <= i <= YearOf(created, end) ==>
            WorkSecs(created, start, end, i) <= SECONDS_YEAR
  {
    var first, last := YearOf(created, start), YearOf(created, end);
    assert SumOver(SecsByYear(created, start, end), first, last + 1) == end - start by {
      CutsByYear(created, start, end, last);
      SumToCut(created, start, end, last + 1);
    }
    forall i | first <= i <= last ensures WorkSecs(created, start, end, i) <= SECONDS_YEAR {
      CutsByYear(created, start, end, i);
    }
  }

  // ---------- what the base is of the emission ----------

  lemma WrapAtMost(n: nat)
    ensures Wrap(n) <= n
  {}

  /** Two percentages one after the other, each rounded down. */
  lemma TwoPercentages(emission: nat, stake: nat, perc: nat, product: nat, role: nat, scaled: nat, base: nat)
    requires product <= emission * stake && 100 * role <= product && scaled <= role * perc && 100 * base <= scaled
    ensures 10000 * base <= emission * stake * perc
    ensures product == emission * stake && product < 100 * role + 100 && scaled == role * perc
            && scaled < 100 * base + 100 ==>
              emission * stake * perc - 99 * perc - 9900 <= 10000 * base
  {
    var es := emission * stake;
    Scaled(100 * role, es, perc);
    assert 100 * role * perc == 100 * (role * perc);
    if product == es && product < 100 * role + 100 {
      Scaled(es, 100 * role + 99, perc);
      assert (100 * role + 99) * perc == 100 * (role * perc) + 99 * perc;
    }
  }

  lemma Scaled(a: nat, b: nat, n: nat)
    requires a <= b
    ensures a * n <= b * n
  {}

  /** What the stakers of a kind share in a year is the kind's part of the emission, rounded
      down: never more, and unless a product overflows less only by the rounding. */
  lemma BaseOfEmission(p: Params, kind: StakerKind, year: nat)
    ensures var emission, base := p.rewardCurYear(year % 0x1_0000_0000), p.YearlyBase(kind, year);
            var stake, perc := p.stakePercentage(kind), p.percBase(kind);
            if kind == Validator then
              && 100 * base <= emission * stake
              && (emission * stake <= MAX_UINT64 ==> emission * stake - 99 <= 100 * base)
            else
              && 10000 * base <= emission * stake * perc
              && (emission * stake <= MAX_UINT64 && Quotient(emission * stake, 100) * perc <= MAX_UINT64 ==>
                    emission * stake * perc - 99 * perc - 9900 <= 10000 * base)
  {
    var emission, stake, perc := p.rewardCurYear(year % 0x1_0000_0000), p.stakePercentage(kind), p.percBase(kind);
    var product := Wrap(emission * stake);
    WrapAtMost(emission * stake);
    if kind != Validator {
      var role := product / 100;
      WrapAtMost(role * perc);
      TwoPercentages(emission, stake, perc, product, role, Wrap(role * perc), p.YearlyBase(kind, year));
    }
  }

  lemma ProductMonotone(x: nat, a: nat, b: nat)
    requires a <= b
    ensures x * a <= x * b
  {}

  lemma Regroup(num: nat, rate: nat, secs: nat, earned: nat)
    requires earned == rate * secs
    ensures earned * num == rate * (num * secs)
  {}

  lemma YearWithinTotal(num: nat, rate: nat, total: nat, secs: nat, year: nat)
    requires secs <= year && rate * (num * year) <= total
    ensures Times(Times(rate, secs), num) <= total
  {
    var earned := Times(rate, secs);
    TimesIsProduct(rate, secs);
    TimesIsProduct(earned, num);
    Regroup(num, rate, secs, earned);
    ProductMonotone(num, secs, year);
    ProductMonotone(rate, num * secs, num * year);
  }

  /** The rate is rounded down. */
  lemma RateWithinTotal(p: Params, kind: StakerKind, num: nat, i: nat, secs: nat)
    requires num > 0 && secs <= SECONDS_YEAR
    ensures Times(Times(p.Rate(kind, num)(i), secs), num) <= p.YearlyBase(kind, i)
  {
    var rate, total := p.Rate(kind, num)(i), p.YearlyBase(kind, i);
    assert rate == Quotient(total, num * SECONDS_YEAR);
    YearWithinTotal(num, rate, total, secs, SECONDS_YEAR);
  }

  lemma {:induction false} TimesSum(a: nat, b: nat, num: nat)
    ensures Times(a + b, num) == Times(a, num) + Times(b, num)
  {
    if num > 0 {
      TimesSum(a, b, num - 1);
    }
  }

  /** What the loop adds up year by year. */
  function SumEarned(rate: nat -> nat, secs: nat -> nat, first: nat, n: nat): nat {
    if n <= first then 0 else SumEarned(rate, secs, first, n - 1) + Times(rate(n - 1), secs(n - 1))
  }

  lemma {:induction false} EarnedToCut(rate: nat -> nat, created: nat, start: nat, end: nat, n: nat)
    requires created <= start <= end <= MAX_UINT64 && YearOf(created, start) <= n <= YearOf(created, end) + 1
    ensures SumEarned(rate, SecsByYear(created, start, end), YearOf(created, start), n) ==
            Accrued(rate, created, start, Cut(created, start, end, n))
  {
    if n > YearOf(created, start) {
      EarnedToCut(rate, created, start, end, n - 1);
      AccrueYear(rate, created, start, end, n - 1);
    } else {
      CutsByYear(created, start, end, n);
    }
  }

  lemma {:induction false} EarnedWithinTotals(rate: nat -> nat, secs: nat -> nat, total: nat -> nat, num: nat,
                                              first: nat, n: nat)
    requires forall i :: first <= i < n ==> Times(Times(rate(i), secs(i)), num) <= total(i)
    ensures Times(SumEarned(rate, secs, first, n), num) <= SumOver(total, first, n)
  {
    if n > first {
      EarnedWithinTotals(rate, secs, total, num, first, n - 1);
      TimesSum(SumEarned(rate, secs, first, n - 1), Times(rate(n - 1), secs(n - 1)), num);
    } else {
      TimesIsProduct(0, num);
    }
  }

  lemma TotalsCapEarned(p: Params, kind: StakerKind, num: nat, secs: nat -> nat, first: nat, n: nat)
    requires num > 0 && forall i :: first <= i < n ==> secs(i) <= SECONDS_YEAR
    ensures Times(SumEarned(p.Rate(kind, num), secs, first, n), num) <= SumOver(p.Totals(kind), first, n)
  {
    forall i | first <= i < n ensures Times(Times(p.Rate(kind, num)(i), secs(i)), num) <= p.Totals(kind)(i) {
      RateWithinTotal(p, kind, num, i, secs(i));
    }
    EarnedWithinTotals(p.Rate(kind, num), secs, p.Totals(kind), num, first, n);
  }

  /** All stakers of a kind together never earn more than the kind's totals of the years
      they worked in. */
  lemma RewardIsCapped(p: Params, kind: StakerKind, num: nat, start: nat, end: nat, first: nat, last: nat)
    requires num > 0 && p.createTime <= start <= end <= MAX_UINT64
    requires first == YearOf(p.createTime, start) && last == YearOf(p.createTime, end)
    ensures Times(Accrued(p.Rate(kind, num), p.createTime, start, end), num) <= SumOver(p.Totals(kind), first, last + 1)
  {
    YearsPartitionTime(p.createTime, start, end);
    EarnedToCut(p.Rate(kind, num), p.createTime, start, end, last + 1);
    CutsByYear(p.createTime, start, end, last);
    TotalsCapEarned(p, kind, num, SecsByYear(p.createTime, start, end), first, last + 1);
  }

  /** A whole year pays the stakers of a kind their base, rounded down to whole tokens a second
      for each of them. */
  lemma WholeYearPays(p: Params, kind: StakerKind, num: nat, year: nat)
    requires num > 0
    ensures var start := p.createTime + year * SECONDS_YEAR;
            var paid := Times(Accrued(p.Rate(kind, num), p.createTime, start, start + SECONDS_YEAR), num);
            paid <= p.YearlyBase(kind, year) < paid + num * SECONDS_YEAR
  {
    var rate, start := p.Rate(kind, num), p.createTime + year * SECONDS_YEAR;
    AccruedWithinYear(rate, p.createTime, year, start, start + SECONDS_YEAR);
    TimesIsProduct(rate(year), SECONDS_YEAR);
    TimesIsProduct(rate(year) * SECONDS_YEAR, num);
    Regroup(num, rate(year), SECONDS_YEAR, rate(year) * SECONDS_YEAR);
    assert rate(year) == Quotient(p.YearlyBase(kind, year), num * SECONDS_YEAR);
  }

  /** The percentages are percentages: the kinds share at most the whole. */
  ghost predicate Shared(p: Params) {
    && p.stakePercentage(Route) + p.stakePercentage(Ser) + p.stakePercentage(Validator) <= 100
    && p.percBase(Route) <= 100 && p.percBase(Ser) <= 100
  }

  lemma KindWithinPart(p: Params, kind: StakerKind, year: nat)
    requires kind != Validator ==> p.percBase(kind) <= 100
    ensures 100 * p.YearlyBase(kind, year) <= p.rewardCurYear(year % 0x1_0000_0000) * p.stakePercentage(kind)
  {
    BaseOfEmission(p, kind, year);
    if kind != Validator {
      var part := p.rewardCurYear(year % 0x1_0000_0000) * p.stakePercentage(kind);
      ProductMonotone(part, p.percBase(kind), 100);
    }
  }

  /** All kinds together share at most the emission of the year. */
  lemma YearWithinEmission(p: Params, year: nat)
    requires Shared(p)
    ensures p.YearlyBase(Route, year) + p.YearlyBase(Ser, year) + p.YearlyBase(Validator, year) <=
            p.rewardCurYear(year % 0x1_0000_0000)
  {
    KindWithinPart(p, Route, year);
    KindWithinPart(p, Ser, year);
    KindWithinPart(p, Validator, year);
    SharesWithin(p.rewardCurYear(year % 0x1_0000_0000), p.stakePercentage(Route), p.stakePercentage(Ser),
                 p.stakePercentage(Validator));
  }

  lemma SharesWithin(emission: nat, first: nat, second: nat, third: nat)
    requires first + second + third <= 100
    ensures emission * first + emission * second + emission * third <= 100 * emission
  {
    ProductMonotone(emission, first + second + third, 100);
    assert emission * (first + second + third) == emission * first + emission * second + emission * third;
  }

  lemma {:induction false} SumsWithin(f: nat -> nat, g: nat -> nat, h: nat -> nat, cap: nat -> nat, first: nat, n: nat)
    requires forall i :: first <= i < n ==> f(i) + g(i) + h(i) <= cap(i)
    ensures SumOver(f, first, n) + SumOver(g, first, n) + SumOver(h, first, n) <= SumOver(cap, first, n)
  {
    if n > first {
      SumsWithin(f, g, h, cap, first, n - 1);
    }
  }

  function Emissions(p: Params): nat -> nat {
    (year: nat) => p.rewardCurYear(year % 0x1_0000_0000)
  }

  /** What all stakers of a kind earn together. */
  function KindEarns(p: Params, kind: StakerKind, num: nat, start: nat, end: nat): nat
    requires p.createTime <= start
  {
    if num == 0 then 0 else Times(Accrued(p.Rate(kind, num), p.createTime, start, end), num)
  }

  /** All stakers of all kinds together never earn more than the emission of the years they
      worked in. */
  lemma RewardsWithinEmission(p: Params, nums: StakerKind -> nat, start: nat, end: nat, first: nat, last: nat)
    requires Shared(p) && p.createTime <= start <= end <= MAX_UINT64
    requires first == YearOf(p.createTime, start) && last == YearOf(p.createTime, end)
    ensures KindEarns(p, Route, nums(Route), start, end) + KindEarns(p, Ser, nums(Ser), start, end)
            + KindEarns(p, Validator, nums(Validator), start, end) <=
            SumOver(Emissions(p), first, last + 1)
  {
    forall kind ensures KindEarns(p, kind, nums(kind), start, end) <= SumOver(p.Totals(kind), first, last + 1) {
      if nums(kind) > 0 {
        RewardIsCapped(p, kind, nums(kind), start, end, first, last);
      }
    }
    forall i | first <= i < last + 1
      ensures p.Totals(Route)(i) + p.Totals(Ser)(i) + p.Totals(Validator)(i) <= Emissions(p)(i)
    {
      YearWithinEmission(p, i);
    }
    SumsWithin(p.Totals(Route), p.Totals(Ser), p.Totals(Validator), Emissions(p), first, last + 1);
  }

  // ---------- settling early changes nothing ----------

  /** What was settled up to mid and is not taken back when paying up to an end before mid. */
  function Overpaid(rate: nat -> nat, created: nat, mid: nat, end: nat): nat
    requires created <= mid && created <= end
  {
    if mid <= end || YearOf(created, mid) == YearOf(created, end) then 0 else Accrued(rate, created, end, mid)
  }

  /** Settling at mid and paying up to end later comes to the same as paying up to end at
      once exactly if nothing is overpaid: always if time does not run backwards. */
  lemma SettleThenPay(rate: nat -> nat, created: nat, carried: int, start: nat, mid: nat, end: nat)
    requires created <= start <= mid && start <= end
    ensures Wrap(Wrap(carried + Net(rate, created, start, mid)) + Net(rate, created, mid, end)) ==
            Wrap(carried + Net(rate, created, start, end)) <==>
            Wrap(Overpaid(rate, created, mid, end)) == 0
  {
    NetGap(rate, created, start, mid, end);
    WrapGap(carried, Net(rate, created, start, mid), Net(rate, created, mid, end), Net(rate, created, start, end),
            Overpaid(rate, created, mid, end));
  }

  lemma NetGap(rate: nat -> nat, created: nat, start: nat, mid: nat, end: nat)
    requires created <= start <= mid && start <= end
    ensures Net(rate, created, start, mid) + Net(rate, created, mid, end) ==
            Net(rate, created, start, end) + Overpaid(rate, created, mid, end)
  {
    if mid <= end {
      AccruedSplit(rate, created, start, mid, end);
    } else {
      AccruedSplit(rate, created, start, end, mid);
    }
  }

  lemma WrapGap(x: int, a: int, b: int, d: int, gap: int)
    requires a + b == d + gap
    ensures Wrap(Wrap(x + a) + b) == Wrap(x + d) <==> Wrap(gap) == 0
  {
    WrapSum(x + a, b);
    WrapDifference(x + d, gap);
  }

  lemma WrapDifference(a: int, b: int)
    ensures Wrap(a + b) == Wrap(a) <==> Wrap(b) == 0
  {}

  /** One settlement of a staker's reward: the rate per second since the one before, which
      depends on the number of stakers, when it takes place, and whether it is paid out. */
  datatype Settlement = Settlement(rate: nat -> nat, time: nat, claimed: bool)

  ghost predicate InOrder(since: nat, run: seq<Settlement>)
    decreases run
  {
    run != [] ==> since <= run[0].time && InOrder(run[0].time, run[1..])
  }

  /** What the staker earns second by second. */
  ghost function Earned(created: nat, since: nat, run: seq<Settlement>): nat
    requires created <= since && InOrder(since, run)
    decreases run
  {
    if run == [] then 0
    else Accrued(run[0].rate, created, since, run[0].time) + Earned(created, run[0].time, run[1..])
  }

  /** What is paid to the staker settlement by settlement, and still owed at the end. */
  ghost function PaidAndOwed(created: nat, reward: RewardMeta, run: seq<Settlement>): int
    requires created <= reward.lastOprTime && InOrder(reward.lastOprTime, run)
    decreases run
  {
    if run == [] then reward.baseReward
    else
      var owed := Wrap(reward.baseReward + Net(run[0].rate, created, reward.lastOprTime, run[0].time));
      if run[0].claimed then owed + PaidAndOwed(created, RewardMeta(0, run[0].time), run[1..])
      else PaidAndOwed(created, RewardMeta(owed, run[0].time), run[1..])
  }

  /** Over any run of settlements in order of time, each committed before the next, with any
      number of stakers at each, the payouts and what is still owed add up to what accrued:
      no second is lost or paid twice. */
  lemma {:induction false} RunPaysEverySecondOnce(created: nat, reward: RewardMeta, run: seq<Settlement>)
    requires created <= reward.lastOprTime && InOrder(reward.lastOprTime, run)
    ensures Wrap(PaidAndOwed(created, reward, run)) ==
            Wrap(reward.baseReward + Earned(created, reward.lastOprTime, run))
    decreases run
  {
    if run != [] {
      var now := run[0].time;
      var accrued := Accrued(run[0].rate, created, reward.lastOprTime, now);
      var owed := Wrap(reward.baseReward + accrued);
      var left := RewardMeta(if run[0].claimed then 0 else owed, now);
      RunPaysEverySecondOnce(created, left, run[1..]);
      SettledStep(reward.baseReward, accrued, PaidAndOwed(created, left, run[1..]),
                  Earned(created, now, run[1..]), run[0].claimed);
    }
  }

  lemma SettledStep(base: int, accrued: int, later: int, rest: int, claimed: bool)
    requires Wrap(later) == Wrap((if claimed then 0 else Wrap(base + accrued)) + rest)
    ensures Wrap((if claimed then Wrap(base + accrued) else 0) + later) == Wrap(base + (accrued + rest))
  {
    if claimed {
      ClaimedStep(base, accrued, later, rest);
    } else {
      CarriedStep(base, accrued, later, rest);
    }
  }

  lemma CarriedStep(base: int, accrued: int, later: int, rest: int)
    requires Wrap(later) == Wrap(Wrap(base + accrued) + rest)
    ensures Wrap(later) == Wrap(base + (accrued + rest))
  {
    WrapSum(base + accrued, rest);
  }

  lemma ClaimedStep(base: int, accrued: int, later: int, rest: int)
    requires Wrap(later) == Wrap(rest)
    ensures Wrap(Wrap(base + accrued) + later) == Wrap(base + (accrued + rest))
  {
    WrapTwo(base + accrued, later);
    WrapTwo(base + accrued, rest);
    WrapSum(base + accrued, later);
  }

  // ---------- the reward records ----------

  function Find(rewards: map<Address, RewardMeta>, a: Address): Option<RewardMeta> {
    if a in rewards then Some(rewards[a]) else None
  }

  /** What decides how much a staker is owed. */
  datatype Account = Account(rate: nat -> nat, created: nat, reward: Option<RewardMeta>, stakedAt: nat)
  {
    ghost predicate Ok() { created <= Since(reward, stakedAt) }

    ghost function Owed(time: nat): UInt64
      requires Ok() && created <= time
    {
      Wrap(Carried(reward) + Net(rate, created, Since(reward, stakedAt), time))
    }
  }

  /** The stakers of a kind, with the times they staked, and the reward records. */
  datatype Role = Role(p: Params, kind: StakerKind, stakers: map<Address, nat>, rewards: map<Address, RewardMeta>)
  {
    ghost predicate TimeOk(a: Address)
      requires a in stakers
    {
      p.createTime <= Since(Find(rewards, a), stakers[a]) <= MAX_UINT64
    }

    ghost predicate TimesOk() {
      forall a {:trigger TimeOk(a)} :: a in stakers ==> TimeOk(a)
    }

    lemma Populated(a: Address)
      requires a in stakers
      ensures |stakers| > 0
    {
      assert stakers.Keys != {};
    }

    ghost function AccountOf(a: Address): Account
      requires a in stakers
    {
      Populated(a);
      Account(p.Rate(kind, |stakers|), p.createTime, Find(rewards, a), stakers[a])
    }

    /** What a staker may claim at a time. */
    ghost function Owed(a: Address, time: nat): UInt64
      requires a in stakers && TimeOk(a) && p.createTime <= time
    {
      AccountOf(a).Owed(time)
    }

    /** The record that a settlement leaves for a staker: the claimer is paid out. */
    ghost function Record(claimer: Address, a: Address, time: nat): RewardMeta
      requires a in stakers && TimeOk(a) && p.createTime <= time
    {
      RewardMeta(if a == claimer then 0 else Owed(a, time), time)
    }

    /** Whether the record of an address is what a settlement of the stakers in done leaves:
        it settles those who staked before. */
    ghost predicate RecordOk(claimer: Address, time: nat, done: set<Address>,
                             before: map<Address, RewardMeta>, after: map<Address, RewardMeta>, a: Address)
      requires p.createTime <= time
    {
      if a in done && a in stakers && stakers[a] < time then
        TimeOk(a) && Find(after, a) == Some(Record(claimer, a, time))
      else Find(after, a) == Find(before, a)
    }

    ghost predicate Settles(claimer: Address, time: nat, done: set<Address>,
                            before: map<Address, RewardMeta>, after: map<Address, RewardMeta>)
      requires p.createTime <= time
    {
      forall a {:trigger RecordOk(claimer, time, done, before, after, a)} ::
        RecordOk(claimer, time, done, before, after, a)
    }

    lemma SettlesNext(claimer: Address, time: nat, done: set<Address>, before: map<Address, RewardMeta>,
                      now: map<Address, RewardMeta>, after: map<Address, RewardMeta>, a: Address)
      requires p.createTime <= time && Settles(claimer, time, done, before, now) && a in stakers && TimeOk(a)
      requires after == if stakers[a] < time then now[a := Record(claimer, a, time)] else now
      ensures Settles(claimer, time, done + {a}, before, after)
    {
      forall b ensures RecordOk(claimer, time, done + {a}, before, after, b) {
        assert RecordOk(claimer, time, done, before, now, b);
      }
    }
  }

  /** What is owed now and how it is split between a payment and a new record decide what is
      owed later. */
  lemma RecordGap(acc: Account, left: RewardMeta, paid: int, twice: int, end: nat)
    requires acc.Ok() && Since(acc.reward, acc.stakedAt) <= end
    requires Since(acc.reward, acc.stakedAt) <= left.lastOprTime <= MAX_UINT64
    requires paid + left.baseReward == acc.Owed(left.lastOprTime) + twice
    ensures var after := acc.(reward := Some(left));
            after.Ok() && (Wrap(paid + after.Owed(end)) == acc.Owed(end) <==>
                           Wrap(Overpaid(acc.rate, acc.created, left.lastOprTime, end) + twice) == 0)
  {
    var start, mid := Since(acc.reward, acc.stakedAt), left.lastOprTime;
    NetGap(acc.rate, acc.created, start, mid, end);
    TwiceGap(Carried(acc.reward), Net(acc.rate, acc.created, start, mid), Net(acc.rate, acc.created, mid, end),
             Net(acc.rate, acc.created, start, end), Overpaid(acc.rate, acc.created, mid, end), twice, paid,
             left.baseReward, acc.Owed(mid), acc.(reward := Some(left)).Owed(end), acc.Owed(end));
  }

  lemma TwiceGap(x: int, before: int, after: int, all: int, gap: int, twice: int, paid: int, left: int,
                 owed: int, later: int, without: int)
    requires before + after == all + gap && paid + left == owed + twice
    requires owed == Wrap(x + before) && later == Wrap(left + after) && without == Wrap(x + all)
    ensures Wrap(paid + later) == without <==> Wrap(gap + twice) == 0
  {
    WrapSum(left + after, paid);
    WrapSum(x + before, twice + after);
    assert (left + after) + paid == Wrap(x + before) + (twice + after);
    assert (x + before) + (twice + after) == (x + all) + (gap + twice);
    WrapDifference(x + all, gap + twice);
  }

  /** A settlement changes nothing for a staker who does not claim: it is owed the same
      later as without the settlement, exactly if nothing is overpaid. */
  lemma SettlementKeepsOwed(role: Role, after: Role, claimer: Address, a: Address, mid: nat, end: nat)
    requires a in role.stakers && a != claimer && role.TimeOk(a) && role.stakers[a] < mid <= MAX_UINT64
    requires Since(Find(role.rewards, a), role.stakers[a]) <= mid
             && Since(Find(role.rewards, a), role.stakers[a]) <= end
    requires after == role.(rewards := after.rewards) && Find(after.rewards, a) == Some(role.Record(claimer, a, mid))
    ensures |role.stakers| > 0 && after.TimeOk(a)
    ensures after.Owed(a, end) == role.Owed(a, end)
            <==> Wrap(Overpaid(role.p.Rate(role.kind, |role.stakers|), role.p.createTime, mid, end)) == 0
  {
    role.Populated(a);
    var acc, left := role.AccountOf(a), role.Record(claimer, a, mid);
    RecordGap(acc, left, 0, 0, end);
    assert after.AccountOf(a) == acc.(reward := Some(left));
  }

  /** Nor for the claimer, if its record is the one that is committed: what it is paid now and
      owed later is what it would have been owed later without the claim, exactly if nothing is
      overpaid.  BlockLosesNothing is about blocks with other settlements. */
  lemma ClaimLosesNothing(role: Role, after: Role, a: Address, mid: nat, end: nat)
    requires a in role.stakers && role.TimeOk(a) && role.stakers[a] < mid <= MAX_UINT64
    requires Since(Find(role.rewards, a), role.stakers[a]) <= mid
             && Since(Find(role.rewards, a), role.stakers[a]) <= end
    requires after == role.(rewards := after.rewards) && Find(after.rewards, a) == Some(role.Record(a, a, mid))
    ensures |role.stakers| > 0 && after.TimeOk(a)
    ensures Wrap(role.Owed(a, mid) + after.Owed(a, end)) == role.Owed(a, end)
            <==> Wrap(Overpaid(role.p.Rate(role.kind, |role.stakers|), role.p.createTime, mid, end)) == 0
  {
    role.Populated(a);
    var acc, left := role.AccountOf(a), role.Record(a, a, mid);
    RecordGap(acc, left, role.Owed(a, mid), 0, end);
    assert after.AccountOf(a) == acc.(reward := Some(left));
  }

  /** A record outlives unstaking.  An address that stakes again is paid from its last
      settlement on, also for the time in between, so it is paid for the time it has staked
      exactly if nothing accrues in between. */
  lemma PaidOnlyWhileStaked(role: Role, a: Address, end: nat)
    requires a in role.stakers && role.TimeOk(a) && a in role.rewards
             && role.rewards[a].lastOprTime <= role.stakers[a] <= end
    ensures |role.stakers| > 0
    ensures var rate, created := role.p.Rate(role.kind, |role.stakers|), role.p.createTime;
            role.Owed(a, end) == Wrap(role.rewards[a].baseReward + Accrued(rate, created, role.stakers[a], end))
            <==> Wrap(Accrued(rate, created, role.rewards[a].lastOprTime, role.stakers[a])) == 0
  {
    role.Populated(a);
    var rate, created, last := role.p.Rate(role.kind, |role.stakers|), role.p.createTime, role.rewards[a].lastOprTime;
    AccruedSplit(rate, created, last, role.stakers[a], end);
    WrapDifference(role.rewards[a].baseReward + Accrued(rate, created, role.stakers[a], end),
                   Accrued(rate, created, last, role.stakers[a]));
  }

  /** One token a second for a single staker, so that nothing is rounded. */
  const ONE_A_SECOND := Params(0, _ => SECONDS_YEAR, _ => 100, _ => 100)

  lemma OneASecond(year: nat)
    ensures ONE_A_SECOND.Rate(Route, 1)(year) == 1
  {
    assert ONE_A_SECOND.YearlyBase(Route, year) == SECONDS_YEAR;
    assert ONE_A_SECOND.Rate(Route, 1)(year) == Quotient(SECONDS_YEAR, 1 * SECONDS_YEAR);
  }

  /** The exceptions are not empty.  An address that was settled at time 0 and stakes again
      at time 1 has earned a token by time 1. */
  lemma StakedAgainIsPaid(a: Address)
    ensures var role := Role(ONE_A_SECOND, Route, map[a := 1], map[a := RewardMeta(0, 0)]);
            role.TimeOk(a) && role.Owed(a, 1) == 1 && Accrued(ONE_A_SECOND.Rate(Route, 1), 0, 1, 1) == 0
  {
    var rate, role := ONE_A_SECOND.Rate(Route, 1), Role(ONE_A_SECOND, Route, map[a := 1], map[a := RewardMeta(0, 0)]);
    OneASecond(0);
    assert role.stakers.Keys == {a};
    assert Accrued(rate, 0, 0, 1) == Accrued(rate, 0, 0, 0) + rate(YearOf(0, 0));
  }

  /** A settlement at the start of a year overpays who is then paid up to the second before. */
  lemma EarlySettlementOverpays()
    ensures Overpaid(ONE_A_SECOND.Rate(Route, 1), 0, SECONDS_YEAR, SECONDS_YEAR - 1) == 1
  {
    var rate := ONE_A_SECOND.Rate(Route, 1);
    OneASecond(0);
    assert Accrued(rate, 0, SECONDS_YEAR - 1, SECONDS_YEAR) ==
           Accrued(rate, 0, SECONDS_YEAR - 1, SECONDS_YEAR - 1) + rate(YearOf(0, SECONDS_YEAR - 1));
  }

  class RewardState {
    const p: Params
    var stakers: map<StakerKind, map<Address, nat>>  // the committed stakers of each kind
    var lastUpdateTime: nat
    var rewards: map<Address, RewardMeta>
    var pendingAdd: map<Address, RewardMeta>

    constructor (p: Params, stakers: map<StakerKind, map<Address, nat>>, lastUpdateTime: nat,
                 rewards: map<Address, RewardMeta>)
      ensures this.p == p && this.stakers == stakers && this.lastUpdateTime == lastUpdateTime
      ensures this.rewards == rewards && pendingAdd == map[]
    {
      this.p, this.stakers, this.lastUpdateTime, this.rewards := p, stakers, lastUpdateTime, rewards;
      pendingAdd := map[];
    }

    function RoleOf(kind: StakerKind): Role
      requires kind in stakers
      reads this
    {
      Role(p, kind, stakers[kind], rewards)
    }

    /** UpdateStakerReward: settles the reward of every staker of the kind at a time. */
    method UpdateStakerReward(kind: StakerKind, claimer: Address, endTime: nat) returns (ok: bool)
      requires kind in stakers && RoleOf(kind).TimesOk() && p.createTime <= endTime <= MAX_UINT64
      modifies this`pendingAdd
      ensures ok <==> lastUpdateTime <= endTime
      ensures lastUpdateTime >= endTime ==> pendingAdd == old(pendingAdd)
      ensures lastUpdateTime < endTime ==>
                RoleOf(kind).Settles(claimer, endTime, stakers[kind].Keys, old(pendingAdd), pendingAdd)
    {
      if lastUpdateTime > endTime {
        return false;
      } else if lastUpdateTime == endTime {
        return true;
      }
      ok := true;
      var role := RoleOf(kind);
      if |role.stakers| == 0 {
        assert role.stakers.Keys == {};
        assert forall a :: role.RecordOk(claimer, endTime, role.stakers.Keys, pendingAdd, pendingAdd, a);
        return;
      }
      var left := role.stakers.Keys;
      assert forall a :: role.RecordOk(claimer, endTime, {}, pendingAdd, pendingAdd, a);
      assert role.stakers.Keys - left == {};
      while left != {}
        invariant left <= role.stakers.Keys
                  && role.Settles(claimer, endTime, role.stakers.Keys - left, old(pendingAdd), pendingAdd)
        decreases left
      {
        var a :| a in left;
        var now := SettleOne(role, claimer, endTime, a, pendingAdd);
        role.SettlesNext(claimer, endTime, role.stakers.Keys - left, old(pendingAdd), pendingAdd, now, a);
        assert role.stakers.Keys - left + {a} == role.stakers.Keys - (left - {a});
        pendingAdd, left := now, left - {a};
      }
      assert role.stakers.Keys - left == role.stakers.Keys;
    }

    /** The body of the staker loop. */
    static method SettleOne(role: Role, claimer: Address, endTime: nat, a: Address, before: map<Address, RewardMeta>)
      returns (after: map<Address, RewardMeta>)
      requires a in role.stakers && role.TimeOk(a) && role.p.createTime <= endTime <= MAX_UINT64
      ensures after == if role.stakers[a] < endTime then before[a := role.Record(claimer, a, endTime)] else before
    {
      if role.stakers[a] >= endTime {
        return before;
      }
      var base: UInt64 := 0;
      if a != claimer {
        role.Populated(a);
        base := StakerReword(role.p.Rate(role.kind, |role.stakers|), role.p.createTime,
                             Find(role.rewards, a), role.stakers[a], endTime);
      }
      after := before[a := RewardMeta(base, endTime)];
    }

    /** CalcReward for a staker: an address that has staked shares with at least itself. */
    method CalcReward(kind: StakerKind, a: Address, endTime: nat) returns (reward: Option<UInt64>)
      requires kind in stakers && RoleOf(kind).TimesOk() && p.createTime <= endTime <= MAX_UINT64
      ensures reward.Some? <==> a in stakers[kind] && stakers[kind][a] <= endTime
      ensures reward.Some? ==> RoleOf(kind).TimeOk(a) && reward.value == RoleOf(kind).Owed(a, endTime)
    {
      if a !in stakers[kind] || endTime < stakers[kind][a] {
        return None;
      }
      var role := RoleOf(kind);
      role.Populated(a);
      assert role.TimeOk(a);
      var base := StakerReword(p.Rate(kind, |role.stakers|), p.createTime, Find(rewards, a), role.stakers[a], endTime);
      reward := Some(base);
    }

    /** CacheRewardsCommit, for the records that have been written. */
    method Commit()
      modifies this`rewards, this`pendingAdd
      ensures rewards == old(rewards + pendingAdd) && pendingAdd == map[]
    {
      var left := pendingAdd.Keys;
      while left != {}
        invariant left <= pendingAdd.Keys && pendingAdd == old(pendingAdd)
        invariant rewards == old(rewards) + (map a | a in pendingAdd && a !in left :: pendingAdd[a])
        decreases left
      {
        var a :| a in left;
        rewards := rewards[a := pendingAdd[a]];
        left := left - {a};
      }
      assert pendingAdd == map a | a in pendingAdd && a !in left :: pendingAdd[a];
      pendingAdd := map[];
    }
  }

  // ---------- the settlements of a block ----------

  /** A claim or an unstaking of a kind, which pays its sender and then settles the kind, or
      a new stake, which only settles it. */
  datatype Claim = Claim(claimer: Address, time: nat)

  /** A claim up to an earlier time than the last update fails, and the block with it. */
  ghost predicate ClaimsOk(created: nat, lastUpdateTime: nat, claims: seq<Claim>) {
    forall i {:trigger claims[i]} :: 0 <= i < |claims| ==>
      created <= claims[i].time <= MAX_UINT64 && lastUpdateTime <= claims[i].time
  }

  /** The settlement writes a record for who staked at the given time. */
  predicate Touches(stakedAt: nat, lastUpdateTime: nat, c: Claim) {
    stakedAt < c.time && lastUpdateTime < c.time
  }

  /** The last settlement of the block that does. */
  function LastTouch(stakedAt: nat, lastUpdateTime: nat, claims: seq<Claim>): (last: Option<Claim>)
    ensures last.Some? ==> Touches(stakedAt, lastUpdateTime, last.value) && last.value in claims
  {
    if claims == [] then None
    else if Touches(stakedAt, lastUpdateTime, claims[|claims| - 1]) then Some(claims[|claims| - 1])
    else LastTouch(stakedAt, lastUpdateTime, claims[..|claims| - 1])
  }

  /** What the last of the settlements so far has written: all of them start from the
      committed record. */
  ghost function Written(acc: Account, lastUpdateTime: nat, a: Address, claims: seq<Claim>): Option<RewardMeta>
    requires acc.Ok() && ClaimsOk(acc.created, lastUpdateTime, claims)
  {
    var last := LastTouch(acc.stakedAt, lastUpdateTime, claims);
    if last.None? then None
    else Some(RewardMeta(if last.value.claimer == a then 0 else acc.Owed(last.value.time), last.value.time))
  }

  /** The record after the block. */
  ghost function Left(acc: Account, lastUpdateTime: nat, a: Address, claims: seq<Claim>): Option<RewardMeta>
    requires acc.Ok() && ClaimsOk(acc.created, lastUpdateTime, claims)
  {
    var written := Written(acc, lastUpdateTime, a, claims);
    if written.Some? then written else acc.reward
  }

  /** What a claim pays to an address. */
  ghost function Payment(acc: Account, a: Address, c: Claim): UInt64
    requires acc.Ok() && acc.created <= c.time
  {
    if c.claimer == a && acc.stakedAt <= c.time then acc.Owed(c.time) else 0
  }

  ghost function PaidTo(acc: Account, a: Address, claims: seq<Claim>): nat
    requires acc.Ok() && ClaimsOk(acc.created, 0, claims)
  {
    if claims == [] then 0
    else PaidTo(acc, a, claims[..|claims| - 1]) + Payment(acc, a, claims[|claims| - 1])
  }

  /** What the block pays to an address apart from its last settlement. */
  ghost function PaidTwice(acc: Account, lastUpdateTime: nat, a: Address, claims: seq<Claim>): nat
    requires acc.Ok() && ClaimsOk(acc.created, lastUpdateTime, claims)
  {
    if claims == [] then 0
    else
      var rest, last := claims[..|claims| - 1], claims[|claims| - 1];
      if Touches(acc.stakedAt, lastUpdateTime, last) then PaidTo(acc, a, rest)
      else PaidTwice(acc, lastUpdateTime, a, rest) + Payment(acc, a, last)
  }

  /** What a block pays to an address and still owes it exceed what it owed at the last
      settlement by exactly what the block's other settlements have paid. */
  lemma {:induction false} BlockBalance(acc: Account, lastUpdateTime: nat, a: Address, claims: seq<Claim>)
    requires acc.Ok() && ClaimsOk(acc.created, lastUpdateTime, claims)
    ensures var written := Written(acc, lastUpdateTime, a, claims);
            if written.None? then PaidTo(acc, a, claims) == PaidTwice(acc, lastUpdateTime, a, claims)
            else
              acc.created <= written.value.lastOprTime
              && PaidTo(acc, a, claims) + written.value.baseReward ==
                 acc.Owed(written.value.lastOprTime) + PaidTwice(acc, lastUpdateTime, a, claims)
  {
    if claims != [] && !Touches(acc.stakedAt, lastUpdateTime, claims[|claims| - 1]) {
      BlockBalance(acc, lastUpdateTime, a, claims[..|claims| - 1]);
    }
  }

  /** The claim is the last settlement that writes a record. */
  predicate IsLastTouch(stakedAt: nat, lastUpdateTime: nat, claims: seq<Claim>, i: nat)
    requires i < |claims|
  {
    && Touches(stakedAt, lastUpdateTime, claims[i])
    && forall j :: i < j < |claims| ==> !Touches(stakedAt, lastUpdateTime, claims[j])
  }

  lemma {:induction false} PaidNothing(acc: Account, a: Address, claims: seq<Claim>)
    requires acc.Ok() && ClaimsOk(acc.created, 0, claims)
    ensures PaidTo(acc, a, claims) == 0 <==> forall i :: 0 <= i < |claims| ==> Payment(acc, a, claims[i]) == 0
  {
    if claims != [] {
      var n := |claims| - 1;
      PaidNothing(acc, a, claims[..n]);
      assert forall i :: 0 <= i < n ==> claims[..n][i] == claims[i];
    }
  }

  lemma {:induction false} PaidTwiceIff(acc: Account, lastUpdateTime: nat, a: Address, claims: seq<Claim>)
    requires acc.Ok() && ClaimsOk(acc.created, lastUpdateTime, claims)
    ensures PaidTwice(acc, lastUpdateTime, a, claims) == 0 <==>
            forall i :: 0 <= i < |claims| && !IsLastTouch(acc.stakedAt, lastUpdateTime, claims, i) ==>
              Payment(acc, a, claims[i]) == 0
  {
    if claims != [] {
      var n := |claims| - 1;
      var rest := claims[..n];
      assert forall i :: 0 <= i < n ==> rest[i] == claims[i];
      if Touches(acc.stakedAt, lastUpdateTime, claims[n]) {
        PaidNothing(acc, a, rest);
        assert IsLastTouch(acc.stakedAt, lastUpdateTime, claims, n);
        assert forall i :: 0 <= i < n ==> !IsLastTouch(acc.stakedAt, lastUpdateTime, claims, i);
      } else {
        PaidTwiceIff(acc, lastUpdateTime, a, rest);
        assert forall i :: 0 <= i < n ==> (IsLastTouch(acc.stakedAt, lastUpdateTime, claims, i)
                                           <==> IsLastTouch(acc.stakedAt, lastUpdateTime, rest, i));
      }
    }
  }

  /** All settlements of a block read the committed record and overwrite what the ones before
      have written.  What a block pays to a staker and still owes it is what it owed at the
      last settlement, if and only if every claim but the last settlement pays it nothing. */
  lemma BlockPaysOnceIff(acc: Account, lastUpdateTime: nat, a: Address, claims: seq<Claim>)
    requires acc.Ok() && ClaimsOk(acc.created, lastUpdateTime, claims)
    requires LastTouch(acc.stakedAt, lastUpdateTime, claims).Some?
    ensures var written := Written(acc, lastUpdateTime, a, claims).value;
            acc.created <= written.lastOprTime
            && (PaidTo(acc, a, claims) + written.baseReward == acc.Owed(written.lastOprTime) <==>
                forall i :: 0 <= i < |claims| && !IsLastTouch(acc.stakedAt, lastUpdateTime, claims, i) ==>
                  Payment(acc, a, claims[i]) == 0)
  {
    BlockBalance(acc, lastUpdateTime, a, claims);
    PaidTwiceIff(acc, lastUpdateTime, a, claims);
  }

  /** If all settle at one time: exactly if the staker is owed nothing, or claims last if at
      all. */
  lemma SameTimePaysOnceIff(acc: Account, lastUpdateTime: nat, a: Address, claims: seq<Claim>, time: nat)
    requires acc.Ok() && acc.created <= time <= MAX_UINT64 && acc.stakedAt < time && lastUpdateTime < time
    requires claims != [] && forall i {:trigger claims[i]} :: 0 <= i < |claims| ==> claims[i].time == time
    ensures Written(acc, lastUpdateTime, a, claims).Some?
    ensures PaidTo(acc, a, claims) + Written(acc, lastUpdateTime, a, claims).value.baseReward == acc.Owed(time) <==>
            acc.Owed(time) == 0 || forall i :: 0 <= i < |claims| - 1 ==> claims[i].claimer != a
  {
    BlockPaysOnceIff(acc, lastUpdateTime, a, claims);
    var n := |claims| - 1;
    assert IsLastTouch(acc.stakedAt, lastUpdateTime, claims, n);
    forall i | 0 <= i < n ensures !IsLastTouch(acc.stakedAt, lastUpdateTime, claims, i) {
      assert Touches(acc.stakedAt, lastUpdateTime, claims[n]);
    }
  }

  /** Who staked no earlier than a settlement keeps the record: claims at that time all pay
      what is carried over, and it stays owed. */
  lemma {:induction false} StakedNoEarlierKeepsRecord(acc: Account, lastUpdateTime: nat, a: Address, claims: seq<Claim>)
    requires acc.Ok() && ClaimsOk(acc.created, lastUpdateTime, claims)
    requires forall i {:trigger claims[i]} :: 0 <= i < |claims| ==> claims[i].time <= acc.stakedAt
    ensures Left(acc, lastUpdateTime, a, claims) == acc.reward
  {
    if claims != [] {
      StakedNoEarlierKeepsRecord(acc, lastUpdateTime, a, claims[..|claims| - 1]);
    }
  }

  /** So a claim at the very time of staking pays what was carried over and leaves it owed. */
  lemma ClaimAtStakeRepeats(acc: Account, a: Address)
    requires acc.Ok() && acc.created <= acc.stakedAt <= MAX_UINT64
    ensures PaidTo(acc, a, [Claim(a, acc.stakedAt)]) == acc.Owed(acc.stakedAt)
    ensures Left(acc, 0, a, [Claim(a, acc.stakedAt)]) == acc.reward
  {
    var claims := [Claim(a, acc.stakedAt)];
    StakedNoEarlierKeepsRecord(acc, 0, a, claims);
    assert PaidTo(acc, a, claims[..0]) == 0;
  }

  /** What a block pays to a staker and what it is owed later are what it would have been owed
      later without the block, exactly if nothing is overpaid or paid twice. */
  lemma BlockLosesNothing(acc: Account, lastUpdateTime: nat, a: Address, claims: seq<Claim>, end: nat)
    requires acc.Ok() && ClaimsOk(acc.created, lastUpdateTime, claims) && Since(acc.reward, acc.stakedAt) <= end
    requires var last := LastTouch(acc.stakedAt, lastUpdateTime, claims);
             last.Some? && Since(acc.reward, acc.stakedAt) <= last.value.time
    ensures var last, after := LastTouch(acc.stakedAt, lastUpdateTime, claims).value,
                               acc.(reward := Left(acc, lastUpdateTime, a, claims));
            after.Ok()
            && (Wrap(PaidTo(acc, a, claims) + after.Owed(end)) == acc.Owed(end) <==>
                Wrap(Overpaid(acc.rate, acc.created, last.time, end) + PaidTwice(acc, lastUpdateTime, a, claims)) == 0)
  {
    BlockBalance(acc, lastUpdateTime, a, claims);
    RecordGap(acc, Written(acc, lastUpdateTime, a, claims).value, PaidTo(acc, a, claims),
              PaidTwice(acc, lastUpdateTime, a, claims), end);
  }

  // ---------- runs of blocks ----------

  /** Who stakes when the block is executed, and its settlements of the kind. */
  datatype Block = Block(stakers: map<Address, nat>, claims: seq<Claim>)

  ghost predicate RewardsOk(p: Params, rewards: map<Address, RewardMeta>) {
    forall b {:trigger rewards[b]} :: b in rewards ==> p.createTime <= rewards[b].lastOprTime <= MAX_UINT64
  }

  ghost predicate BlockOk(p: Params, lastUpdateTime: nat, b: Block) {
    && (forall a {:trigger b.stakers[a]} :: a in b.stakers ==> p.createTime <= b.stakers[a] <= MAX_UINT64)
    && ClaimsOk(p.createTime, lastUpdateTime, b.claims)
  }

  function PaidOut(paid: map<Address, nat>, a: Address): nat {
    if a in paid then paid[a] else 0
  }

  /** The record of an address after one more settlement of the block. */
  ghost function WriteNext(role: Role, lastUpdateTime: nat, c: Claim, a: Address, before: Option<RewardMeta>)
    : Option<RewardMeta>
    requires role.TimesOk() && role.p.createTime <= c.time
  {
    if a in role.stakers && Touches(role.stakers[a], lastUpdateTime, c) then
      assert role.TimeOk(a);
      Some(RewardMeta(if c.claimer == a then 0 else role.AccountOf(a).Owed(c.time), c.time))
    else before
  }

  /** One claim of a block: what the claimer is owed is paid, then everybody is settled, in
      records that are not committed yet. */
  method SettleClaim(s: RewardState, kind: StakerKind, c: Claim) returns (pay: UInt64)
    requires kind in s.stakers && s.RoleOf(kind).TimesOk()
    requires s.p.createTime <= c.time <= MAX_UINT64 && s.lastUpdateTime <= c.time
    modifies s`pendingAdd
    ensures c.claimer !in s.stakers[kind] ==> pay == 0
    ensures c.claimer in s.stakers[kind] ==>
              var acc := s.RoleOf(kind).AccountOf(c.claimer);
              acc.Ok() && pay == Payment(acc, c.claimer, c)
    ensures forall a {:trigger Find(s.pendingAdd, a)} ::
              Find(s.pendingAdd, a) ==
              WriteNext(s.RoleOf(kind), s.lastUpdateTime, c, a, Find(old(s.pendingAdd), a))
  {
    ghost var role, before := s.RoleOf(kind), s.pendingAdd;
    var reward := s.CalcReward(kind, c.claimer, c.time);
    pay := if reward.Some? then reward.value else 0;
    if c.claimer in role.stakers {
      assert role.TimeOk(c.claimer);
    }
    var _ := s.UpdateStakerReward(kind, c.claimer, c.time);
    forall a ensures Find(s.pendingAdd, a) == WriteNext(role, s.lastUpdateTime, c, a, Find(before, a)) {
      if s.lastUpdateTime < c.time {
        assert role.RecordOk(c.claimer, c.time, role.stakers.Keys, before, s.pendingAdd, a);
      }
    }
  }

  /** The settlements of a block, and what they pay to whom. */
  method SettleClaims(s: RewardState, kind: StakerKind, claims: seq<Claim>) returns (paid: map<Address, nat>)
    requires kind in s.stakers && s.RoleOf(kind).TimesOk() && s.pendingAdd == map[]
    requires ClaimsOk(s.p.createTime, s.lastUpdateTime, claims)
    modifies s`pendingAdd
    ensures AllPaid(s.RoleOf(kind), claims, paid)
    ensures AllWritten(s.RoleOf(kind), s.lastUpdateTime, claims, s.pendingAdd)
  {
    ghost var role := s.RoleOf(kind);
    ghost var done: seq<Claim> := [];
    paid := map[];
    NothingYet(role, s.lastUpdateTime);
    for i := 0 to |claims|
      invariant done == claims[..i]
      invariant AllPaid(role, done, paid) && AllWritten(role, s.lastUpdateTime, done, s.pendingAdd)
    {
      ghost var before, paidBefore, next := s.pendingAdd, paid, done + [claims[i]];
      assert next[..i] == done;
      var pay := SettleClaim(s, kind, claims[i]);
      paid := paid[claims[i].claimer := PaidOut(paid, claims[i].claimer) + pay];
      forall a ensures PaidOk(role, next, paid, a) {
        assert PaidOk(role, done, paidBefore, a);
        assert PaidOut(paid, a) == PaidOut(paidBefore, a) + if a == claims[i].claimer then pay else 0;
      }
      forall a ensures WrittenOk(role, s.lastUpdateTime, next, s.pendingAdd, a) {
        assert WrittenOk(role, s.lastUpdateTime, done, before, a);
        assert Find(s.pendingAdd, a) == WriteNext(role, s.lastUpdateTime, claims[i], a, Find(before, a));
      }
      done := next;
    }
    assert done == claims;
  }

  ghost predicate PaidOk(role: Role, claims: seq<Claim>, paid: map<Address, nat>, a: Address)
    requires role.TimesOk() && ClaimsOk(role.p.createTime, 0, claims)
  {
    if a in role.stakers then
      assert role.TimeOk(a);
      PaidOut(paid, a) == PaidTo(role.AccountOf(a), a, claims)
    else PaidOut(paid, a) == 0
  }

  ghost predicate WrittenOk(role: Role, lastUpdateTime: nat, claims: seq<Claim>, written: map<Address, RewardMeta>,
                            a: Address)
    requires role.TimesOk() && ClaimsOk(role.p.createTime, lastUpdateTime, claims)
  {
    if a in role.stakers then
      assert role.TimeOk(a);
      Find(written, a) == Written(role.AccountOf(a), lastUpdateTime, a, claims)
    else Find(written, a) == None
  }

  ghost predicate AllPaid(role: Role, claims: seq<Claim>, paid: map<Address, nat>)
    requires role.TimesOk() && ClaimsOk(role.p.createTime, 0, claims)
  {
    forall a {:trigger PaidOk(role, claims, paid, a)} :: PaidOk(role, claims, paid, a)
  }

  ghost predicate AllWritten(role: Role, lastUpdateTime: nat, claims: seq<Claim>, written: map<Address, RewardMeta>)
    requires role.TimesOk() && ClaimsOk(role.p.createTime, lastUpdateTime, claims)
  {
    forall a {:trigger WrittenOk(role, lastUpdateTime, claims, written, a)} ::
      WrittenOk(role, lastUpdateTime, claims, written, a)
  }

  lemma NothingYet(role: Role, lastUpdateTime: nat)
    requires role.TimesOk()
    ensures AllPaid(role, [], map[]) && AllWritten(role, lastUpdateTime, [], map[])
  {
    forall a ensures PaidOk(role, [], map[], a) && WrittenOk(role, lastUpdateTime, [], map[], a) {
      if a in role.stakers {
        assert role.TimeOk(a);
        assert PaidTo(role.AccountOf(a), a, []) == 0;
        assert Written(role.AccountOf(a), lastUpdateTime, a, []) == None;
      }
    }
  }

  ghost predicate RewardOk(p: Params, reward: Option<RewardMeta>) {
    reward.Some? ==> p.createTime <= reward.value.lastOprTime <= MAX_UINT64
  }

  /** The account of a staker of the block. */
  ghost function AccountIn(p: Params, kind: StakerKind, b: Block, a: Address, reward: Option<RewardMeta>): Account
    requires a in b.stakers
  {
    assert b.stakers.Keys != {};
    Account(p.Rate(kind, |b.stakers|), p.createTime, reward, b.stakers[a])
  }

  ghost function LeftIn(p: Params, kind: StakerKind, lastUpdateTime: nat, b: Block, a: Address,
                        reward: Option<RewardMeta>): Option<RewardMeta>
    requires BlockOk(p, lastUpdateTime, b) && RewardOk(p, reward)
  {
    if a in b.stakers then Left(AccountIn(p, kind, b, a, reward), lastUpdateTime, a, b.claims) else reward
  }

  ghost function PaidIn(p: Params, kind: StakerKind, lastUpdateTime: nat, b: Block, a: Address,
                        reward: Option<RewardMeta>): nat
    requires BlockOk(p, lastUpdateTime, b) && RewardOk(p, reward)
  {
    if a in b.stakers then PaidTo(AccountIn(p, kind, b, a, reward), a, b.claims) else 0
  }

  /** A block on the state: its settlements pay and write, and are committed together. */
  method PlayBlock(s: RewardState, kind: StakerKind, b: Block) returns (paid: map<Address, nat>)
    requires s.pendingAdd == map[] && RewardsOk(s.p, s.rewards) && BlockOk(s.p, s.lastUpdateTime, b)
    modifies s
    ensures s.pendingAdd == map[] && RewardsOk(s.p, s.rewards) && s.lastUpdateTime == old(s.lastUpdateTime)
    ensures forall a {:trigger Find(s.rewards, a)} {:trigger PaidOut(paid, a)} ::
              CommittedOk(Role(s.p, kind, b.stakers, old(s.rewards)), s.lastUpdateTime, b, paid, s.rewards, a)
  {
    s.stakers := s.stakers[kind := b.stakers];
    ghost var role := s.RoleOf(kind);
    forall a | a in role.stakers ensures role.TimeOk(a) {}
    paid := SettleClaims(s, kind, b.claims);
    ghost var written := s.pendingAdd;
    s.Commit();
    forall a ensures CommittedOk(role, s.lastUpdateTime, b, paid, s.rewards, a) {
      CommittedAt(role, s.lastUpdateTime, b, paid, written, a);
    }
    forall a | a in s.rewards ensures RewardOk(s.p, Find(s.rewards, a)) {
      assert CommittedOk(role, s.lastUpdateTime, b, paid, s.rewards, a);
    }
  }

  /** What an address is paid by the block and how it stands afterwards. */
  ghost predicate CommittedOk(role: Role, lastUpdateTime: nat, b: Block, paid: map<Address, nat>,
                              after: map<Address, RewardMeta>, a: Address)
    requires BlockOk(role.p, lastUpdateTime, b)
  {
    var before := Find(role.rewards, a);
    && RewardOk(role.p, before) && RewardOk(role.p, Find(after, a))
    && PaidOut(paid, a) == PaidIn(role.p, role.kind, lastUpdateTime, b, a, before)
    && Find(after, a) == LeftIn(role.p, role.kind, lastUpdateTime, b, a, before)
  }

  lemma CommittedAt(role: Role, lastUpdateTime: nat, b: Block, paid: map<Address, nat>,
                    written: map<Address, RewardMeta>, a: Address)
    requires BlockOk(role.p, lastUpdateTime, b) && RewardsOk(role.p, role.rewards)
    requires role.TimesOk() && role.stakers == b.stakers
    requires PaidOk(role, b.claims, paid, a) && WrittenOk(role, lastUpdateTime, b.claims, written, a)
    ensures CommittedOk(role, lastUpdateTime, b, paid, role.rewards + written, a)
  {
    assert a in role.rewards ==> Find(role.rewards, a) == Some(role.rewards[a]);
  }

  /** The address stakes in every block, as it has since it staked; the others may come and
      go. */
  ghost predicate StakesIn(p: Params, lastUpdateTime: nat, a: Address, stakedAt: nat, blocks: seq<Block>) {
    forall i {:trigger blocks[i]} :: 0 <= i < |blocks| ==>
      BlockOk(p, lastUpdateTime, blocks[i]) && a in blocks[i].stakers && blocks[i].stakers[a] == stakedAt
  }

  /** What the blocks are for the address: of each block the last settlement that writes. */
  ghost function Settlements(p: Params, kind: StakerKind, lastUpdateTime: nat, a: Address, stakedAt: nat,
                             blocks: seq<Block>): seq<Settlement>
    requires StakesIn(p, lastUpdateTime, a, stakedAt, blocks)
  {
    if blocks == [] then []
    else
      var rest := Settlements(p, kind, lastUpdateTime, a, stakedAt, blocks[1..]);
      match LastTouch(stakedAt, lastUpdateTime, blocks[0].claims)
      case None => rest
      case Some(c) => [Settlement(AccountIn(p, kind, blocks[0], a, None).rate, c.time, c.claimer == a)] + rest
  }

  /** What the blocks pay to the address apart from those settlements. */
  ghost function Twice(p: Params, kind: StakerKind, lastUpdateTime: nat, a: Address, stakedAt: nat, blocks: seq<Block>,
                       reward: Option<RewardMeta>): nat
    requires StakesIn(p, lastUpdateTime, a, stakedAt, blocks) && RewardOk(p, reward)
  {
    if blocks == [] then 0
    else
      PaidTwice(AccountIn(p, kind, blocks[0], a, reward), lastUpdateTime, a, blocks[0].claims)
      + Twice(p, kind, lastUpdateTime, a, stakedAt, blocks[1..], LeftIn(p, kind, lastUpdateTime, blocks[0], a, reward))
  }

  /** What the blocks will pay to the address and then owe it, if they are in order of time. */
  ghost function PaidAndLeft(p: Params, kind: StakerKind, lastUpdateTime: nat, a: Address, stakedAt: nat,
                             blocks: seq<Block>, reward: Option<RewardMeta>): int
    requires StakesIn(p, lastUpdateTime, a, stakedAt, blocks) && RewardOk(p, reward) && p.createTime <= stakedAt
    requires InOrder(Since(reward, stakedAt), Settlements(p, kind, lastUpdateTime, a, stakedAt, blocks))
  {
    PaidAndOwed(p.createTime, RewardMeta(Carried(reward), Since(reward, stakedAt)),
                Settlements(p, kind, lastUpdateTime, a, stakedAt, blocks))
    + Twice(p, kind, lastUpdateTime, a, stakedAt, blocks, reward)
  }

  /** The settlements of the first block and of the others. */
  lemma FirstSettlement(p: Params, kind: StakerKind, lastUpdateTime: nat, a: Address, stakedAt: nat, blocks: seq<Block>)
    requires StakesIn(p, lastUpdateTime, a, stakedAt, blocks) && blocks != []
    ensures StakesIn(p, lastUpdateTime, a, stakedAt, blocks[1..])
    ensures Settlements(p, kind, lastUpdateTime, a, stakedAt, blocks) ==
            (match LastTouch(stakedAt, lastUpdateTime, blocks[0].claims)
             case None => []
             case Some(c) => [Settlement(AccountIn(p, kind, blocks[0], a, None).rate, c.time, c.claimer == a)])
            + Settlements(p, kind, lastUpdateTime, a, stakedAt, blocks[1..])
  {}

  lemma NextBlock(p: Params, kind: StakerKind, lastUpdateTime: nat, a: Address, stakedAt: nat, b: Block,
                  reward: Option<RewardMeta>, run: seq<Settlement>, rest: seq<Settlement>)
    requires BlockOk(p, lastUpdateTime, b) && a in b.stakers && b.stakers[a] == stakedAt
    requires RewardOk(p, reward) && p.createTime <= stakedAt && InOrder(Since(reward, stakedAt), run)
    requires run == (match LastTouch(stakedAt, lastUpdateTime, b.claims)
                     case None => []
                     case Some(c) => [Settlement(AccountIn(p, kind, b, a, None).rate, c.time, c.claimer == a)]) + rest
    ensures var left := LeftIn(p, kind, lastUpdateTime, b, a, reward);
            && RewardOk(p, left) && InOrder(Since(left, stakedAt), rest)
            && PaidAndOwed(p.createTime, RewardMeta(Carried(reward), Since(reward, stakedAt)), run)
               + PaidTwice(AccountIn(p, kind, b, a, reward), lastUpdateTime, a, b.claims) ==
               PaidIn(p, kind, lastUpdateTime, b, a, reward)
               + PaidAndOwed(p.createTime, RewardMeta(Carried(left), Since(left, stakedAt)), rest)
  {
    var acc := AccountIn(p, kind, b, a, reward);
    BlockBalance(acc, lastUpdateTime, a, b.claims);
    var last := LastTouch(stakedAt, lastUpdateTime, b.claims);
    if last.None? {
      assert run == rest;
    } else {
      var first := Settlement(acc.rate, last.value.time, last.value.claimer == a);
      assert run == [first] + rest;
      PaidNext(p.createTime, RewardMeta(Carried(reward), Since(reward, stakedAt)), first, rest);
      assert Written(acc, lastUpdateTime, a, b.claims) ==
             Some(RewardMeta(if first.claimed then 0 else acc.Owed(first.time), first.time));
    }
  }

  lemma PaidNext(created: nat, reward: RewardMeta, first: Settlement, rest: seq<Settlement>)
    requires created <= reward.lastOprTime && InOrder(reward.lastOprTime, [first] + rest)
    ensures InOrder(first.time, rest)
    ensures var owed := Wrap(reward.baseReward + Net(first.rate, created, reward.lastOprTime, first.time));
            PaidAndOwed(created, reward, [first] + rest) ==
            (if first.claimed then owed else 0)
            + PaidAndOwed(created, RewardMeta(if first.claimed then 0 else owed, first.time), rest)
  {
    assert ([first] + rest)[1..] == rest;
  }

  /** The blocks one by one. */
  method PlayBlocks(s: RewardState, kind: StakerKind, a: Address, ghost stakedAt: nat, blocks: seq<Block>)
    returns (paid: nat)
    requires s.pendingAdd == map[] && RewardsOk(s.p, s.rewards) && s.p.createTime <= stakedAt
    requires StakesIn(s.p, s.lastUpdateTime, a, stakedAt, blocks) && RewardOk(s.p, Find(s.rewards, a))
    requires InOrder(Since(Find(s.rewards, a), stakedAt), Settlements(s.p, kind, s.lastUpdateTime, a, stakedAt, blocks))
    modifies s
    ensures s.pendingAdd == map[] && RewardsOk(s.p, s.rewards) && s.lastUpdateTime == old(s.lastUpdateTime)
    ensures paid + Carried(Find(s.rewards, a)) ==
            PaidAndLeft(s.p, kind, old(s.lastUpdateTime), a, stakedAt, blocks, Find(old(s.rewards), a))
    decreases |blocks|
  {
    if blocks == [] {
      return 0;
    }
    ghost var run := Settlements(s.p, kind, s.lastUpdateTime, a, stakedAt, blocks);
    FirstSettlement(s.p, kind, s.lastUpdateTime, a, stakedAt, blocks);
    NextBlock(s.p, kind, s.lastUpdateTime, a, stakedAt, blocks[0], Find(s.rewards, a), run,
              Settlements(s.p, kind, s.lastUpdateTime, a, stakedAt, blocks[1..]));
    var now := PlayBlock(s, kind, blocks[0]);
    assert Find(s.rewards, a) ==
           LeftIn(s.p, kind, s.lastUpdateTime, blocks[0], a, Find(old(s.rewards), a));
    var later := PlayBlocks(s, kind, a, stakedAt, blocks[1..]);
    paid := PaidOut(now, a) + later;
  }

  /** The total is what was owed at first, what accrued, and what was paid twice. */
  predicate MoreBy(total: int, owed: int, accrued: int, twice: nat) {
    && Wrap(total) == Wrap(owed + accrued + twice)
    && (Wrap(total) == Wrap(owed + accrued) <==> Wrap(twice) == 0)
  }

  lemma TwiceMore(created: nat, reward: RewardMeta, run: seq<Settlement>, twice: nat, total: int)
    requires created <= reward.lastOprTime && InOrder(reward.lastOprTime, run)
    requires total == PaidAndOwed(created, reward, run) + twice
    ensures MoreBy(total, reward.baseReward, Earned(created, reward.lastOprTime, run), twice)
  {
    var once, owed, accrued := PaidAndOwed(created, reward, run), reward.baseReward,
                               Earned(created, reward.lastOprTime, run);
    assert Wrap(once) == Wrap(owed + accrued) by {
      RunPaysEverySecondOnce(created, reward, run);
    }
    MoreByTwice(once, owed, accrued, twice, total);
  }

  lemma MoreByTwice(paidAndOwed: int, owed: int, accrued: int, twice: nat, total: int)
    requires Wrap(paidAndOwed) == Wrap(owed + accrued) && total == paidAndOwed + twice
    ensures MoreBy(total, owed, accrued, twice)
  {
    WrapSum(paidAndOwed, twice);
    WrapSum(owed + accrued, twice);
    WrapDifference(owed + accrued, twice);
  }

  lemma LeftIsAccrued(p: Params, kind: StakerKind, lastUpdateTime: nat, a: Address, stakedAt: nat, blocks: seq<Block>,
                      reward: Option<RewardMeta>)
    requires StakesIn(p, lastUpdateTime, a, stakedAt, blocks) && RewardOk(p, reward) && p.createTime <= stakedAt
    requires InOrder(Since(reward, stakedAt), Settlements(p, kind, lastUpdateTime, a, stakedAt, blocks))
    ensures MoreBy(PaidAndLeft(p, kind, lastUpdateTime, a, stakedAt, blocks, reward),
                   Carried(reward), Earned(p.createTime, Since(reward, stakedAt),
                                           Settlements(p, kind, lastUpdateTime, a, stakedAt, blocks)),
                   Twice(p, kind, lastUpdateTime, a, stakedAt, blocks, reward))
  {
    var first, run := RewardMeta(Carried(reward), Since(reward, stakedAt)),
                      Settlements(p, kind, lastUpdateTime, a, stakedAt, blocks);
    var twice := Twice(p, kind, lastUpdateTime, a, stakedAt, blocks, reward);
    TwiceMore(p.createTime, first, run, twice, PaidAndLeft(p, kind, lastUpdateTime, a, stakedAt, blocks, reward));
  }

  /** Over any run of blocks in order of time, while the other stakers come and go, what an
      address is paid and is still owed exceed what accrued to it second by second by exactly
      what is paid apart from the last settlement of each block; so they come to the same if
      and only if that is nothing. */
  method RunPays(s: RewardState, kind: StakerKind, a: Address, ghost stakedAt: nat, blocks: seq<Block>)
    returns (paid: nat)
    requires s.pendingAdd == map[] && RewardsOk(s.p, s.rewards) && s.p.createTime <= stakedAt
    requires StakesIn(s.p, s.lastUpdateTime, a, stakedAt, blocks) && RewardOk(s.p, Find(s.rewards, a))
    requires InOrder(Since(Find(s.rewards, a), stakedAt), Settlements(s.p, kind, s.lastUpdateTime, a, stakedAt, blocks))
    modifies s
    ensures s.pendingAdd == map[] && RewardsOk(s.p, s.rewards) && s.lastUpdateTime == old(s.lastUpdateTime)
    ensures var before, lastUpdateTime := Find(old(s.rewards), a), old(s.lastUpdateTime);
            MoreBy(paid + Carried(Find(s.rewards, a)),
                   Carried(before), Earned(s.p.createTime, Since(before, stakedAt),
                                           Settlements(s.p, kind, lastUpdateTime, a, stakedAt, blocks)),
                   Twice(s.p, kind, lastUpdateTime, a, stakedAt, blocks, before))
  {
    LeftIsAccrued(s.p, kind, s.lastUpdateTime, a, stakedAt, blocks, Find(s.rewards, a));
    paid := PlayBlocks(s, kind, a, stakedAt, blocks);
  }

  /** It is nothing if the address claims only in settlements that are the last ones to write
      in their blocks. */
  lemma {:induction false} LastClaimsPayOnce(p: Params, kind: StakerKind, lastUpdateTime: nat, a: Address,
                                             stakedAt: nat, blocks: seq<Block>, reward: Option<RewardMeta>)
    requires StakesIn(p, lastUpdateTime, a, stakedAt, blocks) && RewardOk(p, reward)
    requires forall n, i {:trigger blocks[n].claims[i]} :: 0 <= n < |blocks| && 0 <= i < |blocks[n].claims| ==>
               blocks[n].claims[i].claimer != a || IsLastTouch(stakedAt, lastUpdateTime, blocks[n].claims, i)
    ensures Twice(p, kind, lastUpdateTime, a, stakedAt, blocks, reward) == 0
    decreases |blocks|
  {
    if blocks != [] {
      PaidTwiceIff(AccountIn(p, kind, blocks[0], a, reward), lastUpdateTime, a, blocks[0].claims);
      LastClaimsPayOnce(p, kind, lastUpdateTime, a, stakedAt, blocks[1..],
                        LeftIn(p, kind, lastUpdateTime, blocks[0], a, reward));
    }
  }

  /** Two tokens a second for all stakers together, for two stakers who claim in one block. */
  const TWO_A_SECOND := Params(0, _ => 2 * SECONDS_YEAR, _ => 100, _ => 100)

  function TwoClaims(a: Address, b: Address): Block {
    Block(map[a := 0, b := 0], [Claim(a, 1), Claim(b, 1)])
  }

  lemma TwoClaimsPayTwice(p: Params, a: Address, b: Address, acc: Account)
    requires a != b && p.createTime == 0 && acc == Account(p.Rate(Route, 2), 0, None, 0)
    ensures BlockOk(p, 0, TwoClaims(a, b))
    ensures PaidIn(p, Route, 0, TwoClaims(a, b), a, None) == acc.Owed(1)
    ensures LeftIn(p, Route, 0, TwoClaims(a, b), a, None) == Some(RewardMeta(acc.Owed(1), 1))
  {
    var block := TwoClaims(a, b);
    assert block.stakers.Keys == {a, b};
    assert AccountIn(p, Route, block, a, None) == acc;
    FirstClaimIsPaidTwice(acc, a, b, block.claims);
  }

  lemma FirstClaimIsPaidTwice(acc: Account, a: Address, b: Address, claims: seq<Claim>)
    requires a != b && claims == [Claim(a, 1), Claim(b, 1)]
    requires acc.Ok() && acc.stakedAt == 0 == acc.created
    ensures PaidTo(acc, a, claims) == acc.Owed(1) && Left(acc, 0, a, claims) == Some(RewardMeta(acc.Owed(1), 1))
  {
    assert claims[..1] == [Claim(a, 1)] && claims[..1][..0] == [];
    assert PaidTo(acc, a, claims[..1]) == PaidTo(acc, a, []) + Payment(acc, a, Claim(a, 1));
  }

  lemma OneTokenEach(rate: nat -> nat)
    requires rate == TWO_A_SECOND.Rate(Route, 2)
    ensures Account(rate, 0, None, 0).Owed(1) == 1
  {
    assert TWO_A_SECOND.YearlyBase(Route, 0) == 2 * SECONDS_YEAR;
    assert rate(0) == Quotient(2 * SECONDS_YEAR, 2 * SECONDS_YEAR) == 1;
    assert Accrued(rate, 0, 0, 1) == Accrued(rate, 0, 0, 0) + rate(YearOf(0, 0));
  }

  /** One staker claims and then another claims in the same block: what the first has been
      paid it is owed again.  OneTokenEach gives parameters for which that is not nothing. */
  method ClaimIsPaidTwice(p: Params, a: Address, b: Address, ghost acc: Account)
    returns (s: RewardState, paid: map<Address, nat>)
    requires a != b && p.createTime == 0 && acc == Account(p.Rate(Route, 2), 0, None, 0)
    ensures PaidOut(paid, a) == acc.Owed(1) && a in s.rewards && s.rewards[a] == RewardMeta(acc.Owed(1), 1)
  {
    s := new RewardState(p, map[], 0, map[]);
    TwoClaimsPayTwice(p, a, b, acc);
    paid := PlayBlock(s, Route, TwoClaims(a, b));
    assert Find(s.rewards, a) == LeftIn(p, Route, 0, TwoClaims(a, b), a, None);
  }
}
