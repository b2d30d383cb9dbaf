/** Driver earnings: the filtered and paged list, the summary fold, the paid total, and marking an
    earning as paid. Amounts are integer cents. */
module Earnings {
  import opened Wrappers
  import opened StableSort

  datatype EarningType = TripCompletion | Bonus | Tip | Referral | Penalty
  datatype EarningStatus = Pending | Processed | Paid | Disputed | Cancelled

  datatype Day = Day(year: int, month: int, day: int)
  type Date = d: Day | 1 <= d.month <= 12 && 1 <= d.day <= 31 witness Day(1970, 1, 1)

  /** Orders dates as the calendar does. */
  function DayKey(d: Date): int { (d.year * 12 + d.month) * 31 + d.day }

  predicate Earlier(a: Date, b: Date) {
    a.year < b.year || (a.year == b.year && (a.month < b.month || (a.month == b.month && a.day < b.day)))
  }

  lemma DayKeyIsCalendar(a: Date, b: Date)
    ensures DayKey(a) < DayKey(b) <==> Earlier(a, b)
  {
  }

  datatype Earning = Earning(
    id: string, driverId: string, tripId: Option<string>, earningType: EarningType,
    grossAmount: int, platformFee: int, tax: int, otherDeductions: int, netAmount: int,
    status: EarningStatus, earningDate: Date,
    payoutDate: Option<Date>, payoutMethod: Option<string>, payoutReference: Option<string>)

  // ----- selection and sums -----

  function Select(es: seq<Earning>, p: Earning -> bool): seq<Earning> {
    if es == [] then []
    else Select(es[..|es| - 1], p) + if p(es[|es| - 1]) then [es[|es| - 1]] else []
  }

  function Sum(es: seq<Earning>, f: Earning -> int): int {
    if es == [] then 0 else Sum(es[..|es| - 1], f) + f(es[|es| - 1])
  }

  lemma SumSnoc(es: seq<Earning>, e: Earning, f: Earning -> int)
    ensures Sum(es + [e], f) == Sum(es, f) + f(e)
  {
    assert (es + [e])[..|es|] == es;
  }

  /** Summing over a selection is summing the selected terms. */
  lemma {:induction false} SumSelect(es: seq<Earning>, p: Earning -> bool, f: Earning -> int, g: Earning -> int)
    requires forall e :: g(e) == if p(e) then f(e) else 0
    ensures Sum(Select(es, p), f) == Sum(es, g)
  {
    if es != [] {
      var init, e := es[..|es| - 1], es[|es| - 1];
      SumSelect(init, p, f, g);
      if p(e) {
        SumSnoc(Select(init, p), e, f);
      } else {
        assert Select(init, p) + [] == Select(init, p);
      }
    }
  }

  // ----- the summary -----

  datatype Summary = Summary(
    totalGross: int, totalNet: int, totalFees: int, totalTax: int, totalDeductions: int, totalPaid: int, totalEarnings: int)

  function PaidNet(e: Earning): int { if e.status.Paid? then e.netAmount else 0 }

  function SummaryOf(es: seq<Earning>): Summary {
    Summary(Sum(es, (e: Earning) => e.grossAmount), Sum(es, (e: Earning) => e.netAmount), Sum(es, (e: Earning) => e.platformFee),
            Sum(es, (e: Earning) => e.tax), Sum(es, (e: Earning) => e.otherDeductions), Sum(es, PaidNet), |es|)
  }

  function Add(a: Summary, b: Summary): Summary {
    Summary(a.totalGross + b.totalGross, a.totalNet + b.totalNet, a.totalFees + b.totalFees, a.totalTax + b.totalTax,
            a.totalDeductions + b.totalDeductions, a.totalPaid + b.totalPaid, a.totalEarnings + b.totalEarnings)
  }

  function OneEarning(e: Earning): Summary {
    Summary(e.grossAmount, e.netAmount, e.platformFee, e.tax, e.otherDeductions, PaidNet(e), 1)
  }

  /** A year or month of 0 or undefined does not filter. */
  predicate Asked(n: Option<int>) { n.Some? && n.value != 0 }

  predicate InPeriod(e: Earning, driver: string, year: Option<int>, month: Option<int>) {
    && e.driverId == driver
    && (Asked(year) ==> e.earningDate.year == year.value)
    && (Asked(month) ==> e.earningDate.month == month.value)
  }

  function Period(rows: seq<Earning>, driver: string, year: Option<int>, month: Option<int>): seq<Earning> {
    Select(rows, (e: Earning) => InPeriod(e, driver, year, month))
  }

  lemma SummarySnoc(es: seq<Earning>, e: Earning)
    ensures SummaryOf(es + [e]) == Add(SummaryOf(es), OneEarning(e))
  {
    SumSnoc(es, e, (x: Earning) => x.grossAmount);
    SumSnoc(es, e, (x: Earning) => x.netAmount);
    SumSnoc(es, e, (x: Earning) => x.platformFee);
    SumSnoc(es, e, (x: Earning) => x.tax);
    SumSnoc(es, e, (x: Earning) => x.otherDeductions);
    SumSnoc(es, e, PaidNet);
  }

  // ----- the paid total, as the database sums it -----

  function PaidOf(rows: seq<Earning>, driver: string): seq<Earning> {
    Select(rows, (e: Earning) => e.driverId == driver && e.status.Paid?)
  }

  function DriverTotalEarnings(rows: seq<Earning>, driver: string): int {
    Sum(PaidOf(rows, driver), (e: Earning) => e.netAmount)
  }

  /** The two ways the service computes what a driver has been paid agree. */
  lemma PaidTotalsAgree(rows: seq<Earning>, driver: string)
    ensures SummaryOf(Period(rows, driver, None, None)).totalPaid == DriverTotalEarnings(rows, driver)
  {
    var g := (e: Earning) => if e.driverId == driver then PaidNet(e) else 0;
    SumSelect(rows, (e: Earning) => InPeriod(e, driver, None, None), PaidNet, g);
    SumSelect(rows, (e: Earning) => e.driverId == driver && e.status.Paid?, (e: Earning) => e.netAmount, g);
  }

  // ----- twelve months make a year -----

  /** One field of the summaries of months 1 .. m of a year, added up. */
  function MonthsTotal(rows: seq<Earning>, driver: string, year: int, m: nat, f: Earning -> int): int {
    if m == 0 then 0
    else MonthsTotal(rows, driver, year, m - 1, f) + Sum(Period(rows, driver, Some(year), Some(m)), f)
  }

  lemma {:induction false} SumPlus(es: seq<Earning>, a: Earning -> int, b: Earning -> int, c: Earning -> int)
    requires forall e :: e in es ==> c(e) == a(e) + b(e)
    ensures Sum(es, c) == Sum(es, a) + Sum(es, b)
  {
    if es != [] {
      assert es[|es| - 1] in es;
      SumPlus(es[..|es| - 1], a, b, c);
    }
  }

  /** f on the driver's earnings from month lo to month hi of the year, and nothing elsewhere. */
  function Masked(driver: string, year: int, lo: int, hi: int, f: Earning -> int): Earning -> int {
    (e: Earning) => if e.driverId == driver && e.earningDate.year == year && lo <= e.earningDate.month <= hi then f(e) else 0
  }

  lemma MonthIsMasked(rows: seq<Earning>, driver: string, year: int, m: nat, f: Earning -> int)
    requires year != 0 && m > 0
    ensures Sum(Period(rows, driver, Some(year), Some(m)), f) == Sum(rows, Masked(driver, year, m, m, f))
  {
    SumSelect(rows, (e: Earning) => InPeriod(e, driver, Some(year), Some(m)), f, Masked(driver, year, m, m, f));
  }

  lemma YearIsMasked(rows: seq<Earning>, driver: string, year: int, f: Earning -> int)
    requires year != 0
    ensures Sum(Period(rows, driver, Some(year), None), f) == Sum(rows, Masked(driver, year, 1, 12, f))
  {
    var g := (e: Earning) => if InPeriod(e, driver, Some(year), None) then f(e) else 0;
    SumSelect(rows, (e: Earning) => InPeriod(e, driver, Some(year), None), f, g);
    SumNothing(rows);
    SumPlus(rows, Masked(driver, year, 1, 12, f), (e: Earning) => 0, g);
  }

  lemma {:induction false} SumNothing(es: seq<Earning>)
    ensures Sum(es, (e: Earning) => 0) == 0
  {
    if es != [] { SumNothing(es[..|es| - 1]); }
  }

  lemma {:induction false} MonthsAreMasked(rows: seq<Earning>, driver: string, year: int, m: nat, f: Earning -> int)
    requires year != 0
    ensures MonthsTotal(rows, driver, year, m, f) == Sum(rows, Masked(driver, year, 1, m, f))
  {
    if m == 0 {
      SumNothing(rows);
      SumPlus(rows, (e: Earning) => 0, (e: Earning) => 0, Masked(driver, year, 1, 0, f));
    } else {
      MonthsAreMasked(rows, driver, year, m - 1, f);
      MonthIsMasked(rows, driver, year, m, f);
      SumPlus(rows, Masked(driver, year, 1, m - 1, f), Masked(driver, year, m, m, f), Masked(driver, year, 1, m, f));
    }
  }

  lemma MonthsMakeAYear(rows: seq<Earning>, driver: string, year: int, f: Earning -> int)
    requires year != 0
    ensures MonthsTotal(rows, driver, year, 12, f) == Sum(Period(rows, driver, Some(year), None), f)
  {
    MonthsAreMasked(rows, driver, year, 12, f);
    YearIsMasked(rows, driver, year, f);
  }

  lemma {:induction false} SumOfOnes(es: seq<Earning>)
    ensures Sum(es, (e: Earning) => 1) == |es|
  {
    if es != [] { SumOfOnes(es[..|es| - 1]); }
  }

  /** The summaries of the twelve months add up, field by field, to the summary of the year. */
  lemma MonthsAddUp(rows: seq<Earning>, driver: string, year: int)
    requires year != 0
    ensures var ofYear := SummaryOf(Period(rows, driver, Some(year), None));
            && ofYear.totalGross == MonthsTotal(rows, driver, year, 12, (e: Earning) => e.grossAmount)
            && ofYear.totalNet == MonthsTotal(rows, driver, year, 12, (e: Earning) => e.netAmount)
            && ofYear.totalFees == MonthsTotal(rows, driver, year, 12, (e: Earning) => e.platformFee)
            && ofYear.totalTax == MonthsTotal(rows, driver, year, 12, (e: Earning) => e.tax)
            && ofYear.totalDeductions == MonthsTotal(rows, driver, year, 12, (e: Earning) => e.otherDeductions)
            && ofYear.totalPaid == MonthsTotal(rows, driver, year, 12, PaidNet)
            && ofYear.totalEarnings == MonthsTotal(rows, driver, year, 12, (e: Earning) => 1)
  {
    MonthsMakeAYear(rows, driver, year, (e: Earning) => e.grossAmount);
    MonthsMakeAYear(rows, driver, year, (e: Earning) => e.netAmount);
    MonthsMakeAYear(rows, driver, year, (e: Earning) => e.platformFee);
    MonthsMakeAYear(rows, driver, year, (e: Earning) => e.tax);
    MonthsMakeAYear(rows, driver, year, (e: Earning) => e.otherDeductions);
    MonthsMakeAYear(rows, driver, year, PaidNet);
    MonthsMakeAYear(rows, driver, year, (e: Earning) => 1);
    SumOfOnes(Period(rows, driver, Some(year), None));
  }

  // ----- marking as paid -----

  function MarkPaid(e: Earning, today: Date, reference: string, payout: string): Earning {
    e.(status := Paid, payoutDate := Some(today), payoutReference := Some(reference), payoutMethod := Some(payout))
  }

  predicate DistinctIds(rows: seq<Earning>) { forall i, j :: 0 <= i < j < |rows| ==> rows[i].id != rows[j].id }

  /** Replacing one row changes the driver's total by the difference of what the two rows count. */
  lemma {:induction false} ReplaceRow(rows: seq<Earning>, i: nat, e: Earning, driver: string)
    requires i < |rows|
    ensures var counted := (x: Earning) => if x.driverId == driver then PaidNet(x) else 0;
            DriverTotalEarnings(rows[i := e], driver) == DriverTotalEarnings(rows, driver) + counted(e) - counted(rows[i])
  {
    var g := (x: Earning) => if x.driverId == driver then PaidNet(x) else 0;
    var p, f := (x: Earning) => x.driverId == driver && x.status.Paid?, (x: Earning) => x.netAmount;
    SumSelect(rows, p, f, g);
    SumSelect(rows[i := e], p, f, g);
    SumReplace(rows, i, e, g);
  }

  lemma {:induction false} SumReplace(rows: seq<Earning>, i: nat, e: Earning, g: Earning -> int)
    requires i < |rows|
    ensures Sum(rows[i := e], g) == Sum(rows, g) + g(e) - g(rows[i])
  {
    var n := |rows| - 1;
    if i < n {
      assert rows[i := e][..n] == rows[..n][i := e];
      SumReplace(rows[..n], i, e, g);
    } else {
      assert rows[i := e][..n] == rows[..n];
    }
  }

  class DriverEarningsService {
    var rows: seq<Earning>

    constructor (rows: seq<Earning>)
      ensures this.rows == rows
    {
      this.rows := rows;
    }

    /** The reduce over the selected earnings. */
    method GetDriverEarningsSummary(driver: string, year: Option<int>, month: Option<int>) returns (acc: Summary)
      ensures acc == SummaryOf(Period(rows, driver, year, month))
    {
      var earnings := Period(rows, driver, year, month);
      acc := Summary(0, 0, 0, 0, 0, 0, |earnings|);
      for i := 0 to |earnings|
        invariant acc == SummaryOf(earnings[..i]).(totalEarnings := |earnings|)
      {
        var e := earnings[i];
        assert earnings[..i + 1] == earnings[..i] + [e];
        SummarySnoc(earnings[..i], e);
        acc := acc.(totalGross := acc.totalGross + e.grossAmount, totalNet := acc.totalNet + e.netAmount,
                    totalFees := acc.totalFees + e.platformFee, totalTax := acc.totalTax + e.tax,
                    totalDeductions := acc.totalDeductions + e.otherDeductions);
        if e.status == Paid {
          acc := acc.(totalPaid := acc.totalPaid + e.netAmount);
        }
      }
      assert earnings[..|earnings|] == earnings;
    }

    method FindOne(id: string) returns (at: Option<nat>)
      ensures at.Some? ==> at.value < |rows| && rows[at.value].id == id
      ensures at.None? ==> forall i :: 0 <= i < |rows| ==> rows[i].id != id
    {
      for i := 0 to |rows|
        invariant forall j :: 0 <= j < i ==> rows[j].id != id
      {
        if rows[i].id == id { return Some(i); }
      }
      at := None;
    }

    /** Marking an earning as paid adds its net amount to its driver's total unless it was paid
        already, so exactly once however often it is repeated; no other driver's total moves. */
    method MarkAsPaid(id: string, today: Date, reference: string, payout: string) returns (found: bool)
      requires DistinctIds(rows)
      modifies this
      ensures DistinctIds(rows) && |rows| == |old(rows)|
      ensures found <==> exists i :: 0 <= i < |rows| && old(rows)[i].id == id
      ensures forall i :: 0 <= i < |rows| ==>
                var was := old(rows)[i];
                rows[i] == if was.id == id
                  then Earning(was.id, was.driverId, was.tripId, was.earningType, was.grossAmount, was.platformFee, was.tax,
                               was.otherDeductions, was.netAmount, Paid, was.earningDate, Some(today), Some(payout), Some(reference))
                  else was
      ensures forall i, driver :: 0 <= i < |rows| && old(rows)[i].id == id ==>
                DriverTotalEarnings(rows, driver) == DriverTotalEarnings(old(rows), driver)
                  + if old(rows)[i].driverId == driver && !old(rows)[i].status.Paid? then old(rows)[i].netAmount else 0
      ensures !found ==> rows == old(rows)
    {
      var at := FindOne(id);
      if at.None? { return false; }
      var i := at.value;
      var earning := MarkPaid(rows[i], today, reference, payout);
      forall driver
        ensures DriverTotalEarnings(rows[i := earning], driver) == DriverTotalEarnings(rows, driver)
                  + if rows[i].driverId == driver && !rows[i].status.Paid? then rows[i].netAmount else 0
      {
        ReplaceRow(rows, i, earning, driver);
      }
      rows := rows[i := earning];
      found := true;
    }
  }

  // ----- filtering and paging -----

  datatype Filter = Filter(
    driverId: Option<string>, tripId: Option<string>, earningType: Option<EarningType>, status: Option<EarningStatus>,
    earningDateFrom: Option<Date>, earningDateTo: Option<Date>,
    payoutDateFrom: Option<Date>, payoutDateTo: Option<Date>, payoutMethod: Option<string>)

  predicate Between(d: Date, from: Date, to: Date) { DayKey(from) <= DayKey(d) <= DayKey(to) }

  /** A date range filters only when both ends are given. */
  predicate Passes(e: Earning, f: Filter) {
    && (f.driverId.Some? && f.driverId.value != "" ==> e.driverId == f.driverId.value)
    && (f.tripId.Some? && f.tripId.value != "" ==> e.tripId == f.tripId)
    && (f.earningType.Some? ==> e.earningType == f.earningType.value)
    && (f.status.Some? ==> e.status == f.status.value)
    && (f.earningDateFrom.Some? && f.earningDateTo.Some? ==> Between(e.earningDate, f.earningDateFrom.value, f.earningDateTo.value))
    && (f.payoutDateFrom.Some? && f.payoutDateTo.Some? ==>
          e.payoutDate.Some? && Between(e.payoutDate.value, f.payoutDateFrom.value, f.payoutDateTo.value))
    && (f.payoutMethod.Some? && f.payoutMethod.value != "" ==> e.payoutMethod == f.payoutMethod)
  }

  /** Some criterion of the filter that is set speaks against the earning. */
  predicate Hides(f: Filter, e: Earning) {
    || f.driverId !in {None, Some(""), Some(e.driverId)} || f.tripId !in {None, Some(""), e.tripId}
    || f.earningType !in {None, Some(e.earningType)} || f.status !in {None, Some(e.status)}
    || f.payoutMethod !in {None, Some(""), e.payoutMethod}
    || (f.earningDateFrom != None && f.earningDateTo != None &&
          (Earlier(e.earningDate, f.earningDateFrom.value) || Earlier(f.earningDateTo.value, e.earningDate)))
    || (f.payoutDateFrom != None && f.payoutDateTo != None &&
          (e.payoutDate == None || Earlier(e.payoutDate.value, f.payoutDateFrom.value) || Earlier(f.payoutDateTo.value, e.payoutDate.value)))
  }

  lemma PassesUnlessHidden(e: Earning, f: Filter)
    ensures Passes(e, f) <==> !Hides(f, e)
  {
    if f.earningDateFrom.Some? && f.earningDateTo.Some? {
      DayKeyIsCalendar(e.earningDate, f.earningDateFrom.value);
      DayKeyIsCalendar(f.earningDateTo.value, e.earningDate);
    }
    if f.payoutDateFrom.Some? && f.payoutDateTo.Some? && e.payoutDate.Some? {
      DayKeyIsCalendar(e.payoutDate.value, f.payoutDateFrom.value);
      DayKeyIsCalendar(f.payoutDateTo.value, e.payoutDate.value);
    }
  }

  /** No earning comes before a later one. */
  predicate LatestFirst(es: seq<Earning>) {
    forall i, j :: 0 <= i < j < |es| ==> !Earlier(es[i].earningDate, es[j].earningDate)
  }

  lemma DescendingIsLatestFirst(es: seq<Earning>)
    requires Descending(es, DateKey)
    ensures LatestFirst(es)
  {
    forall i, j | 0 <= i < j < |es| ensures !Earlier(es[i].earningDate, es[j].earningDate) {
      DayKeyIsCalendar(es[i].earningDate, es[j].earningDate);
    }
  }

  function DateKey(e: Earning): real { DayKey(e.earningDate) as real }

  /** The whole filtered list, latest earnings first. */
  function Filtered(rows: seq<Earning>, f: Filter): seq<Earning> {
    SortDesc(Select(rows, (e: Earning) => Passes(e, f)), DateKey)
  }

  /** `Math.ceil(total / limit)` */
  function TotalPages(total: nat, limit: nat): nat
    requires limit > 0
  {
    (total + limit - 1) / limit
  }

  /** OFFSET and LIMIT */
  function Cut(list: seq<Earning>, skip: nat, limit: nat): seq<Earning> {
    if skip >= |list| then [] else list[skip..if skip + limit <= |list| then skip + limit else |list|]
  }

  /** Rows skip .. skip + limit of the list, with skip = (page - 1) * limit. */
  function Page(list: seq<Earning>, page: nat, limit: nat): seq<Earning>
    requires page > 0 && limit > 0
  {
    Cut(list, (page - 1) * limit, limit)
  }

  function Pages(list: seq<Earning>, n: nat, limit: nat): seq<Earning>
    requires limit > 0
  {
    if n == 0 then [] else Pages(list, n - 1, limit) + Page(list, n, limit)
  }

  lemma {:induction false} PagesArePrefix(list: seq<Earning>, n: nat, limit: nat)
    requires limit > 0
    ensures Pages(list, n, limit) == if n * limit <= |list| then list[..n * limit] else list
  {
    if n > 0 {
      PagesArePrefix(list, n - 1, limit);
      var skip := (n - 1) * limit;
      assert n * limit == skip + limit;
      JoinPage(list, skip, limit);
      if skip <= |list| { assert Pages(list, n - 1, limit) == list[..skip]; }
      assert Page(list, n, limit) == Cut(list, skip, limit);
    }
  }

  lemma JoinPage(list: seq<Earning>, skip: nat, limit: nat)
    ensures (if skip <= |list| then list[..skip] else list) + Cut(list, skip, limit)
            == if skip + limit <= |list| then list[..skip + limit] else list
  {
  }

  /** Pages 1 .. totalPages, one after the other, are the whole list: nothing is shown twice and
      nothing is missed. Every page but the last is full, and none of them is empty. */
  lemma PagesCoverTheList(list: seq<Earning>, limit: nat)
    requires limit > 0
    ensures var pages := TotalPages(|list|, limit);
            && Pages(list, pages, limit) == list
            && (forall p :: 1 <= p < pages ==> |Page(list, p, limit)| == limit)
            && (pages > 0 ==> 1 <= |Page(list, pages, limit)| <= limit)
  {
    var pages := TotalPages(|list|, limit);
    PagesArePrefix(list, pages, limit);
    CeilDivision(|list|, limit);
    forall p | 1 <= p < pages ensures |Page(list, p, limit)| == limit {
      FullPage(list, p, pages, limit);
    }
    if pages > 0 { LastPage(list, pages, limit); }
  }

  lemma CeilDivision(n: nat, d: nat)
    requires d > 0
    ensures n <= TotalPages(n, d) * d < n + d
  {
    var q := (n + d - 1) / d;
    assert n + d - 1 == q * d + (n + d - 1) % d;
  }

  lemma FullPage(list: seq<Earning>, p: nat, pages: nat, limit: nat)
    requires 1 <= p < pages && limit > 0 && pages * limit < |list| + limit
    ensures |Page(list, p, limit)| == limit
  {
    MulMono(p, pages - 1, limit);
    assert p * limit == (p - 1) * limit + limit;
    assert pages * limit == (pages - 1) * limit + limit;
  }

  lemma MulMono(a: nat, b: nat, c: nat)
    requires a <= b
    ensures a * c <= b * c
  {
    assert b * c == a * c + (b - a) * c;
  }

  lemma LastPage(list: seq<Earning>, pages: nat, limit: nat)
    requires pages > 0 && limit > 0 && |list| <= pages * limit < |list| + limit
    ensures 1 <= |Page(list, pages, limit)| <= limit
  {
    assert pages * limit == (pages - 1) * limit + limit;
  }

  /** The list shown is the rows that pass, each as often as it is there, latest first. */
  lemma FilteredFacts(rows: seq<Earning>, f: Filter, e: Earning)
    ensures multiset(Filtered(rows, f))[e] == if Hides(f, e) then 0 else multiset(rows)[e]
    ensures LatestFirst(Filtered(rows, f))
  {
    var s := Select(rows, (x: Earning) => Passes(x, f));
    SortDescFacts(s, DateKey);
    SelectCounts(rows, (x: Earning) => Passes(x, f), e);
    PassesUnlessHidden(e, f);
    DescendingIsLatestFirst(Filtered(rows, f));
  }

  /** The earnings a summary is about: those of the driver, of the year and of the month if these are
      asked for, each as often as it is there. */
  lemma PeriodFacts(rows: seq<Earning>, driver: string, year: Option<int>, month: Option<int>, e: Earning)
    ensures multiset(Period(rows, driver, year, month))[e] ==
              if e.driverId == driver && year in {None, Some(0), Some(e.earningDate.year)} && month in {None, Some(0), Some(e.earningDate.month)}
              then multiset(rows)[e] else 0
  {
    SelectCounts(rows, (x: Earning) => InPeriod(x, driver, year, month), e);
  }

  lemma {:induction false} SelectCounts(es: seq<Earning>, p: Earning -> bool, e: Earning)
    ensures multiset(Select(es, p))[e] == if p(e) then multiset(es)[e] else 0
  {
    if es != [] {
      SelectCounts(es[..|es| - 1], p, e);
      assert es == es[..|es| - 1] + [es[|es| - 1]];
    }
  }

  /** What a client gets who asks for pages 1 .. totalPages of a filtered list: every row that
      passes, as often as it is there, and no other; latest first across the pages. */
  lemma PagesShowTheFilteredRows(rows: seq<Earning>, f: Filter, limit: nat, e: Earning)
    requires limit > 0
    ensures var list := Filtered(rows, f);
            var shown := Pages(list, TotalPages(|list|, limit), limit);
            && multiset(shown)[e] == (if Hides(f, e) then 0 else multiset(rows)[e])
            && LatestFirst(shown)
            && |shown| == |list|
  {
    FilteredFacts(rows, f, e);
    PagesCoverTheList(Filtered(rows, f), limit);
  }
}
