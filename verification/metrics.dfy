/**
 * Derived fund metrics with confidence-banded check-size estimates
 * (`services/metrics.py`).
 *
 * Dates are day numbers and "today" is a parameter.  The fractional
 * constants of the estimator (reserves, 0.75, 1.35, the deployment
 * percentage) are exact reals, and Python's `int(x)` of a non-negative
 * float is `.Floor`.
 */
module Metrics {
  import opened Options
  import opened Edgar

  /** `deployment_status`: "unknown", "active", "late" or "harvest". */
  datatype Status = Unknown | Active | Late | Harvest {
    function Label(): string {
      match this
      case Unknown => "unknown"
      case Active => "active"
      case Late => "late"
      case Harvest => "harvest"
    }
  }

  /** `confidence`: "low", "medium" or "high". */
  datatype Confidence = Low | Medium | High {
    function Label(): string {
      match this
      case Low => "low"
      case Medium => "medium"
      case High => "high"
    }
  }

  datatype FirmMetrics = FirmMetrics(
    fundSize: int,
    lpCount: int,
    firstClose: Option<int>,
    fundAgeMonths: int,
    deploymentStatus: Status,
    checkLow: int,
    checkMid: int,
    checkHigh: int,
    confidence: Confidence,
    filingCount: nat,
    daysSinceLast: int)

  /** What `estimate_check_size` returns: `(check_low, check_mid, check_high, confidence)`. */
  datatype Estimate = Estimate(low: int, mid: int, high: int, confidence: Confidence)

  // ---------------------------------------------------------------------------
  // max / min over lists
  // ---------------------------------------------------------------------------

  /** Python's `max(s)` of a non-empty list of integers. */
  function MaxOf(s: seq<int>): (m: int)
    requires s != []
    ensures m in s
    ensures forall x :: x in s ==> x <= m
  {
    if |s| == 1 then s[0]
    else
      var rest := MaxOf(s[1..]);
      assert forall x :: x in s ==> x == s[0] || x in s[1..];
      if s[0] >= rest then s[0] else rest
  }

  /** Python's `min(s)` of a non-empty list of integers. */
  function MinOf(s: seq<int>): (m: int)
    requires s != []
    ensures m in s
    ensures forall x :: x in s ==> m <= x
  {
    if |s| == 1 then s[0]
    else
      var rest := MinOf(s[1..]);
      assert forall x :: x in s ==> x == s[0] || x in s[1..];
      if s[0] <= rest then s[0] else rest
  }

  /** `[x for x in xs if x is not None]`, without the option wrapper. */
  function Present(xs: seq<Option<int>>): (r: seq<int>)
    ensures forall v :: v in r <==> Some(v) in xs
  {
    if xs == [] then []
    else
      assert forall o :: o in xs <==> o == xs[0] || o in xs[1..];
      (if xs[0].Some? then [xs[0].value] else []) + Present(xs[1..])
  }

  /** `[x for x in xs if x]`: the values that are neither None nor zero. */
  function Truthy(xs: seq<Option<int>>): (r: seq<int>)
    ensures forall v :: v in r <==> v != 0 && Some(v) in xs
  {
    if xs == [] then []
    else
      assert forall o :: o in xs <==> o == xs[0] || o in xs[1..];
      (if xs[0].Some? && xs[0].value != 0 then [xs[0].value] else []) + Truthy(xs[1..])
  }

  /** `x or default` for an optional integer: None and 0 are both falsy. */
  function OrElse(x: Option<int>, default: int): (r: int)
    ensures x.Some? && x.value != 0 ==> r == x.value
    ensures x.None? || x.value == 0 ==> r == default
  {
    if x.Some? && x.value != 0 then x.value else default
  }

  /** The optional numeric fields of a filing that the metrics read. */
  datatype Field = OfferingAmount | InvestorCount | MinimumInvestment | FirstSale | Filed

  function Get(f: FormDFiling, field: Field): Option<int> {
    match field
    case OfferingAmount => f.totalOfferingAmount
    case InvestorCount => f.investorCount
    case MinimumInvestment => f.minimumInvestment
    case FirstSale => f.dateOfFirstSale
    case Filed => f.filingDate
  }

  /** One field of every filing, in list order. */
  function Column(filings: seq<FormDFiling>, field: Field): (r: seq<Option<int>>)
    ensures |r| == |filings|
    ensures forall i :: 0 <= i < |filings| ==> r[i] == Get(filings[i], field)
  {
    seq(|filings|, i requires 0 <= i < |filings| => Get(filings[i], field))
  }

  /** A value occurs in a column exactly when some filing has it in that field. */
  lemma ColumnMembers(filings: seq<FormDFiling>, field: Field)
    ensures forall o :: o in Column(filings, field) <==> exists f :: f in filings && Get(f, field) == o
  {
    var column := Column(filings, field);
    forall o ensures o in column <==> exists f :: f in filings && Get(f, field) == o {
      if o in column {
        var i :| 0 <= i < |column| && column[i] == o;
        assert filings[i] in filings;
      }
      if exists f :: f in filings && Get(f, field) == o {
        var f :| f in filings && Get(f, field) == o;
        var i :| 0 <= i < |filings| && filings[i] == f;
        assert column[i] == o;
      }
    }
  }

  // ---------------------------------------------------------------------------
  // calculate_metrics
  // ---------------------------------------------------------------------------

  /** A filing's contribution to the fund size: amount sold, else offering amount, else 0. */
  function Amount(f: FormDFiling): int {
    OrElse(f.totalAmountSold, OrElse(f.totalOfferingAmount, 0))
  }

  function Amounts(filings: seq<FormDFiling>): (r: seq<int>)
    ensures |r| == |filings|
    ensures forall i :: 0 <= i < |filings| ==> r[i] == Amount(filings[i])
  {
    seq(|filings|, i requires 0 <= i < |filings| => Amount(filings[i]))
  }

  function Defaulted(xs: seq<Option<int>>): (r: seq<int>)
    ensures |r| == |xs|
    ensures forall i :: 0 <= i < |xs| ==> r[i] == OrElse(xs[i], 0)
  {
    seq(|xs|, i requires 0 <= i < |xs| => OrElse(xs[i], 0))
  }

  /** The deployment phase of a fund of the given age in months. */
  function StatusFor(fundAgeMonths: int): (s: Status)
    ensures s != Unknown
  {
    if fundAgeMonths < 18 then Active
    else if fundAgeMonths < 42 then Late
    else Harvest
  }

  /** Whole 30-day months from `since` to `today`, rounded down as Python's `//` does. */
  function MonthsSince(today: int, since: int): int {
    (today - since) / 30
  }

  /** `fund_size`: the largest amount among the filings. */
  function FundSize(filings: seq<FormDFiling>): int
    requires filings != []
  {
    MaxOf(Amounts(filings))
  }

  /** `lp_count`: the largest investor count, a missing one read as 0. */
  function LpCount(filings: seq<FormDFiling>): int
    requires filings != []
  {
    MaxOf(Defaulted(Column(filings, InvestorCount)))
  }

  /** The earliest date a field holds among the filings, None when no filing has one. */
  function Earliest(filings: seq<FormDFiling>, field: Field): Option<int> {
    var dates := Present(Column(filings, field));
    if dates != [] then Some(MinOf(dates)) else None
  }

  /** `first_close`: the earliest date of first sale. */
  function FirstClose(filings: seq<FormDFiling>): Option<int> {
    Earliest(filings, FirstSale)
  }

  /** `fund_age_months`: months since the first close, else since the earliest filing date, else 0. */
  function FundAgeMonths(filings: seq<FormDFiling>, today: int): int {
    var origin := if FirstClose(filings).Some? then FirstClose(filings) else Earliest(filings, Filed);
    if origin.Some? then MonthsSince(today, origin.value) else 0
  }

  /** `min_investment`: the largest non-zero minimum investment, else 0. */
  function MinInvestment(filings: seq<FormDFiling>): int {
    var minInvestments := Truthy(Column(filings, MinimumInvestment));
    if minInvestments != [] then MaxOf(minInvestments) else 0
  }

  /** `target_size`: the largest offering amount, a missing one read as 0. */
  function TargetSize(filings: seq<FormDFiling>): int
    requires filings != []
  {
    MaxOf(Defaulted(Column(filings, OfferingAmount)))
  }

  /** `pct_deployed`: `fund_size / target_size`, or 0.0 when the target is not positive. */
  function PctDeployed(fundSize: int, filings: seq<FormDFiling>): real
    requires filings != []
  {
    var targetSize := TargetSize(filings);
    if targetSize > 0 then fundSize as real / targetSize as real else 0.0
  }

  /** `days_since_last`: days since the first filing in the list was filed, 0 without a date. */
  function DaysSinceLast(filings: seq<FormDFiling>, today: int): int
    requires filings != []
  {
    if filings[0].filingDate.Some? then today - filings[0].filingDate.value else 0
  }

  /**
   * `calculate_metrics(filings)` on the day `today`.  The filings are in the
   * order the caller passes them; the first one dates the latest activity.
   */
  function CalculateMetrics(filings: seq<FormDFiling>, today: int): (m: FirmMetrics)
    ensures filings == [] ==> m == FirmMetrics(0, 0, None, 0, Unknown, 0, 0, 0, Low, 0, 0)
    ensures filings != [] ==>
      && m.fundSize == FundSize(filings)
      && m.lpCount == LpCount(filings)
      && m.firstClose == FirstClose(filings)
      && m.fundAgeMonths == FundAgeMonths(filings, today)
      && m.deploymentStatus == StatusFor(m.fundAgeMonths)
      && (var e := EstimateCheckSize(m.fundSize, MinInvestment(filings), m.lpCount, m.fundAgeMonths,
                                     PctDeployed(m.fundSize, filings));
          m.checkLow == e.low && m.checkMid == e.mid && m.checkHigh == e.high && m.confidence == e.confidence)
      && 0 <= m.checkLow <= m.checkMid <= m.checkHigh
      && m.confidence != High
      && m.filingCount == |filings|
      && m.daysSinceLast == DaysSinceLast(filings, today)
  {
    if filings == [] then FirmMetrics(0, 0, None, 0, Unknown, 0, 0, 0, Low, 0, 0)
    else
      var fundSize := FundSize(filings);
      var fundAgeMonths := FundAgeMonths(filings, today);
      var e := EstimateCheckSize(fundSize, MinInvestment(filings), LpCount(filings), fundAgeMonths,
                                 PctDeployed(fundSize, filings));
      FirmMetrics(fundSize, LpCount(filings), FirstClose(filings), fundAgeMonths, StatusFor(fundAgeMonths),
                  e.low, e.mid, e.high, e.confidence, |filings|, DaysSinceLast(filings, today))
  }

  /** The fund size is the largest amount any filing reports (sold, else offered, else 0). */
  lemma FundSizeIsLargestAmount(filings: seq<FormDFiling>)
    requires filings != []
    ensures forall f :: f in filings ==> Amount(f) <= FundSize(filings)
    ensures exists f :: f in filings && Amount(f) == FundSize(filings)
  {
    var amounts := Amounts(filings);
    forall f | f in filings ensures Amount(f) <= FundSize(filings) {
      var i :| 0 <= i < |filings| && filings[i] == f;
      assert amounts[i] in amounts;
    }
    var i :| 0 <= i < |amounts| && amounts[i] == FundSize(filings);
    assert filings[i] in filings;
  }

  /** The LP count is the largest investor count any filing reports, a missing one read as 0. */
  lemma LpCountIsLargest(filings: seq<FormDFiling>)
    requires filings != []
    ensures forall f :: f in filings ==> OrElse(f.investorCount, 0) <= LpCount(filings)
    ensures exists f :: f in filings && OrElse(f.investorCount, 0) == LpCount(filings)
  {
    var counts := Defaulted(Column(filings, InvestorCount));
    forall f | f in filings ensures OrElse(f.investorCount, 0) <= LpCount(filings) {
      var i :| 0 <= i < |filings| && filings[i] == f;
      assert counts[i] in counts;
    }
    var i :| 0 <= i < |counts| && counts[i] == LpCount(filings);
    assert filings[i] in filings;
  }

  /** The target size is the largest offering amount any filing reports, a missing one read as 0. */
  lemma TargetSizeIsLargestOffering(filings: seq<FormDFiling>)
    requires filings != []
    ensures forall f :: f in filings ==> OrElse(f.totalOfferingAmount, 0) <= TargetSize(filings)
    ensures exists f :: f in filings && OrElse(f.totalOfferingAmount, 0) == TargetSize(filings)
  {
    var targets := Defaulted(Column(filings, OfferingAmount));
    forall f | f in filings ensures OrElse(f.totalOfferingAmount, 0) <= TargetSize(filings) {
      var i :| 0 <= i < |filings| && filings[i] == f;
      assert targets[i] in targets;
    }
    var i :| 0 <= i < |targets| && targets[i] == TargetSize(filings);
    assert filings[i] in filings;
  }

  lemma QuotientTimesDivisor(x: real, y: real)
    requires y > 0.0
    ensures (x / y) * y == x
  {
  }

  /** The deployment share times the target size is the fund size; without a positive target it is 0.0. */
  lemma PctDeployedIsShareOfTarget(fundSize: int, filings: seq<FormDFiling>)
    requires filings != []
    ensures TargetSize(filings) > 0 ==> PctDeployed(fundSize, filings) * TargetSize(filings) as real == fundSize as real
    ensures TargetSize(filings) <= 0 ==> PctDeployed(fundSize, filings) == 0.0
  {
    if TargetSize(filings) > 0 {
      QuotientTimesDivisor(fundSize as real, TargetSize(filings) as real);
    }
  }

  /** The earliest date in a field is one some filing holds and no later than any other. */
  lemma EarliestIsMinimum(filings: seq<FormDFiling>, field: Field)
    ensures Earliest(filings, field).None? <==> forall f :: f in filings ==> Get(f, field).None?
    ensures Earliest(filings, field).Some? ==>
              && (exists f :: f in filings && Get(f, field) == Earliest(filings, field))
              && (forall f :: f in filings && Get(f, field).Some? ==> Earliest(filings, field).value <= Get(f, field).value)
  {
    ColumnMembers(filings, field);
    var dates := Present(Column(filings, field));
    if dates != [] {
      assert dates[0] in dates;
    }
  }

  /** The first close is the earliest date of first sale, None when no filing has one. */
  lemma FirstCloseIsEarliest(filings: seq<FormDFiling>)
    ensures FirstClose(filings).None? <==> forall f :: f in filings ==> f.dateOfFirstSale.None?
    ensures FirstClose(filings).Some? ==>
              && (exists f :: f in filings && f.dateOfFirstSale == FirstClose(filings))
              && (forall f :: f in filings && f.dateOfFirstSale.Some? ==> FirstClose(filings).value <= f.dateOfFirstSale.value)
  {
    EarliestIsMinimum(filings, FirstSale);
  }

  /** The fund age counts whole 30-day months from the first close, else from the earliest filing date, else is 0. */
  lemma FundAgeFromFirstClose(filings: seq<FormDFiling>, today: int)
    ensures FirstClose(filings).Some? ==> FundAgeMonths(filings, today) == (today - FirstClose(filings).value) / 30
    ensures FirstClose(filings).None? && (exists f :: f in filings && f.filingDate.Some?) ==>
              exists f :: && f in filings && f.filingDate.Some?
                          && FundAgeMonths(filings, today) == (today - f.filingDate.value) / 30
                          && forall g :: g in filings && g.filingDate.Some? ==> f.filingDate.value <= g.filingDate.value
    ensures FirstClose(filings).None? && (forall f :: f in filings ==> f.filingDate.None?) ==>
              FundAgeMonths(filings, today) == 0
  {
    EarliestIsMinimum(filings, Filed);
    var e := Earliest(filings, Filed);
    if FirstClose(filings).None? && e.Some? {
      var f :| f in filings && Get(f, Filed) == e;
      assert FundAgeMonths(filings, today) == (today - f.filingDate.value) / 30;
      forall g | g in filings && g.filingDate.Some? ensures f.filingDate.value <= g.filingDate.value {
        assert Get(g, Filed) == g.filingDate;
      }
    }
    if exists f :: f in filings && f.filingDate.Some? {
      var f :| f in filings && f.filingDate.Some?;
      assert Get(f, Filed).Some?;
    }
  }

  /** The minimum investment is the largest non-zero one, 0 when no filing states one. */
  lemma MinInvestmentIsLargest(filings: seq<FormDFiling>)
    ensures MinInvestment(filings) == 0 <==> forall f :: f in filings ==> OrElse(f.minimumInvestment, 0) == 0
    ensures MinInvestment(filings) != 0 ==>
              && (exists f :: f in filings && f.minimumInvestment == Some(MinInvestment(filings)))
              && (forall f :: f in filings && OrElse(f.minimumInvestment, 0) != 0 ==>
                    f.minimumInvestment.value <= MinInvestment(filings))
  {
    ColumnMembers(filings, MinimumInvestment);
    var minInvestments := Truthy(Column(filings, MinimumInvestment));
    if minInvestments != [] {
      assert minInvestments[0] in minInvestments;
    }
  }

  // ---------------------------------------------------------------------------
  // estimate_check_size
  // ---------------------------------------------------------------------------

  /** A fund-size tier: the portfolio size range and the share kept in reserve. */
  datatype Tier = Tier(portfolioLow: int, portfolioHigh: int, reserve: real)

  const MinFundSize: int := 1_000_000

  /** The tier of a fund, by the thresholds 25M, 75M, 150M and 300M. */
  function TierOf(fundSize: int): (t: Tier)
    ensures 10 <= t.portfolioLow < t.portfolioHigh <= 50
    ensures 0.25 <= t.reserve <= 0.55
  {
    if fundSize < 25_000_000 then Tier(30, 50, 0.25)        // pre-seed
    else if fundSize < 75_000_000 then Tier(25, 40, 0.40)   // seed
    else if fundSize < 150_000_000 then Tier(20, 30, 0.45)  // large seed / small A
    else if fundSize < 300_000_000 then Tier(15, 25, 0.50)  // series A
    else Tier(10, 20, 0.55)                                 // growth
  }

  /** The portfolio size and reserve after the Form D signals, before clamping, and how many signals fired. */
  datatype Adjusted = Adjusted(portfolio: real, reserve: real, signals: nat)

  /** Signal 1: the minimum LP investment. */
  function MinInvestmentSignal(a: Adjusted, minInvestment: int): Adjusted {
    if minInvestment >= 1_000_000 then a.(signals := a.signals + 1)
    else if minInvestment > 0 && minInvestment < 100_000 then
      a.(signals := a.signals + 1, portfolio := a.portfolio - 3.0)
    else a
  }

  /** Signal 2: the average commitment per LP. */
  function LpCountSignal(a: Adjusted, fundSize: int, lpCount: int): Adjusted {
    if lpCount > 0 then
      var avgLpCheck := fundSize as real / lpCount as real;
      var b := a.(signals := a.signals + 1);
      if avgLpCheck < 500_000.0 then b.(portfolio := b.portfolio + 4.0)
      else if avgLpCheck > 5_000_000.0 then b.(portfolio := b.portfolio - 3.0)
      else b
    else a
  }

  /** Signal 3: the fund's age and how much of it is deployed. */
  function PaceSignal(a: Adjusted, fundAgeMonths: int, pctDeployed: real): Adjusted {
    if fundAgeMonths > 0 && pctDeployed > 0.0 then
      var b := a.(signals := a.signals + 1);
      var monthlyRate := pctDeployed / fundAgeMonths as real;
      if fundAgeMonths < 24 then
        if monthlyRate > 0.03 then b.(portfolio := b.portfolio + 4.0)
        else if monthlyRate < 0.015 then b.(portfolio := b.portfolio - 3.0)
        else b
      else
        if pctDeployed > 0.7 then b.(reserve := b.reserve - 0.05)
        else if pctDeployed < 0.4 then b.(portfolio := b.portfolio - 4.0)
        else b
    else a
  }

  /** The three signals applied in turn to the tier's midpoint and reserve. */
  function Adjust(t: Tier, fundSize: int, minInvestment: int, lpCount: int, fundAgeMonths: int, pctDeployed: real): (a: Adjusted)
    ensures t.reserve - 0.05 <= a.reserve <= t.reserve
    ensures a.signals <= 3
    ensures a.signals >= 1 <==>
      minInvestment >= 1_000_000 || 0 < minInvestment < 100_000 || lpCount > 0 || (fundAgeMonths > 0 && pctDeployed > 0.0)
  {
    var start := Adjusted((t.portfolioLow + t.portfolioHigh) as real / 2.0, t.reserve, 0);
    var a1 := MinInvestmentSignal(start, minInvestment);
    var a2 := LpCountSignal(a1, fundSize, lpCount);
    PaceSignal(a2, fundAgeMonths, pctDeployed)
  }

  /** `max(low, min(high, p))`. */
  function Clamp(p: real, low: int, high: int): (r: real)
    requires low <= high
    ensures low as real <= r <= high as real
    ensures low as real <= p <= high as real ==> r == p
  {
    var capped := if high as real <= p then high as real else p;
    if low as real >= capped then low as real else capped
  }

  /** The portfolio size the estimate divides by: the adjusted size clamped to the tier. */
  function Portfolio(fundSize: int, minInvestment: int, lpCount: int, fundAgeMonths: int, pctDeployed: real): real {
    var t := TierOf(fundSize);
    Clamp(Adjust(t, fundSize, minInvestment, lpCount, fundAgeMonths, pctDeployed).portfolio, t.portfolioLow, t.portfolioHigh)
  }

  /**
   * The three estimates for a deployable capital spread over a portfolio:
   * the middle one rounded down, the low one 75% and the high one 135% of it.
   */
  function CheckRange(deployable: real, portfolio: real): (e: Estimate)
    requires deployable >= 0.0 && portfolio > 0.0
    ensures 0 <= e.low <= e.mid <= e.high
    ensures e.mid as real <= deployable / portfolio < e.mid as real + 1.0
    ensures e.confidence == Low
  {
    var mid := (deployable / portfolio).Floor;
    var low := (mid as real * 0.75).Floor;
    var high := (mid as real * 1.35).Floor;
    Estimate(low, mid, high, Low)
  }

  /** The capital left to invest once the reserve is set aside. */
  function Deployable(fundSize: int, reserve: real): (d: real)
    requires fundSize >= 0 && reserve <= 1.0
    ensures d >= 0.0
  {
    PositiveProduct(fundSize as real, 1.0 - reserve);
    fundSize as real * (1.0 - reserve)
  }

  /** `estimate_check_size(fund_size, min_investment, lp_count, fund_age_months, pct_deployed)`. */
  function EstimateCheckSize(fundSize: int, minInvestment: int, lpCount: int, fundAgeMonths: int, pctDeployed: real): (e: Estimate)
    ensures fundSize < MinFundSize ==> e == Estimate(0, 0, 0, Low)
    ensures 0 <= e.low <= e.mid <= e.high
    ensures e.confidence != High
    ensures e.confidence == Medium <==>
      fundSize >= MinFundSize &&
      (minInvestment >= 1_000_000 || 0 < minInvestment < 100_000 || lpCount > 0 || (fundAgeMonths > 0 && pctDeployed > 0.0))
  {
    if fundSize < MinFundSize then Estimate(0, 0, 0, Low)
    else
      var t := TierOf(fundSize);
      var a := Adjust(t, fundSize, minInvestment, lpCount, fundAgeMonths, pctDeployed);
      var checks := CheckRange(Deployable(fundSize, a.reserve), Clamp(a.portfolio, t.portfolioLow, t.portfolioHigh));
      checks.(confidence := if a.signals >= 1 then Medium else Low)
  }

  lemma PositiveProduct(x: real, y: real)
    requires x >= 0.0 && y >= 0.0
    ensures x * y >= 0.0
  {
  }

  /** After clamping, the portfolio size lies within the fund's tier. */
  lemma PortfolioWithinTier(fundSize: int, minInvestment: int, lpCount: int, fundAgeMonths: int, pctDeployed: real)
    ensures var t := TierOf(fundSize);
            var p := Portfolio(fundSize, minInvestment, lpCount, fundAgeMonths, pctDeployed);
            t.portfolioLow as real <= p <= t.portfolioHigh as real
  {
  }

  /** The middle estimate is the deployable capital over the clamped portfolio size, rounded down. */
  lemma MidIsDeployableOverPortfolio(fundSize: int, minInvestment: int, lpCount: int, fundAgeMonths: int, pctDeployed: real)
    requires fundSize >= MinFundSize
    ensures var e := EstimateCheckSize(fundSize, minInvestment, lpCount, fundAgeMonths, pctDeployed);
            var p := Portfolio(fundSize, minInvestment, lpCount, fundAgeMonths, pctDeployed);
            var reserve := Adjust(TierOf(fundSize), fundSize, minInvestment, lpCount, fundAgeMonths, pctDeployed).reserve;
            e.mid as real <= Deployable(fundSize, reserve) / p < e.mid as real + 1.0
  {
  }

  /** A 20M pre-seed fund with no signals: 75% of the fund over 40 companies, so 375,000 per check. */
  lemma TwentyMillionNoSignals()
    ensures EstimateCheckSize(20_000_000, 0, 0, 0, 0.0) == Estimate(281_250, 375_000, 506_250, Low)
  {
    assert TierOf(20_000_000) == Tier(30, 50, 0.25);
    assert Portfolio(20_000_000, 0, 0, 0, 0.0) == 40.0;
  }

  /** Without signals, a larger fund in the same tier never gets a smaller middle estimate. */
  lemma MidMonotoneWithinTier(a: int, b: int)
    requires MinFundSize <= a <= b && TierOf(a) == TierOf(b)
    ensures EstimateCheckSize(a, 0, 0, 0, 0.0).mid <= EstimateCheckSize(b, 0, 0, 0, 0.0).mid
  {
    var t := TierOf(a);
    var p := (t.portfolioLow + t.portfolioHigh) as real / 2.0;
    assert Portfolio(a, 0, 0, 0, 0.0) == p == Portfolio(b, 0, 0, 0, 0.0);
    var r := 1.0 - t.reserve;
    assert a as real * r <= b as real * r by {
      PositiveProduct((b - a) as real, r);
    }
    assert a as real * r / p <= b as real * r / p;
  }

  /** Across the pre-seed / seed boundary the middle estimate drops. */
  lemma MidNotMonotoneAcrossTiers()
    ensures EstimateCheckSize(24_999_999, 0, 0, 0, 0.0).mid == 468_749
    ensures EstimateCheckSize(25_000_000, 0, 0, 0, 0.0).mid == 461_538
  {
    assert Portfolio(24_999_999, 0, 0, 0, 0.0) == 40.0;
    assert Portfolio(25_000_000, 0, 0, 0, 0.0) == 32.5;
  }
}
