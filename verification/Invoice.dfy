/** Invoices: what is charged for a period, and the reconciliation with the fees of its requests. */
module Invoice {
  import opened Money

  const API_TIER_PER_REQUEST := 100

  datatype LineKind = Subscription | ApiRequests | SavingsShare

  datatype InvoiceLine = InvoiceLine(kind: LineKind, quantity: int, unitAmount: int, amount: int)

  datatype Usage = Usage(requests: int, grossSavings: int)

  datatype Invoice = Invoice(
    lines: seq<InvoiceLine>,
    subscription: int,
    savingsFee: int,
    total: int,
    grossSavings: int,
    customerNet: int,
    requests: int)

  function SubscriptionPrice(plan: string): (r: int)
    ensures r >= 0 && (plan == "api" ==> r == 0)
  {
    if plan == "pro" then 2_900 * MICRO_CENTS_PER_CENT
    else if plan == "team" then 29_900 * MICRO_CENTS_PER_CENT
    else if plan == "enterprise" then 200_000 * MICRO_CENTS_PER_CENT
    else 0
  }

  /** What the usage-based tier charges for its requests. */
  function ApiCharge(plan: string, usage: Usage): int {
    if plan == "api" then API_TIER_PER_REQUEST * usage.requests else 0
  }

  function FeeOf(usage: Usage, basisPoints: nat): int { MulBasisPoints(FloorAtZero(usage.grossSavings), basisPoints) }

  function LineTotal(lines: seq<InvoiceLine>): int {
    if lines == [] then 0 else LineTotal(lines[..|lines| - 1]) + lines[|lines| - 1].amount
  }

  /** Every line's amount is its quantity times its unit amount. */
  predicate Priced(lines: seq<InvoiceLine>) {
    forall line :: line in lines ==> line.amount == line.quantity * line.unitAmount
  }

  /** What the period is charged for under each heading. */
  function Charge(kind: LineKind, plan: string, basisPoints: nat, usage: Usage): int {
    match kind
    case Subscription => SubscriptionPrice(plan)
    case ApiRequests => ApiCharge(plan, usage)
    case SavingsShare => FeeOf(usage, basisPoints)
  }

  /** A charge that is not nothing has a line, and none has two; the line of the requests gives their number, and the
      others are one of something. */
  predicate Itemised(lines: seq<InvoiceLine>, plan: string, basisPoints: nat, usage: Usage) {
    ItemisedUpTo(lines, {Subscription, ApiRequests, SavingsShare}, plan, basisPoints, usage)
  }

  /** The same, as far as some headings go. */
  predicate ItemisedUpTo(lines: seq<InvoiceLine>, kinds: set<LineKind>, plan: string, basisPoints: nat, usage: Usage) {
    && (forall line :: line in lines ==>
          && line.kind in kinds && line.amount == Charge(line.kind, plan, basisPoints, usage)
          && line.quantity == if line.kind.ApiRequests? then usage.requests else 1)
    && (forall kind :: kind in kinds && Charge(kind, plan, basisPoints, usage) != 0 ==> HasLine(lines, kind))
    && (forall i, j :: 0 <= i < j < |lines| ==> lines[i].kind != lines[j].kind)
  }

  predicate HasLine(lines: seq<InvoiceLine>, kind: LineKind) { exists line :: line in lines && line.kind == kind }

  /** The charges under one more heading: a line when there is one, and otherwise nothing. */
  function WithLine(lines: seq<InvoiceLine>, line: InvoiceLine, charged: bool): seq<InvoiceLine> {
    if charged then lines + [line] else lines
  }

  lemma OneMoreLine(lines: seq<InvoiceLine>, line: InvoiceLine, charged: bool, kinds: set<LineKind>,
                    plan: string, basisPoints: nat, usage: Usage)
    requires Priced(lines) && ItemisedUpTo(lines, kinds, plan, basisPoints, usage) && line.kind !in kinds
    requires line.amount == line.quantity * line.unitAmount == Charge(line.kind, plan, basisPoints, usage)
    requires line.quantity == if line.kind.ApiRequests? then usage.requests else 1
    requires charged || line.amount == 0
    ensures var after := WithLine(lines, line, charged);
            && Priced(after) && LineTotal(after) == LineTotal(lines) + line.amount
            && ItemisedUpTo(after, kinds + {line.kind}, plan, basisPoints, usage)
  {
    if charged {
      var after := lines + [line];
      assert after[..|lines|] == lines;
      forall kind | kind in kinds + {line.kind} && Charge(kind, plan, basisPoints, usage) != 0
        ensures HasLine(after, kind)
      {
        if kind == line.kind {
          assert line in after;
        } else {
          var other :| other in lines && other.kind == kind;
          assert other in after;
        }
      }
    }
  }

  /** What an invoice says of a period. The sum of its lines is what the three charges come to before
      any saturation. */
  predicate Drafted(invoice: Invoice, plan: string, basisPoints: nat, usage: Usage) {
    && LineTotal(invoice.lines) == SubscriptionPrice(plan) + ApiCharge(plan, usage) + FeeOf(usage, basisPoints)
    && Priced(invoice.lines) && Itemised(invoice.lines, plan, basisPoints, usage)
    && invoice.subscription == Add(SubscriptionPrice(plan), ApiCharge(plan, usage))
    && invoice.savingsFee == FeeOf(usage, basisPoints)
    && invoice.total == Add(invoice.subscription, invoice.savingsFee)
    && invoice.grossSavings == FloorAtZero(usage.grossSavings)
    && invoice.customerNet == Sub(invoice.grossSavings, invoice.savingsFee)
    && invoice.requests == usage.requests
  }

  /** A draft invoice. Only charges that are not nothing have a line. */
  method Build(plan: string, basisPoints: nat, usage: Usage) returns (invoice: Invoice)
    requires plan == "api" ==> FitsI64(API_TIER_PER_REQUEST * usage.requests)
    ensures Drafted(invoice, plan, basisPoints, usage)
  {
    var lines: seq<InvoiceLine> := [];
    var subscription := SubscriptionPrice(plan);
    var line := InvoiceLine(Subscription, 1, subscription, subscription);
    OneMoreLine(lines, line, subscription != 0, {}, plan, basisPoints, usage);
    if subscription != 0 {
      lines := lines + [line];
    }
    assert {} + {Subscription} == {Subscription};
    var apiUsage := if plan == "api" then API_TIER_PER_REQUEST * usage.requests else 0;
    line := InvoiceLine(ApiRequests, usage.requests, if plan == "api" then API_TIER_PER_REQUEST else 0, apiUsage);
    OneMoreLine(lines, line, plan == "api", {Subscription}, plan, basisPoints, usage);
    if plan == "api" {
      lines := lines + [line];
    }
    assert {Subscription} + {ApiRequests} == {Subscription, ApiRequests};
    var grossSavings := FloorAtZero(usage.grossSavings);
    var savingsFee := MulBasisPoints(grossSavings, basisPoints);
    line := InvoiceLine(SavingsShare, 1, savingsFee, savingsFee);
    OneMoreLine(lines, line, savingsFee != 0, {Subscription, ApiRequests}, plan, basisPoints, usage);
    if savingsFee != 0 {
      lines := lines + [line];
    }
    assert {Subscription, ApiRequests} + {SavingsShare} == {Subscription, ApiRequests, SavingsShare};
    invoice := Invoice(lines, Add(subscription, apiUsage), savingsFee, Add(Add(subscription, apiUsage), savingsFee),
                       grossSavings, Sub(grossSavings, savingsFee), usage.requests);
  }

  /** The period fee and the sum of the requests' fees differ by no more than one micro-cent each. */
  predicate FeeIsConsistent(savingsFee: int, requests: int, sumOfRequestFees: int) {
    Abs(savingsFee - sumOfRequestFees) <= if requests < 1 then 1 else requests
  }

  // ---------------------------------------------------------------------------------------
  // Laws
  // ---------------------------------------------------------------------------------------

  /** At a rate of at most 100 % the fee lies between nothing and the whole saving, and it and what
      the customer keeps make up the saving. */
  lemma FeeWithinSavings(invoice: Invoice, plan: string, basisPoints: nat, usage: Usage)
    requires basisPoints <= BASIS_POINTS && FitsI64(usage.grossSavings) && Drafted(invoice, plan, basisPoints, usage)
    ensures 0 <= invoice.savingsFee <= invoice.grossSavings
    ensures invoice.savingsFee + invoice.customerNet == invoice.grossSavings
  {
    FeeInRange(usage, basisPoints);
    NetMakesUp(invoice.grossSavings, invoice.savingsFee);
  }

  lemma NetMakesUp(gross: int, fee: int)
    requires 0 <= fee <= gross <= I64_MAX
    ensures fee + Sub(gross, fee) == gross
  {
  }

  lemma FeeInRange(usage: Usage, basisPoints: nat)
    requires basisPoints <= BASIS_POINTS && usage.grossSavings <= I64_MAX
    ensures 0 <= FeeOf(usage, basisPoints) <= FloorAtZero(usage.grossSavings)
  {
    var gross := FloorAtZero(usage.grossSavings);
    assert 0 <= gross * basisPoints <= gross * BASIS_POINTS;
    RoundedMonotone(0, gross * basisPoints, BASIS_POINTS);
    RoundedMonotone(gross * basisPoints, gross * BASIS_POINTS, BASIS_POINTS);
    assert RoundedDiv(gross * BASIS_POINTS, BASIS_POINTS) == gross;
  }

  lemma FeeNotNegative(usage: Usage, basisPoints: nat)
    ensures 0 <= FeeOf(usage, basisPoints) <= I64_MAX
  {
    RoundedMonotone(0, FloorAtZero(usage.grossSavings) * basisPoints, BASIS_POINTS);
  }

  /** The lines of an invoice sum to its total exactly when they fit 64 bits together. */
  lemma LinesSumToTotal(invoice: Invoice, plan: string, basisPoints: nat, usage: Usage)
    requires Drafted(invoice, plan, basisPoints, usage)
    requires plan == "api" ==> FitsI64(API_TIER_PER_REQUEST * usage.requests)
    ensures LineTotal(invoice.lines) == invoice.total <==> LineTotal(invoice.lines) <= I64_MAX
  {
    FeeNotNegative(usage, basisPoints);
  }

  /** The fees of the single requests, each taken on its own saving. */
  function RequestFees(savings: seq<int>, basisPoints: nat): int {
    if savings == [] then 0
    else RequestFees(savings[..|savings| - 1], basisPoints) + MulBasisPoints(savings[|savings| - 1], basisPoints)
  }

  lemma {:induction false} RequestFeesAreParts(savings: seq<int>, basisPoints: nat)
    requires forall i :: 0 <= i < |savings| ==> 0 <= savings[i] <= I64_MAX
    requires basisPoints <= BASIS_POINTS
    ensures RequestFees(savings, basisPoints) == RoundedParts(savings, basisPoints, BASIS_POINTS)
  {
    if savings != [] {
      RequestFeesAreParts(savings[..|savings| - 1], basisPoints);
      FeeInRange(Usage(1, savings[|savings| - 1]), basisPoints);
      UnclampedFee(savings[|savings| - 1], basisPoints);
    }
  }

  lemma UnclampedFee(amount: int, basisPoints: nat)
    requires 0 <= amount <= I64_MAX && basisPoints <= BASIS_POINTS
    ensures MulBasisPoints(amount, basisPoints) == RoundedDiv(amount * basisPoints, BASIS_POINTS)
  {
    assert 0 <= amount * basisPoints <= amount * BASIS_POINTS;
    RoundedMonotone(0, amount * basisPoints, BASIS_POINTS);
    RoundedMonotone(amount * basisPoints, amount * BASIS_POINTS, BASIS_POINTS);
    assert RoundedDiv(amount * BASIS_POINTS, BASIS_POINTS) == amount;
  }

  /** Taking the fee on the period's total instead of on each of n requests moves it by at most
      (n + 1) / 2 micro-cents, so the reconciliation accepts every honest period. */
  lemma HonestPeriodsReconcile(savings: seq<int>, basisPoints: nat)
    requires forall i :: 0 <= i < |savings| ==> savings[i] >= 0
    requires Total(savings) <= I64_MAX && basisPoints <= BASIS_POINTS
    ensures var fee := FeeOf(Usage(|savings|, Total(savings)), basisPoints);
            && 2 * Abs(fee - RequestFees(savings, basisPoints)) <= |savings| + 1
            && FeeIsConsistent(fee, |savings|, RequestFees(savings, basisPoints))
  {
    TotalNonNegative(savings);
    PartsWithinTotal(savings);
    RequestFeesAreParts(savings, basisPoints);
    UnclampedFee(Total(savings), basisPoints);
    SplitDrift(savings, basisPoints, BASIS_POINTS);
  }

  lemma {:induction false} PartsWithinTotal(savings: seq<int>)
    requires forall i :: 0 <= i < |savings| ==> savings[i] >= 0
    ensures forall i :: 0 <= i < |savings| ==> savings[i] <= Total(savings)
  {
    if savings != [] {
      PartsWithinTotal(savings[..|savings| - 1]);
      TotalNonNegative(savings[..|savings| - 1]);
    }
  }

  /** Stripe is never asked for a cent more than the total, and for less than a cent less. */
  lemma NeverOvercharged(invoice: Invoice, plan: string, basisPoints: nat, usage: Usage)
    requires Drafted(invoice, plan, basisPoints, usage)
    requires 0 <= usage.requests && (plan == "api" ==> FitsI64(API_TIER_PER_REQUEST * usage.requests))
    ensures 0 <= invoice.total - ToCents(invoice.total) * 10_000 < 10_000
  {
    FeeNotNegative(usage, basisPoints);
    CentsRoundDown(invoice.total);
  }

  /** Without savings a month costs 29, 299 or 2,000 dollars, a cent for every hundred requests on the usage-based tier,
      and nothing on any other plan. */
  lemma PlansCostTheirPrice(invoice: Invoice, plan: string, basisPoints: nat, usage: Usage)
    requires Drafted(invoice, plan, basisPoints, usage) && usage.grossSavings <= 0
    requires 0 <= usage.requests && (plan == "api" ==> FitsI64(API_TIER_PER_REQUEST * usage.requests))
    ensures ToCents(invoice.total) ==
            if plan == "pro" then 29_00 else if plan == "team" then 299_00 else if plan == "enterprise" then 2000_00
            else if plan == "api" then usage.requests / 100 else 0
  {
  }
}
