/** Referral credits: granted one by one, and consumed oldest first when an invoice is drawn up. */
module Credits {
  import opened Money
  import opened Sequences

  datatype Credit = Credit(org: nat, amount: int, consumed: bool)

  predicate Live(credit: Credit, org: nat) { credit.org == org && !credit.consumed }

  /** What a credit is worth to an organisation. */
  function Due(credit: Credit, org: nat): int { if Live(credit, org) then credit.amount else 0 }

  function Taken(credit: Credit, org: nat): Credit {
    if Live(credit, org) then credit.(consumed := true) else credit
  }

  /** The credit balance of an organisation. */
  function Balance(credits: seq<Credit>, org: nat): int {
    if credits == [] then 0 else Due(credits[0], org) + Balance(credits[1..], org)
  }

  /** The table after consuming whole credits, oldest first, until `need` is covered. */
  function Spent(credits: seq<Credit>, org: nat, need: int): seq<Credit> {
    if credits == [] || need <= 0 then credits
    else [Taken(credits[0], org)] + Spent(credits[1..], org, need - Due(credits[0], org))
  }

  /** What those credits amount to. */
  function Used(credits: seq<Credit>, org: nat, need: int): int {
    if credits == [] || need <= 0 then 0
    else Due(credits[0], org) + Used(credits[1..], org, need - Due(credits[0], org))
  }

  function Min(a: int, b: int): int { if a < b then a else b }

  /** The table's constraint on amounts. */
  predicate Positive(credits: seq<Credit>) { forall i :: 0 <= i < |credits| ==> 0 < credits[i].amount <= I64_MAX }

  /** The credits of all organisations, oldest first. */
  class CreditTable {
    var credits: seq<Credit>

    constructor ()
      ensures credits == []
    {
      credits := [];
    }

    method Grant(org: nat, amount: int) returns (ok: bool)
      modifies this
      ensures ok <==> 0 < amount <= I64_MAX
      ensures credits == if ok then old(credits) + [Credit(org, amount, false)] else old(credits)
    {
      ok := 0 < amount <= I64_MAX;
      if ok {
        credits := credits + [Credit(org, amount, false)];
      }
    }

    /** Applies the lesser of the amount asked for and the balance. */
    method Consume(org: nat, amount: int) returns (applied: int)
      requires Positive(credits) && amount <= I64_MAX
      modifies this
      ensures credits == Spent(old(credits), org, amount)
      ensures applied == if amount <= 0 then 0 else Min(amount, Balance(old(credits), org))
    {
      if amount <= 0 {
        return 0;
      }
      ghost var was := credits;
      ghost var done: seq<Credit>, used := [], 0;
      applied := 0;
      var i := 0;
      while i < |credits| && applied < amount
        invariant i == |done| <= |was| && credits == done + was[i..]
        invariant done + Spent(was[i..], org, amount - used) == Spent(was, org, amount)
        invariant used + Used(was[i..], org, amount - used) == Used(was, org, amount)
        invariant applied == Min(used, I64_MAX) && used >= 0
      {
        var credit := credits[i];
        ghost var next := used + Due(credit, org);
        SpentStep(done, was, i, org, amount, used, next);
        TakenInPlace(done, was, i, Taken(credit, org));
        if Live(credit, org) {
          credits := credits[i := credit.(consumed := true)];
          applied := Add(applied, credit.amount);
        }
        done, used := done + [Taken(credit, org)], next;
        i := i + 1;
      }
      UsedCoversNeed(was, org, amount);
      applied := if applied > amount then amount else applied;
    }
  }

  lemma TakenInPlace(done: seq<Credit>, credits: seq<Credit>, i: nat, taken: Credit)
    requires i == |done| < |credits|
    ensures (done + credits[i..])[i] == credits[i]
    ensures (done + credits[i..])[i := taken] == done + [taken] + credits[i + 1..]
  {
  }

  lemma SpentStep(done: seq<Credit>, credits: seq<Credit>, i: nat, org: nat, amount: int, used: int, next: int)
    requires i < |credits| && used < amount && next == used + Due(credits[i], org)
    ensures done + Spent(credits[i..], org, amount - used) ==
            done + [Taken(credits[i], org)] + Spent(credits[i + 1..], org, amount - next)
    ensures used + Used(credits[i..], org, amount - used) == next + Used(credits[i + 1..], org, amount - next)
  {
    assert credits[i..][0] == credits[i] && credits[i..][1..] == credits[i + 1..];
    Assoc(done, [Taken(credits[i], org)], Spent(credits[i + 1..], org, amount - next));
  }

  // ---------------------------------------------------------------------------------------
  // Laws
  // ---------------------------------------------------------------------------------------

  /** The credits used cover the need, or are all there are. */
  lemma {:induction false} UsedCoversNeed(credits: seq<Credit>, org: nat, need: int)
    requires Positive(credits) && need > 0
    ensures 0 <= Used(credits, org, need) <= Balance(credits, org)
    ensures Used(credits, org, need) < need ==> Used(credits, org, need) == Balance(credits, org)
  {
    if credits != [] {
      var left := need - Due(credits[0], org);
      if left > 0 {
        UsedCoversNeed(credits[1..], org, left);
      } else {
        BalanceNonNegative(credits[1..], org);
      }
    }
  }

  lemma {:induction false} BalanceNonNegative(credits: seq<Credit>, org: nat)
    requires Positive(credits)
    ensures Balance(credits, org) >= 0
  {
    if credits != [] {
      BalanceNonNegative(credits[1..], org);
    }
  }

  /** Consuming takes the used credits off the organisation's balance, and nothing off another's. */
  lemma {:induction false} SpentLeavesRest(credits: seq<Credit>, org: nat, need: int, other: nat)
    ensures Balance(Spent(credits, org, need), other) ==
            Balance(credits, other) - if other == org then Used(credits, org, need) else 0
  {
    if credits != [] && need > 0 {
      var left := need - Due(credits[0], org);
      SpentLeavesRest(credits[1..], org, left, other);
      assert Spent(credits, org, need)[1..] == Spent(credits[1..], org, left);
    }
  }

  /** Some number of the oldest credits come to exactly `need`. */
  predicate Payable(credits: seq<Credit>, org: nat, need: int) {
    need == 0 ||
    (credits != [] && Payable(credits[1..], org, need - Due(credits[0], org)))
  }

  lemma {:induction false} PayableNeedsNothingMore(credits: seq<Credit>, org: nat, need: int)
    requires Positive(credits) && need < 0
    ensures !Payable(credits, org, need)
  {
    if credits != [] {
      PayableNeedsNothingMore(credits[1..], org, need - Due(credits[0], org));
    }
  }

  lemma {:induction false} UsedExactly(credits: seq<Credit>, org: nat, need: int)
    requires Positive(credits) && need > 0
    ensures Used(credits, org, need) == need <==> Payable(credits, org, need)
  {
    if credits != [] {
      var left := need - Due(credits[0], org);
      if left > 0 {
        UsedExactly(credits[1..], org, left);
      } else if left < 0 {
        PayableNeedsNothingMore(credits[1..], org, left);
      }
    }
  }

  /** What is consumed is not always what is applied: credits are consumed whole. Nothing is lost
      exactly when the balance is not enough or the oldest credits come to the amount exactly. */
  lemma NothingLostCondition(credits: seq<Credit>, org: nat, amount: int)
    requires Positive(credits) && amount > 0
    ensures Balance(Spent(credits, org, amount), org) + Min(amount, Balance(credits, org)) == Balance(credits, org) <==>
            Balance(credits, org) < amount || Payable(credits, org, amount)
  {
    SpentLeavesRest(credits, org, amount, org);
    UsedCoversNeed(credits, org, amount);
    UsedExactly(credits, org, amount);
  }

  lemma CreditCanBeLost()
    ensures var credits := [Credit(0, 10, false)]; Balance(Spent(credits, 0, 3), 0) == 0 && Min(3, Balance(credits, 0)) == 3
  {
    var credits := [Credit(0, 10, false)];
    assert credits[1..] == [];
    assert Spent(credits, 0, 3) == [Credit(0, 10, true)];
  }

  datatype Op = GrantOp(org: nat, amount: int) | ConsumeOp(org: nat, amount: int)

  datatype World = World(credits: seq<Credit>, granted: int, applied: int)

  /** A ledger of one organisation: what it was granted and what was applied, over a run. */
  function Next(w: World, org: nat, op: Op): World {
    match op
    case GrantOp(to, amount) =>
      if 0 < amount <= I64_MAX
      then World(w.credits + [Credit(to, amount, false)], w.granted + if to == org then amount else 0, w.applied)
      else w
    case ConsumeOp(payer, amount) =>
      World(Spent(w.credits, payer, amount), w.granted,
            w.applied + if payer == org && amount > 0 then Min(amount, Balance(w.credits, org)) else 0)
  }

  function Run(org: nat, ops: seq<Op>): World {
    if ops == [] then World([], 0, 0) else Next(Run(org, ops[..|ops| - 1]), org, ops[|ops| - 1])
  }

  lemma {:induction false} SpentStaysPositive(credits: seq<Credit>, org: nat, need: int)
    requires Positive(credits)
    ensures Positive(Spent(credits, org, need))
  {
    if credits != [] && need > 0 {
      SpentStaysPositive(credits[1..], org, need - Due(credits[0], org));
    }
  }

  lemma {:induction false} GrantAdds(credits: seq<Credit>, credit: Credit, org: nat)
    ensures Balance(credits + [credit], org) == Balance(credits, org) + Due(credit, org)
  {
    if credits == [] {
      assert [credit][1..] == [];
    } else {
      GrantAdds(credits[1..], credit, org);
      assert (credits + [credit])[1..] == credits[1..] + [credit];
    }
  }

  /** Over any run of grants and invoices no credit is spent twice: what was applied and what is
      left never exceed what was granted. */
  lemma {:induction false} NeverDoubleSpent(org: nat, ops: seq<Op>)
    ensures var w := Run(org, ops);
            && Positive(w.credits) && 0 <= w.applied && 0 <= Balance(w.credits, org)
            && w.applied + Balance(w.credits, org) <= w.granted
  {
    if ops != [] {
      var w, op := Run(org, ops[..|ops| - 1]), ops[|ops| - 1];
      NeverDoubleSpent(org, ops[..|ops| - 1]);
      match op
      case GrantOp(to, amount) => GrantAdds(w.credits, Credit(to, amount, false), org);
      case ConsumeOp(payer, amount) =>
        SpentStaysPositive(w.credits, payer, amount);
        SpentLeavesRest(w.credits, payer, amount, org);
        if payer == org && amount > 0 {
          UsedCoversNeed(w.credits, org, amount);
        }
      BalanceNonNegative(Run(org, ops).credits, org);
    }
  }
}
