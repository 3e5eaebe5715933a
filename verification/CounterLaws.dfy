/** What the store's counters count, and how long they last. */
module CounterLaws {
  import opened Decimal
  import opened Money
  import opened Store
  import opened Wrappers

  lemma ReadsBack(n: int)
    requires FitsI64(n)
    ensures ReadInt(IntText(n)) == Some(n)
  {
    if n < 0 {
      ValueOfDec(-n);
      MinusReads(Dec(-n));
    } else {
      ValueOfDec(n);
      DigitsRead(Dec(n));
    }
  }

  lemma MinusReads(digits: string)
    requires digits != "" && AllDigits(digits) && FitsI64(-(Value(digits) as int))
    ensures ReadInt("-" + digits) == Some(-(Value(digits) as int))
  {
    assert ("-" + digits)[1..] == digits;
  }

  lemma DigitsRead(digits: string)
    requires digits != "" && AllDigits(digits) && FitsI64(Value(digits))
    ensures ReadInt(digits) == Some(Value(digits) as int)
  {
    assert IsDigit(digits[0]) && digits[0] != '-' && digits[0] != '+';
  }

  lemma CountReadsBack(n: int, expiry: Option<nat>, now: nat)
    requires FitsI64(n)
    ensures var entry := Entry(IntText(n), expiry);
            Count(Some(entry), now) == if entry.Live(now) then n else 0
  {
    ReadsBack(n);
  }

  /** One increment of a counter that stands at `n`. */
  lemma CountedOnce(n: int, expiry: Option<nat>, step: int, ttl: Option<nat>, now: nat)
    requires FitsI64(n) && Entry(IntText(n), expiry).Live(now)
    ensures Counted(Some(Entry(IntText(n), expiry)), step, ttl, now) ==
            Entry(IntText(Add(n, step)), if n == 0 then ExpiryIn(ttl, now) else expiry)
  {
    CountReadsBack(n, expiry, now);
  }

  datatype Increment = Increment(step: int, ttl: Option<nat>, now: nat)

  /** A counter after some increments. */
  function Run(increments: seq<Increment>): Option<Entry> {
    if increments == [] then None
    else
      var last := increments[|increments| - 1];
      Some(Counted(Run(increments[..|increments| - 1]), last.step, last.ttl, last.now))
  }

  function Sum(increments: seq<Increment>): int {
    if increments == [] then 0 else Sum(increments[..|increments| - 1]) + increments[|increments| - 1].step
  }

  function FirstExpiry(increments: seq<Increment>): Option<nat>
    requires increments != []
  {
    ExpiryIn(increments[0].ttl, increments[0].now)
  }

  /** No increment finds the counter at zero or expired, and no sum leaves 64 bits. */
  predicate Undisturbed(increments: seq<Increment>)
    requires increments != []
  {
    && FitsI64(Sum(increments))
    && (|increments| > 1 ==>
          var front := increments[..|increments| - 1];
          && Undisturbed(front) && Sum(front) != 0
          && (FirstExpiry(increments).None? || increments[|increments| - 1].now < FirstExpiry(increments).value))
  }

  /** Increments that never find the counter at zero or expired add up, and the expiry stays the one
      the first of them set, whatever time to live the later ones ask for. */
  lemma {:induction false} CounterAddsUp(increments: seq<Increment>)
    requires increments != [] && Undisturbed(increments)
    ensures Run(increments) == Some(Entry(IntText(Sum(increments)), FirstExpiry(increments)))
  {
    var front, last := increments[..|increments| - 1], increments[|increments| - 1];
    assert front + [last] == increments;
    if front == [] {
      assert Sum(front) == 0 && Sum(increments) == last.step;
    } else {
      CounterAddsUp(front);
      OneMore(front, last, Sum(front), FirstExpiry(front));
    }
  }

  lemma OneMore(front: seq<Increment>, last: Increment, n: int, expiry: Option<nat>)
    requires n != 0 && FitsI64(n) && FitsI64(n + last.step) && (expiry.Some? ==> last.now < expiry.value)
    requires Run(front) == Some(Entry(IntText(n), expiry))
    ensures Run(front + [last]) == Some(Entry(IntText(n + last.step), expiry))
  {
    RunOnce(front, last);
    CountedOnce(n, expiry, last.step, last.ttl, last.now);
  }

  lemma RunOnce(before: seq<Increment>, last: Increment)
    ensures Run(before + [last]) == Some(Counted(Run(before), last.step, last.ttl, last.now))
  {
    assert (before + [last])[..|before|] == before;
  }

  /** A counter that has expired, or was never there, starts over: it counts from nothing, and lives as long as
      this increment asks for. */
  lemma ExpiredStartsOver(n: int, expiry: Option<nat>, increment: Increment)
    requires FitsI64(n) && FitsI64(increment.step) && !Entry(IntText(n), expiry).Live(increment.now)
    ensures var anew := Entry(IntText(increment.step),
                               if increment.ttl.Some? then Some(increment.now + increment.ttl.value) else None);
            && Counted(Some(Entry(IntText(n), expiry)), increment.step, increment.ttl, increment.now) == anew
            && Counted(None, increment.step, increment.ttl, increment.now) == anew
  {
    CountReadsBack(n, expiry, increment.now);
  }

  /** So after a window that nothing disturbed, the first increment at its expiry or later opens a new one. */
  lemma NewWindowOpens(increments: seq<Increment>, next: Increment)
    requires increments != [] && Undisturbed(increments) && FitsI64(next.step)
    requires FirstExpiry(increments).Some? && next.now >= FirstExpiry(increments).value
    ensures Run(increments + [next]) ==
            Some(Entry(IntText(next.step), if next.ttl.Some? then Some(next.now + next.ttl.value) else None))
  {
    CounterAddsUp(increments);
    RunOnce(increments, next);
    ExpiredStartsOver(Sum(increments), FirstExpiry(increments), next);
  }

  /** A live counter keeps its expiry exactly when it stands off zero, or the new time is the same. */
  lemma ExpiryKept(n: int, expiry: Option<nat>, increment: Increment)
    requires FitsI64(n) && Entry(IntText(n), expiry).Live(increment.now)
    ensures Counted(Some(Entry(IntText(n), expiry)), increment.step, increment.ttl, increment.now).expiresAt == expiry <==>
            n != 0 || ExpiryIn(increment.ttl, increment.now) == expiry
  {
    CountedOnce(n, expiry, increment.step, increment.ttl, increment.now);
  }

  /** A counter that came back to zero gets the time to live of the next increment, though it was
      never gone; when that one asks for none, it never expires. */
  lemma ZeroRestartsExpiry(step: int, ttl: nat, later: Increment)
    requires 0 < step <= I64_MAX && 1 < ttl && later.now < ttl
    ensures var run := [Increment(step, Some(ttl), 0), Increment(-step, Some(ttl), 1), later];
            Run(run).value.expiresAt == ExpiryIn(later.ttl, later.now)
  {
    var first, second := Increment(step, Some(ttl), 0), Increment(-step, Some(ttl), 1);
    CounterAddsUp([first]);
    RunOnce([first], second);
    CountedOnce(step, Some(ttl), -step, Some(ttl), 1);
    RunOnce([first, second], later);
    CountedOnce(0, Some(ttl), later.step, later.ttl, later.now);
    assert [first] + [second] == [first, second] && [first, second] + [later] == [first, second, later];
  }
}
