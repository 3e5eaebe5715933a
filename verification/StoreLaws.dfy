/** What the store's values read as, and when. */
module StoreLaws {
  import opened Decimal
  import opened Store
  import opened Wrappers
  import Money

  /** A value written at `now` is read back for its time to live, and not from then on; other keys read as before. */
  lemma WrittenIsReadBack(values: Values, key: string, value: string, ttl: nat, now: nat, other: string, later: nat)
    ensures var after := WithValue(values, key, value, ttl, now);
            Lookup(after, other, later) ==
            if other == key then (if later < now + ttl then Some(value) else None) else Lookup(values, other, later)
  {
  }

  /** A read clears away what it finds expired. Nothing else goes, and on a clock that does not go back nothing is
      read otherwise. */
  lemma ReadClearsExpired(values: Values, key: string, now: nat, other: string, later: nat)
    requires now <= later
    ensures var after := AfterRead(values, key, now);
            && (key in after ==> Lookup(values, key, now).Some?)
            && (other != key || Lookup(values, key, now).Some? ==>
                  (other in after <==> other in values) && (other in values ==> after[other] == values[other]))
            && Lookup(after, other, later) == Lookup(values, other, later)
  {
  }

  /** Digits after an optional sign. */
  predicate IsNumeral(s: string) {
    s != "" && (AllDigits(s) || (|s| > 1 && (s[0] == '-' || s[0] == '+') && AllDigits(s[1..])))
  }

  function NumeralValue(s: string): int
    requires IsNumeral(s)
  {
    if AllDigits(s) then Value(s) else if s[0] == '-' then -(Value(s[1..]) as int) else Value(s[1..])
  }

  /** A text reads as a number exactly when it is a numeral whose value fits 64 bits, and then as that value. */
  lemma NumeralsAreRead(s: string)
    ensures ReadInt(s) == if IsNumeral(s) && Money.FitsI64(NumeralValue(s)) then Some(NumeralValue(s)) else None
  {
    assert !IsDigit('-') && !IsDigit('+');
  }

  /** A counter that holds no number starts over from zero, and with a new time to live. */
  lemma NoNumberStartsOver(entry: Entry, step: int, ttl: Option<nat>, now: nat)
    requires Money.FitsI64(step) && (IsNumeral(entry.value) ==> !Money.FitsI64(NumeralValue(entry.value)))
    ensures Counted(Some(entry), step, ttl, now) ==
            Entry(IntText(step), if ttl.Some? then Some(now + ttl.value) else None)
  {
    NumeralsAreRead(entry.value);
  }
}
