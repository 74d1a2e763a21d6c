/** A sale record, the 8.5 % commission rule, the two-decimal casts of amount
    and commission, and the two model hooks that keep the commission derived
    from the amount when a sale is created or its amount changes. */
module SaleModel {
  import opened Common

  /** One row of the sales table. `createdAt` is the row's creation timestamp. */
  datatype Sale = Sale(id: nat, sellerId: nat, amount: Cents, commission: Cents, saleDate: Date, createdAt: int)

  // ---------------------------------------------------------------------------
  // The commission rule
  // ---------------------------------------------------------------------------

  /** 8.5 % of `amount`, rounded to whole cents with halves rounded away from
      zero: `round(amount * 0.085, 2)` on an amount with two decimals. The
      contract says that `c` is the nearest whole number to 85·amount/1000,
      with a tie going to the value farther from zero. */
  function CalculateCommission(amount: Cents): (c: Cents)
    ensures 0 <= amount ==> 1000 * c - 500 <= 85 * amount < 1000 * c + 500
    ensures amount < 0 ==> 1000 * c - 500 < 85 * amount <= 1000 * c + 500
  {
    if amount >= 0 then (85 * amount + 500) / 1000
    else -((85 * -amount + 500) / 1000)
  }

  /** The rounding contract leaves exactly one possible commission. */
  lemma CommissionIsNearest(amount: Cents, c: Cents)
    requires 0 <= amount ==> 1000 * c - 500 <= 85 * amount < 1000 * c + 500
    requires amount < 0 ==> 1000 * c - 500 < 85 * amount <= 1000 * c + 500
    ensures c == CalculateCommission(amount)
  {
  }

  /** The figures of the feature tests: 1000.00 → 85.00, 2000.00 → 170.00,
      1500.00 → 127.50, 300.00 → 25.50, 500.00 → 42.50. */
  lemma CommissionExamples()
    ensures CalculateCommission(100000) == 8500
    ensures CalculateCommission(200000) == 17000
    ensures CalculateCommission(150000) == 12750
    ensures CalculateCommission(30000) == 2550
    ensures CalculateCommission(50000) == 4250
  {
  }

  /** On a non-negative amount the commission is non-negative and at most the amount. */
  lemma CommissionBounds(amount: Cents)
    requires amount >= 0
    ensures 0 <= CalculateCommission(amount) <= amount
  {
  }

  /** A larger amount never earns a smaller commission. */
  lemma CommissionMonotone(a: Cents, b: Cents)
    requires a <= b
    ensures CalculateCommission(a) <= CalculateCommission(b)
  {
  }

  /** Rounding away from zero treats a refund like a sale of opposite sign. */
  lemma CommissionOdd(amount: Cents)
    ensures CalculateCommission(-amount) == -CalculateCommission(amount)
  {
  }

  /** Invariant I1 for one row: its commission is the one the rule gives for its amount. */
  predicate CommissionMatchesAmount(s: Sale)
  {
    s.commission == CalculateCommission(s.amount)
  }

  // ---------------------------------------------------------------------------
  // The `decimal:2` casts: amounts are read back as strings with two decimals
  // ---------------------------------------------------------------------------

  /** The unsigned part of a cast amount: the whole part without leading
      zeros, a '.', and exactly two decimals. */
  function UnsignedDecimal(m: nat): (s: string)
    ensures |s| >= 4 && s[|s| - 3] == '.' && IsDigit(s[0])
  {
    NatToString(m / 100) + "." + [DigitChar(m % 100 / 10), DigitChar(m % 10)]
  }

  /** The text a `decimal:2` cast gives for an amount: an optional '-' and
      the unsigned part ("1000.00", "127.50", "-0.05"). */
  function DecimalString(c: Cents): (s: string)
    ensures |s| >= 4 && s[|s| - 3] == '.'
    ensures c < 0 <==> s[0] == '-'
  {
    if c < 0 then "-" + UnsignedDecimal(-c) else UnsignedDecimal(c)
  }

  /** Reads digits, a '.', and two digits back into cents. */
  function ParseUnsigned(body: string): (r: Option<nat>)
  {
    if |body| < 4 || body[|body| - 3] != '.' then None
    else
      var whole := body[..|body| - 3];
      var cents := body[|body| - 2..];
      if !AllDigits(whole) || !AllDigits(cents) then None
      else Some(DigitsValue(whole) * 100 + DigitsValue(cents))
  }

  /** Reads a two-decimal string back into cents; None when it is not of that form. */
  function ParseDecimal(s: string): (r: Option<Cents>)
  {
    if |s| > 0 && s[0] == '-' then
      match ParseUnsigned(s[1..])
      case None => None
      case Some(m) => var v: Cents := 0 - m as int; Some(v)
    else
      match ParseUnsigned(s)
      case None => None
      case Some(m) => var v: Cents := m; Some(v)
  }

  lemma {:induction false} UnsignedRoundTrip(m: nat)
    ensures ParseUnsigned(UnsignedDecimal(m)) == Some(m)
  {
    var digits := NatToString(m / 100);
    var tens, units := m % 100 / 10, m % 10;
    var tail := [DigitChar(tens), DigitChar(units)];
    var body := digits + "." + tail;
    assert body == UnsignedDecimal(m);
    NatToStringRoundTrip(m / 100);
    assert body[..|body| - 3] == digits;
    assert body[|body| - 2..] == tail;
    TwoDigitsValue(tens, units);
    assert m == m / 100 * 100 + tens * 10 + units;
  }

  /** The two digits after the point read back as their value. */
  lemma TwoDigitsValue(tens: nat, units: nat)
    requires tens < 10 && units < 10
    ensures AllDigits([DigitChar(tens), DigitChar(units)])
    ensures DigitsValue([DigitChar(tens), DigitChar(units)]) == tens * 10 + units
  {
    var tail := [DigitChar(tens), DigitChar(units)];
    assert DigitValue(tail[0]) == tens && DigitValue(tail[1]) == units;
    assert tail[..1] == [tail[0]] && [tail[0]][..0] == [];
    assert DigitsValue([tail[0]]) == tens;
    assert DigitsValue(tail) == DigitsValue(tail[..1]) * 10 + units;
  }

  /** A cast amount reads back as exactly the stored number of cents: the
      casts keep amounts and commissions at exactly two decimal places. */
  lemma {:induction false} DecimalStringRoundTrip(c: Cents)
    ensures ParseDecimal(DecimalString(c)) == Some(c)
  {
    if c < 0 {
      var body := UnsignedDecimal(-c);
      UnsignedRoundTrip(-c);
      var s := "-" + body;
      assert s == DecimalString(c) && s[0] == '-';
      assert s[1..] == body;
    } else {
      var s := UnsignedDecimal(c);
      UnsignedRoundTrip(c);
      assert s == DecimalString(c) && s[0] != '-';
    }
  }

  /** The strings the feature tests read back from the API. */
  lemma DecimalStringExamples()
    ensures DecimalString(100000) == "1000.00"
    ensures DecimalString(8500) == "85.00"
    ensures DecimalString(12750) == "127.50"
  {
    assert NatToString(1) == "1" && NatToString(8) == "8";
    assert NatToString(10) == "10" && NatToString(12) == "12" && NatToString(85) == "85";
    assert NatToString(100) == "100" && NatToString(127) == "127";
    assert NatToString(1000) == "1000";
  }

  // ---------------------------------------------------------------------------
  // The model hooks
  // ---------------------------------------------------------------------------

  /** The attributes a sale is created from; `commission` is None when no
      commission was supplied. */
  datatype NewSale = NewSale(sellerId: nat, amount: Cents, commission: Option<Cents>, saleDate: Date)

  /** PHP's `empty` on the commission attribute as the hook reads it: through
      the `decimal:2` cast, which gives null for a missing value and a string
      such as "0.00" for any number, so only a missing commission is empty. */
  predicate CommissionEmpty(commission: Option<Cents>)
  {
    commission.None?
  }

  /** The `creating` hook: the commission the new row is stored with — a
      supplied one kept verbatim, the rule's when none was supplied. */
  function CreatingCommission(attrs: NewSale): (c: Cents)
    ensures !CommissionEmpty(attrs.commission) ==> c == attrs.commission.value
    ensures CommissionEmpty(attrs.commission) ==> c == CalculateCommission(attrs.amount)
  {
    if CommissionEmpty(attrs.commission) then CalculateCommission(attrs.amount)
    else attrs.commission.value
  }

  /** A supplied commission of zero is stored as zero, whatever the amount. */
  lemma SuppliedZeroCommissionKept(sellerId: nat, amount: Cents, saleDate: Date)
    ensures CreatingCommission(NewSale(sellerId, amount, Some(0), saleDate)) == 0
  {
  }

  /** The `updating` hook: `dirty` is the row with its new attributes filled
      in, `original` the row as loaded. The commission is recomputed exactly
      when the amount changed; nothing else is touched. */
  function Updating(original: Sale, dirty: Sale): (saved: Sale)
    ensures saved.amount != original.amount ==> CommissionMatchesAmount(saved)
    ensures saved.amount == original.amount ==> saved == dirty
    ensures saved == dirty.(commission := saved.commission)
  {
    if dirty.amount != original.amount then dirty.(commission := CalculateCommission(dirty.amount))
    else dirty
  }
}
