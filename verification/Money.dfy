/**
 The money value of domain/money.go: int64 cents, read and written as float64 amounts.

 Floating point is the standard error model of binary64: an operation returns its exact result with a
 relative error of at most 2^-53 (section 4.3.1 of IEEE 754-2019), and integers up to 2^53 are exact.
 The rounding is a parameter, so what is proved holds for every rounding within that error.
 */
module Moneys {
  import opened Common

  const DEFAULT_CURRENCY := "MYR"
  const TWO_51 := 2251799813685248
  const TWO_53 := 9007199254740992
  const TWO_64 := 18446744073709551616
  const TWO_63 := 9223372036854775808

  datatype Money = Money(cents: int, currency: string)

  type Rounding = real -> real

  function Abs(x: real): real {
    if x < 0.0 then -x else x
  }

  /** The largest error that one rounding may make: 2^-53 of the exact result. */
  function Slack(x: real): real {
    Abs(x) / 9007199254740992.0
  }

  /** Amounts that can occur here, well inside the range of normal numbers. */
  predicate Ordinary(x: real) {
    x == 0.0 || 0.001 <= Abs(x) <= 10_000_000_000_000_000_000.0
  }

  predicate Whole(x: real) {
    x.Floor as real == x
  }

  /** The result of rounding x is within the error model. */
  predicate RoundsAt(fl: Rounding, x: real) {
    && (Ordinary(x) ==> Abs(fl(x) - x) <= Slack(x))
    && (Whole(x) && Abs(x) <= TWO_53 as real ==> fl(x) == x)
  }

  ghost predicate Rounds(fl: Rounding) {
    forall x: real :: RoundsAt(fl, x)
  }

  /** math.Round: to the nearest integer, halves away from zero. */
  function Round(x: real): (n: int)
    ensures Abs(n as real - x) <= 0.5
    ensures Abs(n as real - x) == 0.5 ==> Abs(n as real) > Abs(x)
  {
    if x >= 0.0 then (x + 0.5).Floor else -((-x + 0.5).Floor)
  }

  /** Two's complement wrap-around of int64 arithmetic. */
  function Wrap(n: int): (r: int)
    ensures -TWO_63 <= r < TWO_63 && (r - n) % TWO_64 == 0
    ensures -TWO_63 <= n < TWO_63 <==> r == n
  {
    (n + TWO_63) % TWO_64 - TWO_63
  }

  lemma WrapFits(n: int)
    requires -TWO_51 < n < TWO_51
    ensures Wrap(n) == n
  {
  }

  function WithDefault(currency: string): string {
    if currency == "" then DEFAULT_CURRENCY else currency
  }

  /** NewMoney. Outside int64 the conversion of a float is implementation-defined in Go; wrapping stands for
      one such result, and no theorem depends on it. */
  function NewMoney(fl: Rounding, amount: real, currency: string): Money {
    Money(Wrap(Round(fl(amount * 100.0))), WithDefault(currency))
  }

  function FromCents(cents: int, currency: string): Money {
    Money(cents, WithDefault(currency))
  }

  function Amount(fl: Rounding, m: Money): real {
    fl(fl(m.cents as real) / 100.0)
  }

  predicate Safe(m: Money) {
    -TWO_51 < m.cents < TWO_51
  }

  // ----- the round trip through a float amount

  lemma AbsScale(x: real, k: real)
    requires k >= 0.0
    ensures Abs(x * k) == Abs(x) * k
  {
    if x >= 0.0 {
      assert x * k >= 0.0;
    } else {
      assert (-x) * k >= 0.0;
    }
  }

  lemma RoundNear(x: real, n: int)
    requires Abs(x - n as real) < 0.5
    ensures Round(x) == n
  {
  }

  /** Whole cents for which the error model keeps the round trip. */
  predicate SafeCents(c: real) {
    Abs(c) <= (TWO_51 - 1) as real && (c == 0.0 || 1.0 <= Abs(c))
  }

  /** Two roundings of relative error 2^-53 move an integer below 2^51 by less than a half. */
  lemma TwoRoundings(c: real, a: real, p: real)
    requires SafeCents(c)
    requires Abs(a - c) <= Slack(c) && Abs(p - a) <= Slack(a)
    ensures Abs(p - c) < 0.5
  {
  }

  /** The stored amount, times a hundred, is the cents up to one relative error. */
  lemma AmountNear(c: real, p: real)
    requires SafeCents(c) && Abs(p - c / 100.0) <= Slack(c / 100.0)
    ensures Abs(p * 100.0 - c) <= Slack(c) && Ordinary(p * 100.0)
  {
    AbsScale(c / 100.0, 100.0);
    AbsScale(p - c / 100.0, 100.0);
  }

  lemma QuotientOrdinary(c: real)
    requires SafeCents(c)
    ensures Ordinary(c / 100.0)
  {
  }

  /** Two roundings within the error model lead back from a hundredth of the cents to the cents. */
  lemma CentsBack(c: real, n: int, p: real, r: real)
    requires c == n as real && SafeCents(c)
    requires Abs(p - c / 100.0) <= Slack(c / 100.0) && Abs(r - p * 100.0) <= Slack(p * 100.0)
    ensures Round(r) == n
  {
    AmountNear(c, p);
    TwoRoundings(c, p * 100.0, r);
    RoundNear(r, n);
  }

  /** Cents to Amount and back through NewMoney is the identity below 2^51 cents. */
  lemma CentsRoundTrip(fl: Rounding, m: Money)
    requires Rounds(fl) && Safe(m)
    ensures NewMoney(fl, Amount(fl, m), m.currency) == Money(m.cents, WithDefault(m.currency))
  {
    var c, p := m.cents as real, Amount(fl, m);
    assert RoundsAt(fl, c) && p == fl(c / 100.0);
    QuotientOrdinary(c);
    assert RoundsAt(fl, c / 100.0);
    AmountNear(c, p);
    assert RoundsAt(fl, p * 100.0);
    CentsBack(c, m.cents, p, fl(p * 100.0));
    WrapFits(m.cents);
  }

  /** The bound is the best that the error model gives: at 2^51 cents some rounding within it is off by
      one cent. */
  lemma BoundIsTight() returns (fl: Rounding, m: Money)
    ensures Rounds(fl) && m.cents == TWO_51
    ensures NewMoney(fl, Amount(fl, m), "MYR").cents == TWO_51 + 1
  {
    m := Money(TWO_51, "MYR");
    var c := TWO_51 as real;
    var q, a := c / 100.0, c + Slack(c);
    fl := (x: real) => if x == q || x == a then x + Slack(x) else x;
    assert Slack(c) == 0.25;
    assert q.Floor == 22517998136852 && !Whole(q);
    assert a == c + 0.25 && !Whole(a);
    assert fl(q) * 100.0 == a;
    assert fl(a) == a + Slack(a) && Slack(a) > 0.25;
  }

  // ----- JSON

  /** A decoded document, with the number codec taken as exact. */
  datatype Json = Object(amount: real, currency: string) | Number(value: real) | Null | Other

  function MarshalJSON(fl: Rounding, m: Money): Json {
    Object(Amount(fl, m), m.currency)
  }

  function UnmarshalJSON(fl: Rounding, j: Json): Option<Money> {
    match j
    case Object(amount, currency) => Some(NewMoney(fl, amount, currency))
    case Number(value) => Some(NewMoney(fl, value, DEFAULT_CURRENCY))
    case Null => Some(NewMoney(fl, 0.0, ""))
    case Other => None
  }

  /** The JSON round trip is the identity exactly for values that name their currency. */
  lemma JsonRoundTrip(fl: Rounding, m: Money)
    requires Rounds(fl) && Safe(m)
    ensures UnmarshalJSON(fl, MarshalJSON(fl, m)) == Some(m) <==> m.currency != ""
  {
    CentsRoundTrip(fl, m);
  }

  // ----- the database

  /** A value handed to Scan; text is taken as parsed. */
  datatype Stored = Nil | Float(f: real) | Int(n: int) | Text(parsed: Option<real>) | Unsupported

  function Value(fl: Rounding, m: Money): Stored {
    Float(Amount(fl, m))
  }

  function Scanned(fl: Rounding, v: Stored): Option<Money> {
    match v
    case Nil => Some(Money(0, DEFAULT_CURRENCY))
    case Float(f) => Some(NewMoney(fl, f, DEFAULT_CURRENCY))
    case Int(n) => Some(FromCents(Wrap(n * 100), DEFAULT_CURRENCY))
    case Text(parsed) => if parsed.Some? then Some(NewMoney(fl, parsed.value, DEFAULT_CURRENCY)) else None
    case Unsupported => None
  }

  /** The column keeps no currency: Value then Scan is the identity exactly for ringgit. */
  lemma ScanRoundTrip(fl: Rounding, m: Money)
    requires Rounds(fl) && Safe(m)
    ensures Scanned(fl, Value(fl, m)) == Some(m) <==> m.currency == DEFAULT_CURRENCY
  {
    CentsRoundTrip(fl, Money(m.cents, DEFAULT_CURRENCY));
  }

  /** An integer column is read as whole units, exactly while a hundred times it fits in int64. */
  lemma ScanInteger(fl: Rounding, n: int)
    ensures Scanned(fl, Int(n)) == Some(Money(n * 100, DEFAULT_CURRENCY)) <==> -TWO_63 <= n * 100 < TWO_63
  {
  }

  /** Whatever form a stored or decoded amount has, it gives back the cents it was made of, in ringgit where the
      form names no currency; nothing is no money, and text that is no number, or another type, is refused. */
  lemma EveryFormIsRead(fl: Rounding, m: Money)
    requires Rounds(fl) && Safe(m)
    ensures var amount, ringgit := Amount(fl, m), Some(Money(m.cents, "MYR"));
            && Scanned(fl, Float(amount)) == Scanned(fl, Text(Some(amount))) == UnmarshalJSON(fl, Number(amount)) == ringgit
            && UnmarshalJSON(fl, Object(amount, "")) == ringgit
            && (m.currency != "" ==> UnmarshalJSON(fl, Object(amount, m.currency)) == Some(m))
    ensures Scanned(fl, Nil) == UnmarshalJSON(fl, Null) == Some(Money(0, "MYR"))
    ensures Scanned(fl, Text(None)) == Scanned(fl, Unsupported) == UnmarshalJSON(fl, Other) == None
  {
    CentsRoundTrip(fl, m);
    CentsRoundTrip(fl, Money(m.cents, DEFAULT_CURRENCY));
    assert RoundsAt(fl, 0.0) && Whole(0.0);
  }

  /** Scan and UnmarshalJSON assign through their receiver, and leave it alone when they fail. */
  class Receiver {
    var money: Money

    method Scan(fl: Rounding, v: Stored) returns (ok: bool)
      modifies this
      ensures ok == Scanned(fl, v).Some?
      ensures money == if ok then Scanned(fl, v).value else old(money)
    {
      ok := true;
      match v {
        case Nil => money := Money(0, DEFAULT_CURRENCY);
        case Float(f) => money := NewMoney(fl, f, DEFAULT_CURRENCY);
        case Int(n) => money := FromCents(Wrap(n * 100), DEFAULT_CURRENCY);
        case Text(parsed) =>
          if parsed == None {
            return false;
          }
          money := NewMoney(fl, parsed.value, DEFAULT_CURRENCY);
        case Unsupported => ok := false;
      }
    }

    method Unmarshal(fl: Rounding, j: Json) returns (ok: bool)
      modifies this
      ensures ok == UnmarshalJSON(fl, j).Some?
      ensures money == if ok then UnmarshalJSON(fl, j).value else old(money)
    {
      ok := true;
      match j {
        case Object(amount, currency) => money := NewMoney(fl, amount, currency);
        case Number(value) => money := NewMoney(fl, value, DEFAULT_CURRENCY);
        case Null => money := NewMoney(fl, 0.0, "");
        case Other => ok := false;
      }
    }
  }

  // ----- sums

  function TotalCents(values: seq<Money>): int {
    if values == [] then 0 else TotalCents(Front(values)) + Last(values).cents
  }

  /** SumMoney: the total of one currency, as int64; none when currencies differ. */
  method SumMoney(values: seq<Money>) returns (r: Option<Money>)
    ensures r.Some? <==> forall i | 0 <= i < |values| :: values[i].currency == values[0].currency
    ensures r.Some? && values != [] ==> r.value.currency == values[0].currency
    ensures r.Some? && values != [] && (forall k | 0 < k <= |values| :: -TWO_63 <= TotalCents(values[..k]) < TWO_63) ==>
              r.value.cents == TotalCents(values)
    ensures values == [] ==> r == Some(Money(0, DEFAULT_CURRENCY))
  {
    if values == [] {
      return Some(Money(0, DEFAULT_CURRENCY));
    }
    var result := values[0];
    assert Front(values[..1]) == [];
    var i := 1;
    while i < |values|
      invariant 1 <= i <= |values| && result.currency == values[0].currency
      invariant forall j | 0 <= j < i :: values[j].currency == values[0].currency
      invariant (forall k | 0 < k <= i :: -TWO_63 <= TotalCents(values[..k]) < TWO_63) ==> result.cents == TotalCents(values[..i])
    {
      if result.currency != values[i].currency {
        return None;
      }
      assert Front(values[..i + 1]) == values[..i];
      result := Money(Wrap(result.cents + values[i].cents), result.currency);
      i := i + 1;
    }
    assert values[..|values|] == values;
    r := Some(result);
  }
}
