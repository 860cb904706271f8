/**
 * The fixed-rate annuity `pmt` nested in `compute_scores`, and the monthly
 * loan balance it is meant to pay off.
 */
module Loan {
  import opened Wrappers

  /** `b ** n` for a natural exponent. */
  function Pow(b: real, n: nat): real {
    if n == 0 then 1.0 else b * Pow(b, n - 1)
  }

  lemma {:induction false} PowAboveOne(b: real, n: nat)
    requires b > 1.0 && n > 0
    ensures Pow(b, n) > 1.0
  {
    if n > 1 {
      PowAboveOne(b, n - 1);
      assert b * Pow(b, n - 1) > 1.0 * Pow(b, n - 1);
    }
  }

  /**
   * `pmt(rate_m, n, p)`: nothing to pay on a non-positive principal, an even
   * split `p / n` at a zero rate, otherwise the annuity
   * `p * r(1+r)^n / ((1+r)^n - 1)`. Python raises `ZeroDivisionError` when
   * `n == 0` at a zero rate, or when `(1+r)^n == 1` otherwise.
   */
  function Pmt(rateM: real, n: nat, p: real): (r: Result<real>)
    ensures p <= 0.0 ==> r == Ok(0.0)
    ensures p > 0.0 && rateM == 0.0 ==> (r.Ok? <==> n > 0) && (n > 0 ==> r.value * (n as real) == p)
    ensures p > 0.0 && rateM != 0.0 ==>
              (r.Ok? <==> Pow(1.0 + rateM, n) != 1.0) &&
              (r.Ok? ==> r.value * (Pow(1.0 + rateM, n) - 1.0) == p * rateM * Pow(1.0 + rateM, n))
    ensures r.Err? ==> r.error == ZeroDivisionError
  {
    if p <= 0.0 then Ok(0.0)
    else if rateM == 0.0 then
      (if n == 0 then Err(ZeroDivisionError) else Ok(p / n as real))
    else
      var g := Pow(1.0 + rateM, n);
      if g - 1.0 == 0.0 then Err(ZeroDivisionError)
      else Ok(p * (rateM * g) / (g - 1.0))
  }

  /**
   * Reference definition: the outstanding principal after `k` months when
   * each month the balance accrues interest at `rateM` and `pay` is repaid.
   */
  function Balance(p: real, rateM: real, pay: real, k: nat): real {
    if k == 0 then p else Balance(p, rateM, pay, k - 1) * (1.0 + rateM) - pay
  }

  /** Closed form of the balance, multiplied through by the rate. */
  lemma {:induction false} BalanceClosedForm(p: real, rateM: real, pay: real, k: nat)
    ensures Balance(p, rateM, pay, k) * rateM ==
            p * rateM * Pow(1.0 + rateM, k) - pay * (Pow(1.0 + rateM, k) - 1.0)
  {
    if k > 0 {
      BalanceClosedForm(p, rateM, pay, k - 1);
      var b := Balance(p, rateM, pay, k - 1);
      var q := Pow(1.0 + rateM, k - 1);
      var g := Pow(1.0 + rateM, k);
      assert Balance(p, rateM, pay, k) == b * (1.0 + rateM) - pay;
      assert g == (1.0 + rateM) * q;
      ClosedFormStep(b, p, rateM, pay, q);
      assert p * rateM * g == p * rateM * ((1.0 + rateM) * q);
      assert pay * (g - 1.0) == pay * ((1.0 + rateM) * q - 1.0);
    }
  }

  /** One month of the closed form: accrue interest on `b`, repay `pay`. */
  lemma ClosedFormStep(b: real, p: real, r: real, pay: real, q: real)
    requires b * r == p * r * q - pay * (q - 1.0)
    ensures (b * (1.0 + r) - pay) * r == p * r * ((1.0 + r) * q) - pay * ((1.0 + r) * q - 1.0)
  {
    var x := b * r;
    assert (b * (1.0 + r) - pay) * r == x + x * r - pay * r;
    assert x * r == p * r * q * r - pay * (q - 1.0) * r;
  }

  /** At a zero rate the balance falls by one payment a month. */
  lemma {:induction false} BalanceZeroRate(p: real, pay: real, k: nat)
    ensures Balance(p, 0.0, pay, k) == p - (k as real) * pay
  {
    if k > 0 {
      BalanceZeroRate(p, pay, k - 1);
    }
  }

  /**
   * The payment `pmt` returns for a positive principal repays that principal
   * exactly: after `n` monthly payments the balance is zero.
   */
  lemma PmtRepaysLoan(rateM: real, n: nat, p: real)
    requires Pmt(rateM, n, p).Ok?
    ensures p > 0.0 ==> Balance(p, rateM, Pmt(rateM, n, p).value, n) == 0.0
  {
    var pay := Pmt(rateM, n, p).value;
    if p <= 0.0 {
    } else if rateM == 0.0 {
      BalanceZeroRate(p, pay, n);
    } else {
      BalanceClosedForm(p, rateM, pay, n);
      assert Balance(p, rateM, pay, n) * rateM == 0.0;
    }
  }

  /** At a positive rate the payment is positive and exceeds the first month's interest. */
  lemma PmtExceedsInterest(rateM: real, n: nat, p: real)
    requires p > 0.0 && rateM > 0.0 && n > 0
    ensures Pmt(rateM, n, p).Ok?
    ensures Pmt(rateM, n, p).value > p * rateM > 0.0
  {
    var g := Pow(1.0 + rateM, n);
    PowAboveOne(1.0 + rateM, n);
    var pay := Pmt(rateM, n, p).value;
    var d := g - 1.0;
    assert (pay - p * rateM) * d == p * rateM;
    if pay <= p * rateM {
      assert false;
    }
  }
}
