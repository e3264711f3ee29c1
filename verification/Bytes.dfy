/** Bytes, and numbers as digits of eight or of five bits. */
module Bytes {

  type Byte = x: int | 0 <= x < 256

  datatype Radix = Octets | Quintets {
    function Base(): (r: nat)
      ensures r > 1
    {
      if Octets? then 256 else 32
    }

    function Div(n: nat): nat {
      if Octets? then n / 256 else n / 32
    }

    function Mod(n: nat): (r: nat)
      ensures r < Base()
    {
      if Octets? then n % 256 else n % 32
    }

    function Mul(n: nat): nat {
      if Octets? then n * 256 else n * 32
    }

    /** `n` shifted right by `k` digits. */
    function Shift(n: nat, k: nat): nat {
      if k == 0 then n else Div(Shift(n, k - 1))
    }

    function Pow(k: nat): nat {
      if k == 0 then 1 else Mul(Pow(k - 1))
    }

    /** The low `k` digits of `n`, most significant first. */
    function Digits(n: nat, k: nat): (r: seq<nat>)
      ensures |r| == k
    {
      if k == 0 then [] else Digits(Div(n), k - 1) + [Mod(n)]
    }

    function Value(ds: seq<nat>): nat {
      if |ds| == 0 then 0 else Mul(Value(ds[..|ds| - 1])) + ds[|ds| - 1]
    }

    ghost predicate Proper(ds: seq<nat>) {
      forall i :: 0 <= i < |ds| ==> ds[i] < Base()
    }

    lemma {:induction false} DigitsProper(n: nat, k: nat)
      ensures Proper(Digits(n, k))
    {
      if k > 0 { DigitsProper(Div(n), k - 1); }
    }

    /** Reading the digits of a number that fits gives the number. */
    lemma {:induction false} ValueOfDigits(n: nat, k: nat)
      requires n < Pow(k)
      ensures Value(Digits(n, k)) == n
    {
      if k > 0 {
        ValueOfDigits(Div(n), k - 1);
        var before := Digits(Div(n), k - 1);
        assert (before + [Mod(n)])[..k - 1] == before;
      }
    }

    lemma {:induction false} ValueBound(ds: seq<nat>)
      requires Proper(ds)
      ensures Value(ds) < Pow(|ds|)
    {
      if |ds| > 0 { ValueBound(ds[..|ds| - 1]); }
    }

    /** Writing a value read from digits gives the digits. */
    lemma {:induction false} DigitsOfValue(ds: seq<nat>)
      requires Proper(ds)
      ensures Digits(Value(ds), |ds|) == ds
    {
      if |ds| > 0 { DigitsOfValue(ds[..|ds| - 1]); }
    }

    lemma {:induction false} DigitOfShift(n: nat, k: nat, i: nat)
      requires i < k
      ensures Digits(n, k)[k - 1 - i] == Mod(Shift(n, i))
    {
      if i > 0 {
        DigitOfShift(Div(n), k - 1, i - 1);
        ShiftFirst(n, i);
      }
    }

    lemma {:induction false} ShiftFirst(n: nat, i: nat)
      requires i > 0
      ensures Shift(n, i) == Shift(Div(n), i - 1)
    {
      if i > 1 { ShiftFirst(n, i - 1); }
    }
  }
}
