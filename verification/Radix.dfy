// Positional numerals, most significant digit first, in the two bases of base58.
module Radix {
  datatype Base = B58 | B256 {
    function Size(): nat { match this case B58 => 58 case B256 => 256 }

    function Times(n: nat): nat { match this case B58 => 58 * n case B256 => 256 * n }

    function Div(n: nat): (q: nat)
      ensures n > 0 ==> q < n
    {
      match this case B58 => n / 58 case B256 => n / 256
    }

    function Mod(n: nat): (r: nat)
      ensures r < Size() && n == Times(Div(n)) + r
    {
      match this case B58 => n % 58 case B256 => n % 256
    }
  }

  function Pow(b: Base, e: nat): (p: nat)
    ensures p > 0
  {
    if e == 0 then 1 else b.Times(Pow(b, e - 1))
  }

  predicate DigitsOf(b: Base, ds: seq<nat>) {
    forall i | 0 <= i < |ds| :: ds[i] < b.Size()
  }

  function Value(b: Base, ds: seq<nat>): nat {
    if ds == [] then 0 else b.Times(Value(b, ds[..|ds| - 1])) + ds[|ds| - 1]
  }

  // The numeral without leading zeros; zero has no digits.
  function Digits(b: Base, n: nat): seq<nat>
    decreases n
  {
    if n == 0 then [] else Digits(b, b.Div(n)) + [b.Mod(n)]
  }

  function LeadingZeros(ds: seq<nat>): (k: nat)
    ensures k <= |ds|
  {
    if ds != [] && ds[0] == 0 then 1 + LeadingZeros(ds[1..]) else 0
  }

  function Zeros(k: nat): seq<nat> { seq(k, _ => 0) }

  // Base conversion that keeps the leading zeros.
  function Convert(from: Base, to: Base, ds: seq<nat>): seq<nat> {
    Zeros(LeadingZeros(ds)) + Digits(to, Value(from, ds))
  }

  // ---- Numerals and numbers correspond ----

  lemma {:induction false} DigitsAreDigits(b: Base, n: nat)
    ensures DigitsOf(b, Digits(b, n))
    ensures n > 0 ==> Digits(b, n) != [] && Digits(b, n)[0] != 0
    decreases n
  {
    if n > 0 {
      DigitsAreDigits(b, b.Div(n));
      assert n == b.Times(b.Div(n)) + b.Mod(n);
    }
  }

  lemma {:induction false} ValueOfDigits(b: Base, n: nat)
    ensures Value(b, Digits(b, n)) == n
    decreases n
  {
    if n > 0 {
      ValueOfDigits(b, b.Div(n));
      assert Digits(b, n)[..|Digits(b, n)| - 1] == Digits(b, b.Div(n));
      assert n == b.Times(b.Div(n)) + b.Mod(n);
    }
  }

  lemma {:induction false} ValuePositive(b: Base, ds: seq<nat>)
    requires ds != [] && ds[0] != 0
    ensures Value(b, ds) >= Pow(b, |ds| - 1)
  {
    if |ds| > 1 {
      ValuePositive(b, ds[..|ds| - 1]);
    }
  }

  lemma {:induction false} DigitsOfValue(b: Base, ds: seq<nat>)
    requires DigitsOf(b, ds)
    requires ds != [] ==> ds[0] != 0
    ensures Digits(b, Value(b, ds)) == ds
  {
    if ds != [] {
      var front := ds[..|ds| - 1];
      ValuePositive(b, ds);
      DigitsOfValue(b, front);
      var n := Value(b, ds);
      assert b.Div(n) == Value(b, front) && b.Mod(n) == ds[|ds| - 1];
      assert ds == front + [ds[|ds| - 1]];
    }
  }

  lemma {:induction false} ZerosAddNothing(b: Base, k: nat, ds: seq<nat>)
    ensures Value(b, Zeros(k) + ds) == Value(b, ds)
  {
    if ds != [] {
      assert (Zeros(k) + ds)[..|Zeros(k) + ds| - 1] == Zeros(k) + ds[..|ds| - 1];
      ZerosAddNothing(b, k, ds[..|ds| - 1]);
    } else if k > 0 {
      assert (Zeros(k) + ds)[..k - 1] == Zeros(k - 1) + ds;
      ZerosAddNothing(b, k - 1, ds);
    }
  }

  lemma {:induction false} ZerosLead(k: nat, ds: seq<nat>)
    requires ds != [] ==> ds[0] != 0
    ensures LeadingZeros(Zeros(k) + ds) == k
  {
    if k > 0 {
      assert (Zeros(k) + ds)[1..] == Zeros(k - 1) + ds;
      ZerosLead(k - 1, ds);
    }
  }

  lemma {:induction false} SplitZeros(ds: seq<nat>)
    ensures var k := LeadingZeros(ds); ds == Zeros(k) + ds[k..] && (ds[k..] != [] ==> ds[k..][0] != 0)
  {
    if ds != [] && ds[0] == 0 {
      SplitZeros(ds[1..]);
      var k := LeadingZeros(ds[1..]);
      var rest := ds[1..][k..];
      assert ds[k + 1..] == rest;
      assert ds == [0] + (Zeros(k) + rest);
      assert [0] + (Zeros(k) + rest) == Zeros(k + 1) + rest;
    }
  }

  // A numeral is its leading zeros and the digits of its value.
  lemma CanonicalForm(b: Base, ds: seq<nat>)
    requires DigitsOf(b, ds)
    ensures ds == Zeros(LeadingZeros(ds)) + Digits(b, Value(b, ds))
  {
    var k := LeadingZeros(ds);
    SplitZeros(ds);
    ZerosAddNothing(b, k, ds[k..]);
    DigitsOfValue(b, ds[k..]);
  }

  lemma ConvertedForm(to: Base, k: nat, n: nat)
    ensures var ds := Zeros(k) + Digits(to, n); DigitsOf(to, ds) && LeadingZeros(ds) == k && Value(to, ds) == n
  {
    DigitsAreDigits(to, n);
    ZerosLead(k, Digits(to, n));
    ZerosAddNothing(to, k, Digits(to, n));
    ValueOfDigits(to, n);
  }

  // Converting there and back is the identity, so conversion is a bijection between the numerals of the
  // two bases, leading zeros included.
  lemma ConvertBack(from: Base, to: Base, ds: seq<nat>)
    requires DigitsOf(from, ds)
    ensures DigitsOf(to, Convert(from, to, ds))
    ensures Convert(to, from, Convert(from, to, ds)) == ds
  {
    ConvertedForm(to, LeadingZeros(ds), Value(from, ds));
    CanonicalForm(from, ds);
  }

  // ---- Sizes ----

  lemma {:induction false} ValueBounded(b: Base, ds: seq<nat>)
    requires DigitsOf(b, ds)
    ensures Value(b, ds) < Pow(b, |ds|)
  {
    if ds != [] {
      ValueBounded(b, ds[..|ds| - 1]);
    }
  }

  lemma {:induction false} PowGrows(b: Base, e: nat, f: nat)
    requires e <= f
    ensures Pow(b, e) <= Pow(b, f)
  {
    if e < f {
      PowGrows(b, e, f - 1);
    }
  }

  // A number has more than `k` digits exactly if it reaches the `k`-th power.
  lemma {:induction false} MoreDigits(b: Base, n: nat, k: nat)
    ensures |Digits(b, n)| > k <==> Pow(b, k) <= n
  {
    if n > 0 {
      var ds := Digits(b, n);
      DigitsAreDigits(b, n);
      ValueOfDigits(b, n);
      ValueBounded(b, ds);
      ValuePositive(b, ds);
      if |ds| <= k {
        PowGrows(b, |ds|, k);
      } else {
        PowGrows(b, k, |ds| - 1);
      }
    }
  }

  // The number without its last `m` digits.
  function Shift(b: Base, n: nat, m: nat): nat {
    if m == 0 then n else Shift(b, b.Div(n), m - 1)
  }

  lemma {:induction false} DigitsPrefix(b: Base, n: nat, m: nat)
    requires Pow(b, m) <= n
    ensures |Digits(b, n)| == |Digits(b, Shift(b, n, m))| + m
    ensures Digits(b, n)[..|Digits(b, n)| - m] == Digits(b, Shift(b, n, m))
    decreases m
  {
    if m > 0 {
      assert n == b.Times(b.Div(n)) + b.Mod(n);
      DigitsPrefix(b, b.Div(n), m - 1);
    }
  }
}
