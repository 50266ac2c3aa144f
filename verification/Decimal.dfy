// Decimal notation of natural numbers, as lists of digits.

module Decimal {
  function Digits(n: nat): (ds: seq<nat>)
    ensures 0 < |ds| && forall i :: 0 <= i < |ds| ==> ds[i] < 10
  {
    if n < 10 then [n] else Digits(n / 10) + [n % 10]
  }

  function Value(ds: seq<nat>): nat {
    if ds == [] then 0 else 10 * Value(ds[..|ds| - 1]) + ds[|ds| - 1]
  }

  lemma {:induction false} ValueOfDigits(n: nat)
    ensures Value(Digits(n)) == n
  {
    if n >= 10 {
      ValueOfDigits(n / 10);
      assert Digits(n)[..|Digits(n)| - 1] == Digits(n / 10);
    }
  }

  // The usual text of a number.
  function Figures(n: nat): string {
    var ds := Digits(n);
    seq(|ds|, i requires 0 <= i < |ds| => '0' + ds[i] as char)
  }

  lemma FiguresAreUnique(m: nat, n: nat)
    ensures Figures(m) == Figures(n) <==> m == n
  {
    if Figures(m) == Figures(n) {
      var a, b := Digits(m), Digits(n);
      forall i | 0 <= i < |a|
        ensures a[i] == b[i]
      {
        assert Figures(m)[i] == Figures(n)[i];
      }
      assert a == b;
      ValueOfDigits(m);
      ValueOfDigits(n);
    }
  }
}
