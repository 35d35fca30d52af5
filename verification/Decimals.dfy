/** Powers of ten and the decimal text of a number over any ten symbols. */
module Decimals {

  function Pow10(k: nat): (p: nat)
    ensures p > 0
  {
    if k == 0 then 1 else 10 * Pow10(k - 1)
  }

  function Text<T>(n: nat, symbols: seq<T>): (s: seq<T>)
    requires |symbols| == 10
    ensures s != []
  {
    if n < 10 then [symbols[n]] else Text(n / 10, symbols) + [symbols[n % 10]]
  }

  lemma {:induction false} TextSymbols<T>(n: nat, symbols: seq<T>, i: nat)
    requires |symbols| == 10 && i < |Text(n, symbols)|
    ensures Text(n, symbols)[i] in symbols
  {
    if n < 10 || i == |Text(n, symbols)| - 1 {
    } else {
      TextSymbols(n / 10, symbols, i);
    }
  }

  lemma {:induction false} TextInjective<T>(a: nat, b: nat, symbols: seq<T>)
    requires |symbols| == 10 && forall i, j :: 0 <= i < j < 10 ==> symbols[i] != symbols[j]
    requires Text(a, symbols) == Text(b, symbols)
    ensures a == b
  {
    var s, t := Text(a, symbols), Text(b, symbols);
    if a < 10 || b < 10 {
      assert s[0] == t[0] && |s| == |t|;
    } else {
      assert s[..|s| - 1] == Text(a / 10, symbols) && t[..|t| - 1] == Text(b / 10, symbols);
      TextInjective(a / 10, b / 10, symbols);
      assert s[|s| - 1] == t[|t| - 1];
    }
  }

  /** A number below 10^k has at most k digits. */
  lemma {:induction false} TextLength<T>(n: nat, k: nat, symbols: seq<T>)
    requires |symbols| == 10 && 0 < k && n < Pow10(k)
    ensures |Text(n, symbols)| <= k
  {
    if n < 10 {
    } else {
      assert Pow10(1) == 10 * Pow10(0);
      assert n / 10 < Pow10(k - 1);
      TextLength(n / 10, k - 1, symbols);
    }
  }
}
