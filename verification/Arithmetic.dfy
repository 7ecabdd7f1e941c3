/** Order, and facts about quotients and remainders, that the modules on rotation and time share. */
module Arithmetic {

  predicate Sorted(s: seq<int>) {
    forall i, j :: 0 <= i <= j < |s| ==> s[i] <= s[j]
  }

  lemma MultipleIsFar(d: int, n: int)
    requires n > 0
    ensures d > 0 ==> d * n >= n
    ensures d < 0 ==> d * n <= -n
  {
  }

  lemma RemainderMod(q: int, n: int, r: int)
    requires n > 0 && 0 <= r < n
    ensures (q * n + r) % n == r && (q * n + r) / n == q
  {
    var x := q * n + r;
    var d := x / n - q;
    assert d * n == r - x % n;
    MultipleIsFar(d, n);
  }

  lemma DivSucc(x: int, n: int)
    requires n > 0 && x >= 0
    ensures (x + 1) / n == x / n + (if (x + 1) % n == 0 then 1 else 0)
  {
    var q, r := x / n, x % n;
    assert x == q * n + r;
    if r == n - 1 {
      assert x + 1 == (q + 1) * n;
      RemainderMod(q + 1, n, 0);
    } else {
      RemainderMod(q, n, r + 1);
    }
  }

  lemma CongruentIff(a: int, b: int, n: int)
    requires n > 0
    ensures a % n == b % n <==> (a - b) % n == 0
  {
    var q, r := a / n, b / n;
    assert a == q * n + a % n && b == r * n + b % n;
    assert a - b == (q - r) * n + (a % n - b % n);
    if a % n >= b % n {
      RemainderMod(q - r, n, a % n - b % n);
    } else {
      assert a - b == (q - r - 1) * n + (n + a % n - b % n);
      RemainderMod(q - r - 1, n, n + a % n - b % n);
    }
  }

  lemma DivMinus(x: int, n: int)
    requires n > 0
    ensures (x - n) / n == x / n - 1
  {
    var q := x / n;
    assert x - n == (q - 1) * n + x % n;
    RemainderMod(q - 1, n, x % n);
  }
}
