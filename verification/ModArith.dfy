/** The few facts about `%` that ring indices need. */
module ModArith {

  lemma {:induction false} ModUnique(x: int, n: int, q: int, r: int)
    requires n > 0 && 0 <= r < n && x == q * n + r
    ensures x % n == r && x / n == q
  {
    var q', r' := x / n, x % n;
    assert (q - q') * n == r' - r;
    if q - q' >= 1 {
      MulGe(q - q', n);
    } else if q - q' <= -1 {
      MulGe(q' - q, n);
    }
  }

  lemma MulGe(k: int, n: int)
    requires k >= 1 && n > 0
    ensures k * n >= n
  {
  }

  lemma {:induction false} ModStep(x: nat, n: int)
    requires n > 0
    ensures (x % n + 1) % n == (x + 1) % n
  {
    var q, r := x / n, x % n;
    if r + 1 < n {
      ModUnique(x + 1, n, q, r + 1);
    } else {
      assert (q + 1) * n == q * n + n;
      ModUnique(x + 1, n, q + 1, 0);
      ModUnique(n, n, 1, 0);
    }
  }

  lemma {:induction false} ModAdd(x: nat, k: nat, n: int)
    requires n > 0
    ensures (x % n + k) % n == (x + k) % n
  {
    var q := x / n;
    var y := x % n + k;
    assert x + k == q * n + y;
    assert y == (y / n) * n + y % n;
    assert (q + y / n) * n == q * n + (y / n) * n;
    ModUnique(x + k, n, q + y / n, y % n);
  }

  lemma {:induction false} ModDistinct(x: nat, y: nat, n: int)
    requires n > 0 && x < y < x + n
    ensures x % n != y % n
  {
    var d := y / n - x / n;
    assert y - x == d * n + (y % n - x % n);
    if d >= 1 {
      MulGe(d, n);
    }
  }

  /** The ring slot of the k-th chunk: k mod n, reached by wrapping. */
  function Slot(k: nat, n: nat): (r: nat)
    requires n > 0
    ensures r < n
  {
    if k < n then k else Slot(k - n, n)
  }

  lemma {:induction false} SlotIsMod(k: nat, n: nat)
    requires n > 0
    ensures Slot(k, n) == k % n
    decreases k
  {
    if k < n {
      ModUnique(k, n, 0, k);
    } else {
      SlotIsMod(k - n, n);
      assert k == ((k - n) / n + 1) * n + (k - n) % n;
      ModUnique(k, n, (k - n) / n + 1, (k - n) % n);
    }
  }

  /** Advancing an index as the two loops do reaches the next slot. */
  lemma {:induction false} SlotStep(k: nat, n: nat)
    requires n > 0
    ensures (Slot(k, n) + 1) % n == Slot(k + 1, n)
  {
    SlotIsMod(k, n);
    SlotIsMod(k + 1, n);
    ModStep(k, n);
  }

  lemma {:induction false} SlotDistinct(x: nat, y: nat, n: nat)
    requires n > 0 && x < y < x + n
    ensures Slot(x, n) != Slot(y, n)
  {
    SlotIsMod(x, n);
    SlotIsMod(y, n);
    ModDistinct(x, y, n);
  }
}
