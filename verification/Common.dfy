/** Types shared by every component: machine integers, bytes and the absent value. */
module Common {
  datatype Option<+T> = None | Some(value: T)

  type Uint32 = x: int | 0 <= x < 0x1_0000_0000
  type Int32 = x: int | -0x8000_0000 <= x < 0x8000_0000
  type Byte = x: int | 0 <= x < 256

  /** What the firmware returns as 0 or a negated errno. */
  datatype Status = Success | Busy | NoEntry | Invalid | NoSpace | IoError | TooLong | NotSupported
    | NoMemory | TimedOut

  predicate Distinct<T(==)>(s: seq<T>) {
    forall i, j :: 0 <= i < j < |s| ==> s[i] != s[j]
  }

  // ---------------------------------------------------------------- division facts

  lemma MulAtLeast(k: int, n: int)
    requires k >= 1 && n >= 0
    ensures k * n >= n
  {
  }

  /** The quotient and the remainder are the only pair that writes `a` as q * n + r. */
  lemma ModIs(a: int, q: int, n: int, r: int)
    requires 0 <= r < n && a == q * n + r
    ensures a % n == r && a / n == q
  {
    var p, s := a / n, a % n;
    assert (p - q) * n == r - s by {
      assert a == n * p + s;
      assert n * p == p * n;
      assert (p - q) * n == p * n - q * n;
    }
    assert (q - p) * n == -((p - q) * n);
    if p > q {
      MulAtLeast(p - q, n);
    } else if p < q {
      MulAtLeast(q - p, n);
    }
  }

  lemma ModStep(a: int, n: int)
    requires n > 0
    ensures (a % n + 1) % n == (a + 1) % n
  {
    var q, r := a / n, a % n;
    assert a == n * q + r;
    assert n * q == q * n;
    if r + 1 < n {
      ModIs(a + 1, q, n, r + 1);
      ModIs(r + 1, 0, n, r + 1);
    } else {
      assert (q + 1) * n == q * n + n;
      ModIs(a + 1, q + 1, n, 0);
      ModIs(r + 1, 1, n, 0);
    }
  }
}
