/**
 Planes of equally long rows, and what change_stride does to one.

 Rows are taken from the front one at a time, and the bytes a plane takes up are counted the same way
 (`Area`), so that no proof but one has to multiply. Changing a plane and changing it back is followed
 row by row with whatever bytes lie behind it, because the alpha plane of an image lies behind its
 bitmap.
 */
module Planes {
  import opened Common

  // ---------------------------------------------------------------- areas

  /** The product n * h: h rows of n. */
  function Area(n: nat, h: nat): nat {
    if h == 0 then 0 else n + Area(n, h - 1)
  }

  lemma {:induction false} AreaIsProduct(n: nat, h: nat)
    ensures Area(n, h) == n * h
    decreases h
  {
    if h > 0 {
      AreaIsProduct(n, h - 1);
      assert n * h == n + n * (h - 1);
    }
  }

  lemma {:induction false} AreaIsZero(n: nat, h: nat)
    ensures Area(n, h) == 0 <==> n == 0 || h == 0
    decreases h
  {
    if h > 0 {
      AreaIsZero(n, h - 1);
    }
  }

  lemma {:induction false} AreaAdds(n: nat, k: nat, h: nat)
    ensures Area(n + k, h) == Area(n, h) + Area(k, h)
    decreases h
  {
    if h > 0 {
      AreaAdds(n, k, h - 1);
    }
  }

  // ---------------------------------------------------------------- rows

  function Min(a: int, b: int): int { if a < b then a else b }

  function Zeros(n: nat): (z: seq<Byte>)
    ensures |z| == n && forall i :: 0 <= i < n ==> z[i] == 0
  {
    seq(n, _ => 0)
  }

  predicate AllZero(row: seq<Byte>, from: nat) {
    forall i :: from <= i < |row| ==> row[i] == 0
  }

  /** One row of `current` bytes cut down or padded to `target` bytes. */
  function FitRow(row: seq<Byte>, current: nat, target: nat): seq<Byte> {
    if target < current then row[..Min(target, |row|)] else row + Zeros(target - current)
  }

  /** A row of the wanted size that agrees with the old one wherever both reach. */
  lemma FitRowKeeps(row: seq<Byte>, current: nat, target: nat)
    requires |row| == current
    ensures |FitRow(row, current, target)| == target
    ensures forall x :: 0 <= x < Min(current, target) ==> FitRow(row, current, target)[x] == row[x]
  {
  }

  lemma FitBack(row: seq<Byte>, current: nat, target: nat)
    requires |row| == current <= target
    ensures FitRow(FitRow(row, current, target), target, current) == row
  {
    if current == target {
      assert row + Zeros(0) == row;
    }
  }

  lemma SameHalves(a: seq<Byte>, b: seq<Byte>, c: seq<Byte>, d: seq<Byte>)
    requires |a| == |c|
    ensures a + b == c + d <==> a == c && b == d
  {
    assert (a + b)[..|a|] == a && (a + b)[|a|..] == b;
    assert (c + d)[..|c|] == c && (c + d)[|c|..] == d;
  }

  /** Cut and padded back, a row is itself exactly when it was zero there, whatever comes behind. */
  lemma CutBack(row: seq<Byte>, current: nat, target: nat, below: seq<Byte>, behind: seq<Byte>)
    requires |row| == current && target < current
    ensures FitRow(FitRow(row, current, target), target, current) + behind == row + below
            <==> AllZero(row, target) && behind == below
  {
    var back := row[..target] + Zeros(current - target);
    SameHalves(back, behind, row, below);
    assert forall i :: target <= i < current ==> back[i] == 0;
    assert back == row <==> AllZero(row, target);
  }

  // ---------------------------------------------------------------- planes

  function ChangeStride(data: seq<Byte>, h: nat, current: nat, target: nat): seq<Byte> {
    if h == 0 then []
    else
      var m := Min(current, |data|);
      FitRow(data[..m], current, target) + ChangeStride(data[m..], h - 1, current, target)
  }

  /** `h` rows of `n` bytes fit in the data. */
  predicate Holds(data: seq<Byte>, h: nat, n: nat) {
    h == 0 || (n <= |data| && Holds(data[n..], h - 1, n))
  }

  lemma {:induction false} HoldsIff(data: seq<Byte>, h: nat, n: nat)
    ensures Holds(data, h, n) <==> Area(n, h) <= |data|
    decreases h
  {
    if h > 0 && n <= |data| {
      HoldsIff(data[n..], h - 1, n);
    }
  }

  /** The rows the data holds, and nothing behind them. */
  function Plane(data: seq<Byte>, h: nat, n: nat): seq<Byte>
    requires Holds(data, h, n)
  {
    if h == 0 then [] else data[..n] + Plane(data[n..], h - 1, n)
  }

  lemma {:induction false} PlaneIsPrefix(data: seq<Byte>, h: nat, n: nat)
    requires Holds(data, h, n)
    ensures Area(n, h) <= |data| && Plane(data, h, n) == data[..Area(n, h)]
    decreases h
  {
    HoldsIff(data, h, n);
    if h > 0 {
      PlaneIsPrefix(data[n..], h - 1, n);
      assert data[..Area(n, h)] == data[..n] + data[n..][..Area(n, h - 1)];
    }
  }

  /** A changed plane has h rows of the target size. */
  lemma {:induction false} ChangedLength(data: seq<Byte>, h: nat, current: nat, target: nat)
    requires Holds(data, h, current)
    ensures |ChangeStride(data, h, current, target)| == Area(target, h)
    decreases h
  {
    if h > 0 {
      ChangedLength(data[current..], h - 1, current, target);
    }
  }

  lemma FirstRow(row: seq<Byte>, rest: seq<Byte>, h: nat, current: nat, target: nat)
    requires |row| == current && h > 0
    ensures ChangeStride(row + rest, h, current, target)
            == FitRow(row, current, target) + ChangeStride(rest, h - 1, current, target)
  {
    assert (row + rest)[..current] == row && (row + rest)[current..] == rest;
  }

  /** The plane changed and changed back is this row and then these bytes. */
  predicate ComesBackAs(data: seq<Byte>, h: nat, current: nat, target: nat, more: seq<Byte>, row: seq<Byte>,
                        behind: seq<Byte>) {
    ChangeStride(ChangeStride(data, h, current, target) + more, h, target, current) == row + behind
  }

  /** One row of a plane changed and changed back, with `behind` made of the rows below it. */
  lemma RestoreRow(row: seq<Byte>, below: seq<Byte>, h: nat, current: nat, target: nat, more: seq<Byte>,
                   behind: seq<Byte>)
    requires |row| == current && h > 0
    requires behind == ChangeStride(ChangeStride(below, h - 1, current, target) + more, h - 1, target, current)
    ensures ComesBackAs(row + below, h, current, target, more, FitRow(FitRow(row, current, target), target, current),
                        behind)
  {
    var cut, rest := FitRow(row, current, target), ChangeStride(below, h - 1, current, target);
    FitRowKeeps(row, current, target);
    FirstRow(row, below, h, current, target);
    assert cut + rest + more == cut + (rest + more);
    FirstRow(cut, rest + more, h, target, current);
  }

  /** Changed and changed back, the plane is what it was, whatever lies behind it in between. */
  predicate Restored(data: seq<Byte>, h: nat, current: nat, target: nat, more: seq<Byte>)
    requires Holds(data, h, current)
  {
    ChangeStride(ChangeStride(data, h, current, target) + more, h, target, current) == Plane(data, h, current)
  }

  lemma RestoredWhen(data: seq<Byte>, h: nat, current: nat, target: nat, more: seq<Byte>,
                    fit: seq<Byte>, behind: seq<Byte>, row: seq<Byte>, plane: seq<Byte>)
    requires Holds(data, h, current) && ComesBackAs(data, h, current, target, more, fit, behind)
    requires Plane(data, h, current) == row + plane
    ensures Restored(data, h, current, target, more) <==> fit + behind == row + plane
  {
  }

  /** Growing a plane and cutting it back gives the plane, whatever lies behind it. */
  lemma {:induction false} GrowThenRestore(data: seq<Byte>, h: nat, current: nat, target: nat, more: seq<Byte>)
    requires Holds(data, h, current) && current <= target
    ensures Restored(data, h, current, target, more)
    decreases h
  {
    if h > 0 {
      assert data == data[..current] + data[current..];
      GrowThenRestore(data[current..], h - 1, current, target, more);
      GrownRowRestored(data[..current], data[current..], h, current, target, more);
    }
  }

  lemma GrownRowRestored(row: seq<Byte>, below: seq<Byte>, h: nat, current: nat, target: nat, more: seq<Byte>)
    requires |row| == current <= target && h > 0 && Holds(below, h - 1, current)
    requires Restored(below, h - 1, current, target, more)
    ensures Holds(row + below, h, current) && Restored(row + below, h, current, target, more)
  {
    var plane := Plane(below, h - 1, current);
    RestoreRow(row, below, h, current, target, more, plane);
    FitBack(row, current, target);
    FirstZeroRow(row, below, h, current, target);
    RestoredWhen(row + below, h, current, target, more, row, plane, row, plane);
  }

  /** Every byte of every row beyond the first `target` is zero. */
  predicate ZeroPadded(data: seq<Byte>, h: nat, current: nat, target: nat)
    requires Holds(data, h, current)
  {
    h == 0 || (AllZero(data[..current], target) && ZeroPadded(data[current..], h - 1, current, target))
  }

  lemma FirstZeroRow(row: seq<Byte>, below: seq<Byte>, h: nat, current: nat, target: nat)
    requires |row| == current && h > 0 && Holds(below, h - 1, current)
    ensures Holds(row + below, h, current)
    ensures Plane(row + below, h, current) == row + Plane(below, h - 1, current)
    ensures ZeroPadded(row + below, h, current, target)
            <==> AllZero(row, target) && ZeroPadded(below, h - 1, current, target)
  {
    assert (row + below)[..current] == row && (row + below)[current..] == below;
  }

  lemma CutRowRestoredIff(row: seq<Byte>, below: seq<Byte>, h: nat, current: nat, target: nat, more: seq<Byte>,
                          behind: seq<Byte>, plane: seq<Byte>, padded: bool)
    requires |row| == current && h > 0 && target < current && Holds(row + below, h, current)
    requires behind == ChangeStride(ChangeStride(below, h - 1, current, target) + more, h - 1, target, current)
    requires Plane(row + below, h, current) == row + plane
    requires behind == plane <==> padded
    ensures Restored(row + below, h, current, target, more) <==> AllZero(row, target) && padded
  {
    var fit := FitRow(FitRow(row, current, target), target, current);
    RestoreRow(row, below, h, current, target, more, behind);
    CutBack(row, current, target, plane, behind);
    RestoredWhen(row + below, h, current, target, more, fit, behind, row, plane);
  }

  /** Cutting a plane and growing it back gives the plane exactly when what was cut off was zero. */
  lemma {:induction false} ShrinkThenRestore(data: seq<Byte>, h: nat, current: nat, target: nat, more: seq<Byte>)
    requires Holds(data, h, current) && target < current
    ensures Restored(data, h, current, target, more) <==> ZeroPadded(data, h, current, target)
    decreases h
  {
    if h > 0 {
      var row, below := data[..current], data[current..];
      var behind := ChangeStride(ChangeStride(below, h - 1, current, target) + more, h - 1, target, current);
      ShrinkThenRestore(below, h - 1, current, target, more);
      CutRowRestoredIff(row, below, h, current, target, more, behind, Plane(below, h - 1, current),
                        ZeroPadded(below, h - 1, current, target));
    }
  }

  /** A plane changed and changed back is itself exactly when nothing but zeros was cut off in between. */
  lemma ChangeThenRestore(data: seq<Byte>, h: nat, current: nat, target: nat, more: seq<Byte>)
    requires Holds(data, h, current)
    ensures Restored(data, h, current, target, more) <==> (target < current ==> ZeroPadded(data, h, current, target))
  {
    if target < current {
      ShrinkThenRestore(data, h, current, target, more);
    } else {
      GrowThenRestore(data, h, current, target, more);
    }
  }

  /** Both bytes exist and are the same. */
  predicate SameByte(a: seq<Byte>, i: nat, b: seq<Byte>, j: nat) {
    i < |a| && j < |b| && a[i] == b[j]
  }

  lemma SameByteBehind(a: seq<Byte>, b: seq<Byte>, i: nat, a': seq<Byte>, b': seq<Byte>, j: nat)
    requires SameByte(b, i, b', j)
    ensures SameByte(a + b, |a| + i, a' + b', |a'| + j)
  {
  }

  lemma SameByteInFront(a: seq<Byte>, b: seq<Byte>, a': seq<Byte>, b': seq<Byte>, x: nat)
    requires SameByte(a, x, a', x)
    ensures SameByte(a + b, x, a' + b', x)
  {
  }

  /** Byte x of row y, for every byte both strides have room for, is the same before and after. */
  lemma {:induction false} RowBytesKept(data: seq<Byte>, h: nat, current: nat, target: nat, y: nat, x: nat)
    requires Holds(data, h, current) && y < h && x < current && x < target
    ensures SameByte(ChangeStride(data, h, current, target), Area(target, y) + x, data, Area(current, y) + x)
    decreases y
  {
    assert data == data[..current] + data[current..];
    if y == 0 {
      FirstRowKept(data[..current], data[current..], h, current, target, x);
    } else {
      RowBytesKept(data[current..], h - 1, current, target, y - 1, x);
      NextRowKept(data[..current], data[current..], ChangeStride(data[current..], h - 1, current, target),
                  h, current, target, y, x);
    }
  }

  lemma FirstRowKept(row: seq<Byte>, below: seq<Byte>, h: nat, current: nat, target: nat, x: nat)
    requires |row| == current && h > 0 && x < current && x < target
    ensures SameByte(ChangeStride(row + below, h, current, target), x, row + below, x)
  {
    FitRowKeeps(row, current, target);
    FirstRow(row, below, h, current, target);
    SameByteInFront(FitRow(row, current, target), ChangeStride(below, h - 1, current, target), row, below, x);
  }

  lemma NextRowKept(row: seq<Byte>, below: seq<Byte>, rest: seq<Byte>, h: nat, current: nat, target: nat, y: nat,
                    x: nat)
    requires |row| == current && h > 0 && y > 0
    requires rest == ChangeStride(below, h - 1, current, target)
    requires SameByte(rest, Area(target, y - 1) + x, below, Area(current, y - 1) + x)
    ensures SameByte(ChangeStride(row + below, h, current, target), Area(target, y) + x,
                     row + below, Area(current, y) + x)
  {
    var fit := FitRow(row, current, target);
    FitRowKeeps(row, current, target);
    FirstRow(row, below, h, current, target);
    SameByteBehind(fit, rest, Area(target, y - 1) + x, row, below, Area(current, y - 1) + x);
    RowsAhead(target, y, x);
    RowsAhead(current, y, x);
  }

  lemma RowsAhead(n: nat, y: nat, x: nat)
    requires y > 0
    ensures Area(n, y) + x == n + (Area(n, y - 1) + x)
  {
  }

  // ---------------------------------------------------------------- planes that are too short

  /** Growing keeps every byte the rows cover, whether or not the rows are complete. */
  lemma {:induction false} GrownLength(data: seq<Byte>, h: nat, current: nat, target: nat)
    requires current <= target
    ensures |ChangeStride(data, h, current, target)| == Min(|data|, Area(current, h)) + Area(target - current, h)
    decreases h
  {
    if h > 0 {
      GrownLength(data[Min(current, |data|)..], h - 1, current, target);
    }
  }

  /** Cutting rows that are not all there removes less than it would from complete rows. */
  lemma {:induction false} CutShort(data: seq<Byte>, h: nat, current: nat, target: nat)
    requires target < current && |data| < Area(current, h)
    ensures |ChangeStride(data, h, current, target)| > Area(target, h) - (Area(current, h) - |data|)
    ensures |ChangeStride(data, h, current, target)| <= Area(target, h)
    decreases h
  {
    if h > 0 {
      var m := Min(current, |data|);
      if |data[m..]| < Area(current, h - 1) {
        CutShort(data[m..], h - 1, current, target);
      } else {
        AreaIsZero(current, h - 1);
        assert h == 1 && m < current;
      }
    }
  }
}
