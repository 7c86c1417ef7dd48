/**
 * Integer arithmetic shared by the work partitioner, the batch chunker and
 * the paginator: `Math.ceil(n / d)` for a positive divisor, and the cutting
 * of a range `[0, total)` into consecutive slices of a fixed width.
 */
module Arith {

  function Min(a: int, b: int): int {
    if a <= b then a else b
  }

  /** `Math.ceil(n / d)` for a positive `d`: the least `q` with `n <= q * d`. */
  function CeilDiv(n: int, d: int): (q: int)
    requires d > 0
    ensures (q - 1) * d < n <= q * d
  {
    var m := (-n) / d;
    assert -n == m * d + (-n) % d;
    -m
  }

  lemma MulMonotone(a: int, b: int, w: int)
    requires a <= b && w >= 0
    ensures a * w <= b * w
  {
    assert b * w - a * w == (b - a) * w;
  }

  /** The bounds of CeilDiv determine it: Math.ceil has exactly one candidate. */
  lemma CeilDivUnique(n: int, d: int, q: int)
    requires d > 0
    requires (q - 1) * d < n <= q * d
    ensures q == CeilDiv(n, d)
  {
    var c := CeilDiv(n, d);
    if q < c {
      MulMonotone(q, c - 1, d);
    } else if c < q {
      MulMonotone(c, q - 1, d);
    }
  }

  /** If `c` workers of width `d` hold `n` rows, at most `c` of them are needed. */
  lemma CeilDivAtMost(n: int, d: int, c: int)
    requires d > 0
    requires n <= c * d
    ensures CeilDiv(n, d) <= c
  {
    var q := CeilDiv(n, d);
    if q > c {
      MulMonotone(c, q - 1, d);
    }
  }

  lemma CeilDivNonNegative(n: int, d: int)
    requires d > 0 && n >= 0
    ensures CeilDiv(n, d) >= 0
    ensures CeilDiv(n, d) == 0 <==> n == 0
  {
    var q := CeilDiv(n, d);
    if q < 0 {
      MulMonotone(q, -1, d);
    }
    if n == 0 {
      CeilDivUnique(0, d, 0);
    }
  }

  /** A half-open range `[start, end)` of row numbers. */
  datatype Span = Span(start: int, end: int) {
    function Size(): int {
      end - start
    }
  }

  /** The `j`-th slice of width `width` of `[0, total)`: `[j*width, min(j*width + width, total))`. */
  function Slice(total: int, width: int, j: int): Span {
    Span(j * width, Min(j * width + width, total))
  }

  /** The first `k` slices, in order. */
  function Slices(total: int, width: int, k: nat): (s: seq<Span>)
    ensures |s| == k
  {
    seq(k, j => Slice(total, width, j))
  }

  /**
   * `s` cuts `[lo, hi)` into non-empty consecutive pieces: the first starts at
   * `lo`, each ends where the next starts, and the last ends at `hi`.
   */
  predicate Tiles(s: seq<Span>, lo: int, hi: int) {
    && (forall i :: 0 <= i < |s| ==> s[i].start < s[i].end)
    && (forall i :: 0 <= i < |s| - 1 ==> s[i].end == s[i + 1].start)
    && (if s == [] then lo == hi else s[0].start == lo && s[|s| - 1].end == hi)
  }

  function SumSizes(s: seq<Span>): int {
    if s == [] then 0 else SumSizes(s[..|s| - 1]) + s[|s| - 1].Size()
  }

  /** A slice is non-empty exactly when it starts before `total`, i.e. when `j < ceil(total / width)`. */
  lemma SliceNonEmpty(total: int, width: int, j: int)
    requires width > 0 && j >= 0
    ensures Slice(total, width, j).Size() > 0 <==> j < CeilDiv(total, width)
    ensures Slice(total, width, j).Size() <= width
  {
    var q := CeilDiv(total, width);
    if j < q {
      MulMonotone(j, q - 1, width);
    } else {
      MulMonotone(q, j, width);
    }
  }

  /** Slice `j` ends exactly where slice `j + 1` starts, while `j + 1` is below the slice count. */
  lemma SliceAdjacent(total: int, width: int, j: int)
    requires width > 0 && j >= 0 && j + 1 < CeilDiv(total, width)
    ensures Slice(total, width, j).end == Slice(total, width, j + 1).start
    ensures Slice(total, width, j).Size() == width
  {
    SliceNonEmpty(total, width, j + 1);
    assert (j + 1) * width == j * width + width;
  }

  /** The last slice ends at `total`, and holds the non-zero remainder. */
  lemma SliceLast(total: int, width: int)
    requires width > 0 && total > 0
    ensures var m := CeilDiv(total, width);
      && m >= 1
      && Slice(total, width, m - 1).end == total
      && Slice(total, width, m - 1).Size() == total - (m - 1) * width
      && 0 < total - (m - 1) * width <= width
  {
    var m := CeilDiv(total, width);
    CeilDivNonNegative(total, width);
    assert (m - 1) * width + width == m * width;
  }

  /** The `ceil(total / width)` slices of width `width` tile `[0, total)`. */
  lemma SlicesTile(total: int, width: int)
    requires width > 0 && total >= 0
    ensures CeilDiv(total, width) >= 0
    ensures Tiles(Slices(total, width, CeilDiv(total, width)), 0, total)
  {
    var m := CeilDiv(total, width);
    CeilDivNonNegative(total, width);
    var s := Slices(total, width, m);
    forall i | 0 <= i < |s| ensures s[i].start < s[i].end {
      SliceNonEmpty(total, width, i);
    }
    forall i | 0 <= i < |s| - 1 ensures s[i].end == s[i + 1].start {
      SliceAdjacent(total, width, i);
    }
    if m > 0 {
      SliceLast(total, width);
    }
  }

  /** The sizes of a tiling of `[lo, hi)` add up to `hi - lo`. */
  lemma {:induction false} TilesSum(s: seq<Span>, lo: int, hi: int)
    requires Tiles(s, lo, hi)
    ensures SumSizes(s) == hi - lo
  {
    if |s| == 1 {
      assert SumSizes(s) == SumSizes([]) + s[0].Size();
    } else if |s| > 1 {
      var init := s[..|s| - 1];
      assert Tiles(init, lo, s[|s| - 2].end);
      TilesSum(init, lo, s[|s| - 2].end);
    }
  }

  /** In a tiling, an earlier piece ends no later than a later piece starts: the pieces are disjoint. */
  lemma {:induction false} TilesOrdered(s: seq<Span>, lo: int, hi: int, i: int, j: int)
    requires Tiles(s, lo, hi)
    requires 0 <= i < j < |s|
    ensures s[i].end <= s[j].start
    decreases j - i
  {
    if i + 1 < j {
      TilesOrdered(s, lo, hi, i + 1, j);
    }
  }

  /** Every point of `[lo, hi)` lies in exactly one piece of a tiling. */
  lemma {:induction false} TilesLocate(s: seq<Span>, lo: int, hi: int, x: int) returns (i: nat)
    requires Tiles(s, lo, hi)
    requires lo <= x < hi
    ensures i < |s| && s[i].start <= x < s[i].end
    ensures forall j :: 0 <= j < |s| && s[j].start <= x < s[j].end ==> j == i
  {
    var last := |s| - 1;
    if x >= s[last].start {
      i := last;
    } else {
      var init := s[..last];
      assert Tiles(init, lo, s[last].start);
      i := TilesLocate(init, lo, s[last].start, x);
    }
    forall j | 0 <= j < |s| && s[j].start <= x < s[j].end ensures j == i {
      if j < i {
        TilesOrdered(s, lo, hi, j, i);
      } else if i < j {
        TilesOrdered(s, lo, hi, i, j);
      }
    }
  }
}
