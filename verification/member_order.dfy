/**
  The member list of a scan, read as the trajectory indices it is made of.
 */
module MemberOrder {
  import opened Geo
  import opened StayPointDetection

  /** The indices lo, lo + 1, ..., hi - 1. */
  function Range(lo: nat, hi: nat): seq<nat>
    decreases hi - lo
  {
    if lo >= hi then [] else [lo] + Range(lo + 1, hi)
  }

  /** The trajectory indices of the member fixes of the windows, window after
      window. */
  function MemberIndices(ws: seq<Window>): seq<nat>
  {
    if ws == [] then [] else MemberIndices(ws[..|ws| - 1]) + Range(ws[|ws| - 1].first, ws[|ws| - 1].last + 1)
  }

  /** `ms` lists the fixes of `points` found at the indices `idx`. */
  ghost predicate Indexes(points: seq<Point>, ms: seq<Point>, idx: seq<nat>)
  {
    && |ms| == |idx|
    && forall k :: 0 <= k < |idx| ==> idx[k] < |points| && ms[k] == points[idx[k]]
  }

  /** Strictly increasing. */
  ghost predicate Increasing(s: seq<nat>)
  {
    forall a, b :: 0 <= a < b < |s| ==> s[a] < s[b]
  }

  /** Every element lies in [lo, hi). */
  ghost predicate Within(s: seq<nat>, lo: nat, hi: nat)
  {
    forall a :: 0 <= a < |s| ==> lo <= s[a] < hi
  }

  /** Range(lo, hi) lists hi - lo consecutive indices starting at lo. */
  lemma {:induction false} RangeAt(lo: nat, hi: nat)
    requires lo <= hi
    ensures |Range(lo, hi)| == hi - lo
    ensures forall k :: 0 <= k < hi - lo ==> Range(lo, hi)[k] == lo + k
    decreases hi - lo
  {
    if lo < hi {
      RangeAt(lo + 1, hi);
    }
  }

  /** A slice of the trajectory is indexed by its range of indices. */
  lemma SliceIndexes(points: seq<Point>, lo: nat, hi: nat)
    requires lo <= hi <= |points|
    ensures Indexes(points, points[lo..hi], Range(lo, hi))
  {
    RangeAt(lo, hi);
  }

  /** Concatenating indexed lists concatenates their indices. */
  lemma IndexesAppend(points: seq<Point>, a: seq<Point>, ia: seq<nat>, b: seq<Point>, ib: seq<nat>)
    requires Indexes(points, a, ia) && Indexes(points, b, ib)
    ensures Indexes(points, a + b, ia + ib)
  {
    forall k | |ia| <= k < |ia + ib| ensures (ia + ib)[k] < |points| && (a + b)[k] == points[(ia + ib)[k]] {
      assert (a + b)[k] == b[k - |ia|] && (ia + ib)[k] == ib[k - |ia|];
    }
  }

  /** Two increasing sequences, the first lying wholly below the second,
      concatenate to an increasing sequence. */
  lemma IncreasingAppend(a: seq<nat>, b: seq<nat>, lo: nat, mid: nat, hi: nat)
    requires lo <= mid <= hi
    requires Increasing(a) && Within(a, lo, mid)
    requires Increasing(b) && Within(b, mid, hi)
    ensures Increasing(a + b) && Within(a + b, lo, hi)
  {
    forall x, y | 0 <= x < y < |a + b| ensures (a + b)[x] < (a + b)[y] {
      if y < |a| {
        assert (a + b)[x] == a[x] && (a + b)[y] == a[y];
      } else if x < |a| {
        assert (a + b)[x] == a[x] < mid <= b[y - |a|] == (a + b)[y];
      } else {
        assert (a + b)[x] == b[x - |a|] && (a + b)[y] == b[y - |a|];
      }
    }
    forall x | 0 <= x < |a + b| ensures lo <= (a + b)[x] < hi {
      if x >= |a| {
        assert (a + b)[x] == b[x - |a|];
      }
    }
  }

  /** Raising the upper bound keeps a sequence within bounds. */
  lemma WithinWiden(s: seq<nat>, lo: nat, hi: nat, hi': nat)
    requires Within(s, lo, hi) && hi <= hi'
    ensures Within(s, lo, hi')
  {
  }

  /** A range of indices is increasing and lies within its bounds. */
  lemma RangeIncreasing(lo: nat, hi: nat)
    requires lo <= hi
    ensures Increasing(Range(lo, hi)) && Within(Range(lo, hi), lo, hi)
  {
    RangeAt(lo, hi);
  }

  /** The member fixes are exactly the fixes at the member indices. */
  lemma {:induction false} MembersIndexed(points: seq<Point>, ws: seq<Window>)
    requires InRange(points, ws)
    ensures Indexes(points, Members(points, ws), MemberIndices(ws))
  {
    if ws != [] {
      var init, w := ws[..|ws| - 1], ws[|ws| - 1];
      assert InRange(points, init) by {
        forall k | 0 <= k < |init| ensures init[k].first <= init[k].last < |points| {
          assert init[k] == ws[k];
        }
      }
      MembersIndexed(points, init);
      SliceIndexes(points, w.first, w.last + 1);
      IndexesAppend(points, Members(points, init), MemberIndices(init),
                    points[w.first..w.last + 1], Range(w.first, w.last + 1));
    }
  }

  /** Dropping the last window keeps the windows well formed, and the
      dropped window starts after the others end. */
  lemma WellFormedPrefix(points: seq<Point>, ws: seq<Window>, lo: nat)
    requires WellFormed(points, ws, lo) && ws != []
    ensures WellFormed(points, ws[..|ws| - 1], lo)
    ensures lo <= ws[|ws| - 1].first < ws[|ws| - 1].last < |points|
    ensures |ws| > 1 ==> ws[..|ws| - 1][|ws| - 2].last < ws[|ws| - 1].first
  {
    var init := ws[..|ws| - 1];
    forall k | 0 <= k < |init| ensures lo <= init[k].first < init[k].last < |points| {
      assert init[k] == ws[k];
    }
    forall k, l | 0 <= k < l < |init| ensures init[k].last < init[l].first {
      assert init[k] == ws[k] && init[l] == ws[l];
    }
  }

  /** The windows lie one after another inside [lo, hi), each non-empty:
      the last one inside [first, hi) and the others before its start.
      This is `WellFormed` restated recursively from the back, the same way
      `MemberIndices` is built, so that the induction in
      `MemberIndicesIncreasing` needs no pairwise quantifier. */
  ghost predicate Chain(ws: seq<Window>, lo: nat, hi: nat)
  {
    && lo <= hi
    && (ws != [] ==>
          var w := ws[|ws| - 1];
          w.first <= w.last < hi && Chain(ws[..|ws| - 1], lo, w.first))
  }

  /** Well-formed windows form a chain inside [lo, |points|). */
  lemma {:induction false} WellFormedChain(points: seq<Point>, ws: seq<Window>, lo: nat)
    requires lo <= |points|
    requires WellFormed(points, ws, lo)
    ensures Chain(ws, lo, |points|)
  {
    if ws != [] {
      WellFormedPrefix(points, ws, lo);
      var init, w := ws[..|ws| - 1], ws[|ws| - 1];
      WellFormedChain(points, init, lo);
      ChainBelow(points, init, lo, w.first);
    }
  }

  /** Well-formed windows that all end before `hi` form a chain inside
      [lo, hi). */
  lemma {:induction false} ChainBelow(points: seq<Point>, ws: seq<Window>, lo: nat, hi: nat)
    requires lo <= hi
    requires WellFormed(points, ws, lo)
    requires forall k :: 0 <= k < |ws| ==> ws[k].last < hi
    ensures Chain(ws, lo, hi)
  {
    if ws != [] {
      WellFormedPrefix(points, ws, lo);
      var init, w := ws[..|ws| - 1], ws[|ws| - 1];
      forall k | 0 <= k < |init| ensures init[k].last < w.first {
        assert init[k] == ws[k];
      }
      ChainBelow(points, init, lo, w.first);
    }
  }

  /** The member indices of a chain inside [lo, hi) strictly increase and lie
      in [lo, hi). */
  lemma {:induction false} MemberIndicesIncreasing(ws: seq<Window>, lo: nat, hi: nat)
    requires Chain(ws, lo, hi)
    ensures Increasing(MemberIndices(ws)) && Within(MemberIndices(ws), lo, hi)
  {
    if ws != [] {
      var init, w := ws[..|ws| - 1], ws[|ws| - 1];
      MemberIndicesIncreasing(init, lo, w.first);
      RangeIncreasing(w.first, w.last + 1);
      WithinWiden(Range(w.first, w.last + 1), w.first, w.last + 1, hi);
      IncreasingAppend(MemberIndices(init), Range(w.first, w.last + 1), lo, w.first, hi);
    }
  }

  /** A strictly increasing sequence of indices below `hi` has at most `hi`
      elements. */
  lemma {:induction false} IncreasingLength(s: seq<nat>, hi: nat)
    requires Increasing(s) && Within(s, 0, hi)
    ensures |s| <= hi
  {
    if s != [] {
      var init := s[..|s| - 1];
      forall a | 0 <= a < |init| ensures 0 <= init[a] < s[|s| - 1] {
        assert init[a] == s[a];
      }
      forall a, b | 0 <= a < b < |init| ensures init[a] < init[b] {
        assert init[a] == s[a] && init[b] == s[b];
      }
      IncreasingLength(init, s[|s| - 1]);
    }
  }

  /** The member list of a scan holds each fix of the trajectory at most once,
      in trajectory order, so it is never longer than the trajectory. */
  lemma MembersInOrder(points: seq<Point>, cfg: Config)
    ensures InRange(points, Scan(points, cfg))
    ensures Indexes(points, Members(points, Scan(points, cfg)), MemberIndices(Scan(points, cfg)))
    ensures Increasing(MemberIndices(Scan(points, cfg)))
    ensures |Members(points, Scan(points, cfg))| <= |points|
  {
    var ws := Scan(points, cfg);
    ScanFromWellFormed(points, cfg, 0);
    MembersIndexed(points, ws);
    WellFormedChain(points, ws, 0);
    MemberIndicesIncreasing(ws, 0, |points|);
    IncreasingLength(MemberIndices(ws), |points|);
  }
}
