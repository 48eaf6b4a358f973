/**
  What the windows of the scan are, stated independently of the cursor
  arithmetic: a declarative characterisation of a stay window, how many
  windows there can be, what the reported stay points and members contain,
  and the behaviour on stationary trajectories.
 */
module StayPointProperties {
  import opened Geo
  import opened Centroid
  import opened StayPointDetection

  /** A stay anchored at `i` whose radius phase ends at `j1` and whose merge
      phase ends at `last`: every fix after the anchor up to `j1` is near it
      and the next one is not; the radius window lasts longer than the time
      threshold; every probe after `j1` up to `last` passes the merge test
      against the fix `j1 - i` places behind it and the next probe fails. */
  ghost predicate StayWindow(points: seq<Point>, cfg: Config, i: nat, j1: nat, last: nat)
  {
    && i < j1 <= last < |points|
    && (forall k :: i < k <= j1 ==> WithinRadius(points, cfg, i, k))
    && (j1 + 1 < |points| ==> !WithinRadius(points, cfg, i, j1 + 1))
    && TimeInterval(points[i], points[j1]) > cfg.timeThres
    && MergeRun(points, cfg, j1 - i, j1 + 1, last + 1)
    && (last + 1 < |points| ==> !Merges(points, cfg, j1 - i, last + 1))
  }

  /** The window is a stay for some end of its radius phase. */
  ghost predicate IsStay(points: seq<Point>, cfg: Config, w: Window)
  {
    exists j1: nat :: StayWindow(points, cfg, w.first, j1, w.last)
  }

  /** The radius phase stops at the only index that bounds a run of near
      fixes and is followed by a far fix (or the end). */
  lemma Phase1StopUnique(points: seq<Point>, cfg: Config, i: nat, j: nat, k: nat)
    requires i < j <= k <= |points|
    requires forall m :: j <= m < k ==> WithinRadius(points, cfg, i, m)
    requires k < |points| ==> !WithinRadius(points, cfg, i, k)
    ensures Phase1Stop(points, cfg, i, j) == k
  {
  }

  /** The merge phase stops at the only index that bounds a run of merging
      probes and is followed by a failing probe (or the end). */
  lemma Phase2StopUnique(points: seq<Point>, cfg: Config, gap: nat, j: nat, k: nat)
    requires 0 < gap <= j <= k <= |points|
    requires forall m :: j <= m < k ==> Merges(points, cfg, gap, m)
    requires k < |points| ==> !Merges(points, cfg, gap, k)
    ensures Phase2Stop(points, cfg, gap, j) == k
  {
  }

  /** The step at anchor `i` emits [i, last] after a radius phase ending at
      `j1` exactly when [i, j1, last] is a stay window. */
  lemma EmitIffStayWindow(points: seq<Point>, cfg: Config, i: nat, j1: nat, last: nat)
    requires i + 1 < |points|
    ensures AnchorStep(points, cfg, i) == Emit(Window(i, last)) && Phase1Last(points, cfg, i) == j1
      <==> StayWindow(points, cfg, i, j1, last)
  {
    if StayWindow(points, cfg, i, j1, last) {
      Phase1StopUnique(points, cfg, i, i + 1, j1 + 1);
      Phase2StopUnique(points, cfg, j1 - i, j1 + 1, last + 1);
    }
  }

  /** The step at anchor `i` emits nothing exactly when no window anchored at
      `i` is a stay; it then resumes right after the radius phase. */
  lemma SkipIffNoStay(points: seq<Point>, cfg: Config, i: nat)
    requires i + 1 < |points|
    ensures AnchorStep(points, cfg, i).Skip? <==> forall last :: !IsStay(points, cfg, Window(i, last))
    ensures AnchorStep(points, cfg, i).Skip? ==> AnchorStep(points, cfg, i).next == Phase1Last(points, cfg, i) + 1
  {
    var s := AnchorStep(points, cfg, i);
    forall last: nat, j1: nat ensures s.Skip? ==> !StayWindow(points, cfg, i, j1, last) {
      EmitIffStayWindow(points, cfg, i, j1, last);
    }
    if s.Emit? {
      EmitIffStayWindow(points, cfg, i, Phase1Last(points, cfg, i), s.window.last);
      assert IsStay(points, cfg, Window(i, s.window.last));
    }
  }

  /** Every window the scan from `i` emits is a stay window. */
  lemma {:induction false} ScanFromStays(points: seq<Point>, cfg: Config, i: nat)
    requires i <= |points|
    ensures forall k :: 0 <= k < |ScanFrom(points, cfg, i)| ==> IsStay(points, cfg, ScanFrom(points, cfg, i)[k])
    decreases |points| - i
  {
    if i + 1 < |points| {
      var s := AnchorStep(points, cfg, i);
      ScanFromStays(points, cfg, s.Resume());
      if s.Emit? {
        EmitIffStayWindow(points, cfg, i, Phase1Last(points, cfg, i), s.window.last);
        assert IsStay(points, cfg, s.window);
      }
    }
  }

  /** Every window of a whole scan is a stay window. */
  lemma ScanStays(points: seq<Point>, cfg: Config)
    ensures forall k :: 0 <= k < |Scan(points, cfg)| ==> IsStay(points, cfg, Scan(points, cfg)[k])
  {
    ScanFromStays(points, cfg, 0);
  }

  /** Disjoint windows of at least two fixes each, inside [lo, n), number at
      most (n - lo) / 2. */
  lemma {:induction false} WellFormedCount(points: seq<Point>, ws: seq<Window>, lo: nat)
    requires lo <= |points|
    requires WellFormed(points, ws, lo)
    ensures 2 * |ws| <= |points| - lo
  {
    if ws != [] {
      var rest := ws[1..];
      assert WellFormed(points, rest, ws[0].last + 1) by {
        forall k | 0 <= k < |rest| ensures ws[0].last + 1 <= rest[k].first < rest[k].last < |points| {
          assert rest[k] == ws[k + 1];
        }
        forall k, l | 0 <= k < l < |rest| ensures rest[k].last < rest[l].first {
          assert rest[k] == ws[k + 1] && rest[l] == ws[l + 1];
        }
      }
      WellFormedCount(points, rest, ws[0].last + 1);
    }
  }

  /** A scan of n fixes reports at most n / 2 stay points, with windows in
      increasing order and without overlap. */
  lemma StayPointCount(points: seq<Point>, cfg: Config)
    ensures WellFormed(points, Scan(points, cfg), 0)
    ensures 2 * |Scan(points, cfg)| <= |points|
  {
    ScanFromWellFormed(points, cfg, 0);
    WellFormedCount(points, Scan(points, cfg), 0);
  }

  /** The k-th reported stay point is the centre of the k-th window. */
  lemma {:induction false} CentersAt(points: seq<Point>, ws: seq<Window>, k: nat)
    requires InRange(points, ws)
    requires k < |ws|
    ensures Centers(points, ws)[k] == Center(points, ws[k])
  {
    if k < |ws| - 1 {
      var init := ws[..|ws| - 1];
      assert init[k] == ws[k];
      CentersAt(points, init, k);
    }
  }

  /** The k-th stay point of a scan arrives at the time of the first fix of
      its window, leaves at the time of the last, sits at the mean position
      of the window's fixes, and the window holds at least two fixes. */
  lemma StayPointContents(points: seq<Point>, cfg: Config, k: nat)
    requires k < |Scan(points, cfg)|
    ensures InRange(points, Scan(points, cfg))
    ensures var w := Scan(points, cfg)[k];
      && w.first < w.last < |points|
      && var c := Centers(points, Scan(points, cfg))[k];
      && c.arriveTime == points[w.first].time
      && c.leaveTime == points[w.last].time
      && c.latitude == Mean(points[w.first..w.last + 1], Latitude)
      && c.longitude == Mean(points[w.first..w.last + 1], Longitude)
  {
    StayPointCount(points, cfg);
    CentersAt(points, Scan(points, cfg), k);
  }

  /** On a chronological trajectory a stay window lasts longer than the time
      threshold. */
  lemma StayOutlastsThreshold(points: seq<Point>, cfg: Config, w: Window)
    requires Chronological(points)
    requires IsStay(points, cfg, w)
    ensures w.first < w.last < |points|
    ensures points[w.last].time - points[w.first].time > cfg.timeThres
  {
    var j1: nat :| StayWindow(points, cfg, w.first, j1, w.last);
    if j1 < w.last {
      assert Merges(points, cfg, j1 - w.first, w.last);
      assert points[w.first].time <= points[w.last - (j1 - w.first)].time;
    }
  }

  /** On a chronological trajectory every reported stay point lasts longer
      than the time threshold. */
  lemma DwellExceedsThreshold(points: seq<Point>, cfg: Config)
    requires Chronological(points)
    ensures InRange(points, Scan(points, cfg))
    ensures forall k :: 0 <= k < |Scan(points, cfg)| ==>
      Centers(points, Scan(points, cfg))[k].leaveTime - Centers(points, Scan(points, cfg))[k].arriveTime > cfg.timeThres
  {
    var ws := Scan(points, cfg);
    StayPointCount(points, cfg);
    ScanStays(points, cfg);
    forall k | 0 <= k < |ws|
      ensures Centers(points, ws)[k].leaveTime - Centers(points, ws)[k].arriveTime > cfg.timeThres
    {
      CentersAt(points, ws, k);
      StayOutlastsThreshold(points, cfg, ws[k]);
    }
  }

  /** A trajectory that never leaves the neighbourhood of its first fix and
      lasts longer than the time threshold is one stay point made of all its
      fixes. */
  lemma StationaryLongStay(points: seq<Point>, cfg: Config)
    requires |points| >= 2
    requires forall k :: 0 < k < |points| ==> WithinRadius(points, cfg, 0, k)
    requires TimeInterval(points[0], points[|points| - 1]) > cfg.timeThres
    ensures Scan(points, cfg) == [Window(0, |points| - 1)]
    ensures Members(points, Scan(points, cfg)) == points
  {
    var n := |points|;
    Phase1StopUnique(points, cfg, 0, 1, n);
    assert Phase1Last(points, cfg, 0) == n - 1;
    assert Phase2Stop(points, cfg, n - 1, n) == n;
    assert AnchorStep(points, cfg, 0) == Emit(Window(0, n - 1));
    assert ScanFrom(points, cfg, n) == [];
    assert [Window(0, n - 1)][..0] == [];
    assert points[0..n] == points;
  }

  /** A trajectory that never leaves the neighbourhood of its first fix but
      lasts no longer than the time threshold has no stay point. */
  lemma StationaryShortVisit(points: seq<Point>, cfg: Config)
    requires |points| >= 2
    requires forall k :: 0 < k < |points| ==> WithinRadius(points, cfg, 0, k)
    requires TimeInterval(points[0], points[|points| - 1]) <= cfg.timeThres
    ensures Scan(points, cfg) == []
  {
    var n := |points|;
    Phase1StopUnique(points, cfg, 0, 1, n);
    assert AnchorStep(points, cfg, 0) == Skip(n);
    assert ScanFrom(points, cfg, n) == [];
  }

  /** At the default thresholds (200 m, 30 minutes) a trajectory that stays
      near its first fix for 35 minutes is one stay point, and one that stays
      there for only 10 minutes is none. */
  lemma DefaultThresholds(points: seq<Point>, dist: (Point, Point) -> real)
    requires |points| >= 2
    requires forall k :: 0 < k < |points| ==> WithinRadius(points, DefaultConfig(dist), 0, k)
    ensures TimeInterval(points[0], points[|points| - 1]) == 35 * 60 ==>
              Scan(points, DefaultConfig(dist)) == [Window(0, |points| - 1)]
    ensures TimeInterval(points[0], points[|points| - 1]) == 10 * 60 ==>
              Scan(points, DefaultConfig(dist)) == []
  {
    var span := TimeInterval(points[0], points[|points| - 1]);
    if span == 35 * 60 {
      StationaryLongStay(points, DefaultConfig(dist));
    } else if span == 10 * 60 {
      StationaryShortVisit(points, DefaultConfig(dist));
    }
  }

  /** With a non-positive distance threshold and a distance that is never
      negative no fix is near another, so the scan from any anchor emits
      nothing. */
  lemma {:induction false} NoRadiusNoStayFrom(points: seq<Point>, cfg: Config, i: nat)
    requires cfg.distThres <= 0.0
    requires forall a, b :: cfg.dist(a, b) >= 0.0
    requires i <= |points|
    ensures ScanFrom(points, cfg, i) == []
    decreases |points| - i
  {
    if i + 1 < |points| {
      assert !WithinRadius(points, cfg, i, i + 1);
      assert AnchorStep(points, cfg, i) == Skip(i + 1);
      NoRadiusNoStayFrom(points, cfg, i + 1);
    }
  }

  /** A non-positive distance threshold yields no stay point. */
  lemma NoRadiusNoStay(points: seq<Point>, cfg: Config)
    requires cfg.distThres <= 0.0
    requires forall a, b :: cfg.dist(a, b) >= 0.0
    ensures Scan(points, cfg) == []
  {
    NoRadiusNoStayFrom(points, cfg, 0);
  }
}
