/**
  Density-based stay-point detection (Yuan et al., "Where to find my next
  passenger", UbiComp 2011): a single forward scan over a trajectory with an
  anchor, a probe and a secondary anchor.

  The windows the scan emits are specified by the pure function `Scan`; the
  method `StayPointExtraction` runs the scan with the same cursors and is
  proved to return the centres and members of exactly those windows.
 */
module StayPointDetection {
  import opened Geo
  import opened Centroid

  /** Parameters of one scan: the distance metric between two fixes (metres;
      any function will do), the distance threshold and the time threshold
      (seconds). */
  datatype Config = Config(dist: (Point, Point) -> real, distThres: real, timeThres: int)

  const DefaultDistThres: real := 200.0
  const DefaultTimeThres: int := 30 * 60

  function DefaultConfig(dist: (Point, Point) -> real): Config
  {
    Config(dist, DefaultDistThres, DefaultTimeThres)
  }

  /** The index range [first, last] of the fixes that form one stay point. */
  datatype Window = Window(first: nat, last: nat)

  /** `b` lies within the distance threshold of `a`. */
  predicate Near(cfg: Config, a: Point, b: Point)
  {
    cfg.dist(a, b) < cfg.distThres
  }

  /** The merge test: `b` is near the secondary anchor `a` and more than the
      time threshold later. */
  predicate Extends(cfg: Config, a: Point, b: Point)
  {
    Near(cfg, a, b) && TimeInterval(a, b) > cfg.timeThres
  }

  /** The radius test of phase 1: fix `m` lies near anchor `i`. */
  ghost predicate WithinRadius(points: seq<Point>, cfg: Config, i: nat, m: nat)
    requires i < |points| && m < |points|
  {
    Near(cfg, points[i], points[m])
  }

  /** Radius expansion from anchor `i`, probing from `j`: the first index at
      or after `j` whose fix is not near the anchor, or |points|. */
  function Phase1Stop(points: seq<Point>, cfg: Config, i: nat, j: nat): (k: nat)
    requires i < j <= |points|
    ensures j <= k <= |points|
    ensures forall m :: j <= m < k ==> WithinRadius(points, cfg, i, m)
    ensures k < |points| ==> !WithinRadius(points, cfg, i, k)
    decreases |points| - j
  {
    if j < |points| && Near(cfg, points[i], points[j]) then Phase1Stop(points, cfg, i, j + 1) else j
  }

  /** Index of the last fix of the radius phase started at anchor `i`
      (equal to `i` when no fix is near it). */
  function Phase1Last(points: seq<Point>, cfg: Config, i: nat): (j1: nat)
    requires i + 1 < |points|
    ensures i <= j1 < |points|
  {
    Phase1Stop(points, cfg, i, i + 1) - 1
  }

  /** The merge test of phase 2 at probe `m`, against the secondary anchor
      `gap` places behind it: the two cursors advance together, so their
      distance stays what it was when phase 2 started. */
  ghost predicate Merges(points: seq<Point>, cfg: Config, gap: nat, m: nat)
    requires 0 < gap <= m < |points|
  {
    Extends(cfg, points[m - gap], points[m])
  }

  /** Every probe in [j, k) passes the merge test against the fix `gap`
      places behind it. */
  ghost predicate MergeRun(points: seq<Point>, cfg: Config, gap: nat, j: nat, k: nat)
    requires 0 < gap <= j <= k <= |points|
  {
    forall m :: j <= m < k ==> Merges(points, cfg, gap, m)
  }

  /** Merge extension probing from `j`, the secondary anchor being `gap`
      places behind the probe: the first probe index that fails the merge
      test, or |points|. */
  function Phase2Stop(points: seq<Point>, cfg: Config, gap: nat, j: nat): (k: nat)
    requires 0 < gap <= j <= |points|
    ensures j <= k <= |points|
    ensures forall m :: j <= m < k ==> Merges(points, cfg, gap, m)
    ensures k < |points| ==> !Merges(points, cfg, gap, k)
    decreases |points| - j
  {
    if j < |points| && Extends(cfg, points[j - gap], points[j]) then
      Phase2Stop(points, cfg, gap, j + 1)
    else
      j
  }

  /** What one iteration of the outer loop does at an anchor: move on to
      `next` without emitting, or emit `window` and move on past it. */
  datatype Step = Skip(next: nat) | Emit(window: Window)
  {
    function Windows(): seq<Window>
    {
      if Emit? then [window] else []
    }

    function Resume(): nat
    {
      match this
      case Skip(next) => next
      case Emit(w) => w.last + 1
    }
  }

  /** One outer iteration at anchor `i`. */
  function AnchorStep(points: seq<Point>, cfg: Config, i: nat): (s: Step)
    requires i + 1 < |points|
    ensures i < s.Resume() <= |points|
    ensures s.Emit? ==> s.window.first == i < s.window.last < |points|
  {
    var j1 := Phase1Last(points, cfg, i);
    if j1 > i && TimeInterval(points[i], points[j1]) > cfg.timeThres then
      Emit(Window(i, Phase2Stop(points, cfg, j1 - i, j1 + 1) - 1))
    else
      Skip(j1 + 1)
  }

  /** Windows lying in [lo, |points|), each with at least two fixes, pairwise
      disjoint and in increasing order. */
  ghost predicate WellFormed(points: seq<Point>, ws: seq<Window>, lo: nat)
  {
    && (forall k :: 0 <= k < |ws| ==> lo <= ws[k].first < ws[k].last < |points|)
    && (forall k, l :: 0 <= k < l < |ws| ==> ws[k].last < ws[l].first)
  }

  /** Every window indexes fixes of the trajectory. */
  ghost predicate InRange(points: seq<Point>, ws: seq<Window>)
  {
    forall k :: 0 <= k < |ws| ==> ws[k].first <= ws[k].last < |points|
  }

  /** The windows emitted by the scan once the anchor has reached `i`. */
  function ScanFrom(points: seq<Point>, cfg: Config, i: nat): (ws: seq<Window>)
    requires i <= |points|
    decreases |points| - i
  {
    if i + 1 >= |points| then
      []
    else
      var s := AnchorStep(points, cfg, i);
      var rest := ScanFrom(points, cfg, s.Resume());
      if s.Emit? then [s.window] + rest else rest
  }

  /** The windows emitted by a whole scan. */
  function Scan(points: seq<Point>, cfg: Config): seq<Window>
  {
    ScanFrom(points, cfg, 0)
  }

  /** The stay point of one window: centroid, arrival and departure. */
  function Center(points: seq<Point>, w: Window): StayPoint
    requires w.first <= w.last < |points|
  {
    var window := points[w.first..w.last + 1];
    StayPoint(Mean(window, Latitude), Mean(window, Longitude), points[w.first].time, points[w.last].time)
  }

  /** The stay points of the windows, in order. */
  function Centers(points: seq<Point>, ws: seq<Window>): (cs: seq<StayPoint>)
    requires InRange(points, ws)
    ensures |cs| == |ws|
  {
    if ws == [] then [] else Centers(points, ws[..|ws| - 1]) + [Center(points, ws[|ws| - 1])]
  }

  /** The member fixes of the windows, window after window. */
  function Members(points: seq<Point>, ws: seq<Window>): seq<Point>
    requires InRange(points, ws)
  {
    if ws == [] then
      []
    else
      var w := ws[|ws| - 1];
      Members(points, ws[..|ws| - 1]) + points[w.first..w.last + 1]
  }

  /** Appending a window appends its stay point to the centres and its
      fixes to the members. */
  lemma AppendWindow(points: seq<Point>, ws: seq<Window>, w: Window)
    requires InRange(points, ws)
    requires w.first <= w.last < |points|
    ensures InRange(points, ws + [w])
    ensures Centers(points, ws + [w]) == Centers(points, ws) + [Center(points, w)]
    ensures Members(points, ws + [w]) == Members(points, ws) + points[w.first..w.last + 1]
  {
    assert (ws + [w])[..|ws|] == ws;
  }

  /** The scan from anchor `i` emits windows at or after `i`, each with at
      least two fixes, in increasing order and without overlap. */
  lemma {:induction false} ScanFromWellFormed(points: seq<Point>, cfg: Config, i: nat)
    requires i <= |points|
    ensures WellFormed(points, ScanFrom(points, cfg, i), i)
    decreases |points| - i
  {
    if i + 1 < |points| {
      ScanFromWellFormed(points, cfg, AnchorStep(points, cfg, i).Resume());
    }
  }

  /** Once the anchor has reached the last fix, nothing more is emitted. */
  lemma ScanFromEnd(points: seq<Point>, cfg: Config, i: nat)
    requires |points| <= i + 1 && i <= |points|
    ensures ScanFrom(points, cfg, i) == []
  {
  }

  /** The scan emits the window of the step at `i` and carries on where that
      step resumes. */
  lemma ScanAdvance(points: seq<Point>, cfg: Config, i: nat, emitted: seq<Window>)
    requires i + 1 < |points|
    requires Scan(points, cfg) == emitted + ScanFrom(points, cfg, i)
    ensures var s := AnchorStep(points, cfg, i);
      Scan(points, cfg) == emitted + s.Windows() + ScanFrom(points, cfg, s.Resume())
  {
  }

  /** The loop's account of the scan once the anchor has reached `i`: the
      windows reported so far followed by the rest of the scan make up the
      whole scan, and the lists hold the centres and members of the reported
      windows. */
  ghost predicate Reported(points: seq<Point>, cfg: Config, i: nat, emitted: seq<Window>,
                           centers: seq<StayPoint>, members: seq<Point>)
  {
    && i <= |points|
    && Scan(points, cfg) == emitted + ScanFrom(points, cfg, i)
    && InRange(points, emitted)
    && centers == Centers(points, emitted)
    && members == Members(points, emitted)
  }

  /** Before the first iteration nothing is reported. */
  lemma ReportStart(points: seq<Point>, cfg: Config)
    ensures Reported(points, cfg, 0, [], [], [])
  {
    assert [] + ScanFrom(points, cfg, 0) == ScanFrom(points, cfg, 0);
  }

  /** One outer iteration keeps the account: with the step's window, if
      any, appended to the reported windows and its centre and members to the
      lists, the anchor can move past the fixes the step consumed. */
  lemma AdvanceReport(points: seq<Point>, cfg: Config, i: nat, emitted: seq<Window>,
                      centers: seq<StayPoint>, members: seq<Point>, emit: bool, j: int, center: StayPoint,
                      next: nat, emitted': seq<Window>, centers': seq<StayPoint>, members': seq<Point>)
    requires i + 1 < |points|
    requires Reported(points, cfg, i, emitted, centers, members)
    requires i <= j < |points|
    requires AnchorStep(points, cfg, i) == if emit then Emit(Window(i, j)) else Skip(j + 1)
    requires emit ==> center == Center(points, Window(i, j))
    requires next == j + 1
    requires emitted' == emitted + AnchorStep(points, cfg, i).Windows()
    requires emit ==> centers' == centers + [center] && members' == members + points[i..j + 1]
    requires !emit ==> centers' == centers && members' == members
    ensures Reported(points, cfg, next, emitted', centers', members')
  {
    ScanAdvance(points, cfg, i, emitted);
    assert AnchorStep(points, cfg, i).Resume() == next;
    if emit {
      assert emitted' == emitted + [Window(i, j)];
      AppendWindow(points, emitted, Window(i, j));
    } else {
      assert emitted' == emitted + [] == emitted;
    }
  }

  /** Once the anchor has reached the last fix, the account covers the whole
      scan. */
  lemma ReportEnd(points: seq<Point>, cfg: Config, i: nat, emitted: seq<Window>,
                  centers: seq<StayPoint>, members: seq<Point>)
    requires |points| <= i + 1
    requires Reported(points, cfg, i, emitted, centers, members)
    ensures InRange(points, Scan(points, cfg))
    ensures centers == Centers(points, Scan(points, cfg))
    ensures members == Members(points, Scan(points, cfg))
    ensures |points| < 2 ==> centers == [] && members == []
  {
    ScanFromEnd(points, cfg, i);
    assert emitted + [] == emitted;
    if |points| < 2 {
      ScanFromEnd(points, cfg, 0);
    }
  }

  /** Phase 1 at anchor `i`: advances the probe while its fix is near the
      anchor and returns the last fix that was. */
  method RadiusPhase(points: seq<Point>, cfg: Config, i: nat) returns (j: int)
    requires i + 1 < |points|
    ensures j == Phase1Last(points, cfg, i)
    ensures i <= j < |points|
    ensures forall k :: i < k <= j ==> WithinRadius(points, cfg, i, k)
    ensures j + 1 < |points| ==> !WithinRadius(points, cfg, i, j + 1)
  {
    j := i + 1;
    while j < |points|
      invariant i < j <= |points|
      invariant Phase1Stop(points, cfg, i, j) == Phase1Stop(points, cfg, i, i + 1)
      decreases |points| - j
    {
      if cfg.dist(points[i], points[j]) < cfg.distThres {
        j := j + 1;
      } else {
        break;
      }
    }
    assert j == Phase1Stop(points, cfg, i, j);
    j := j - 1;
  }

  /** Phase 2 for the stay confirmed over [i, j1]: the secondary anchor
      `nexti` and the probe advance together while the probe passes the merge
      test against it; returns the last probe that passed (or `j1`). */
  method MergePhase(points: seq<Point>, cfg: Config, i: nat, j1: nat) returns (j: int)
    requires i < j1 < |points|
    ensures j == Phase2Stop(points, cfg, j1 - i, j1 + 1) - 1
    ensures j1 <= j < |points|
    ensures MergeRun(points, cfg, j1 - i, j1 + 1, j + 1)
    ensures j + 1 < |points| ==> !Merges(points, cfg, j1 - i, j + 1)
  {
    var nexti := i + 1;
    j := j1 + 1;
    while j < |points|
      invariant nexti < j <= |points|
      invariant j - nexti == j1 - i
      invariant Phase2Stop(points, cfg, j - nexti, j) == Phase2Stop(points, cfg, j1 - i, j1 + 1)
      decreases |points| - j
    {
      if cfg.dist(points[nexti], points[j]) < cfg.distThres
         && TimeInterval(points[nexti], points[j]) > cfg.timeThres
      {
        nexti := nexti + 1;
        j := j + 1;
      } else {
        break;
      }
    }
    assert j == Phase2Stop(points, cfg, j - nexti, j);
    j := j - 1;
  }

  /** The stay point of a window: its mean position, arriving at the time of
      its first fix and leaving at the time of its last. */
  method StayCenter(points: seq<Point>, w: Window) returns (center: StayPoint)
    requires w.first <= w.last < |points|
    ensures center == Center(points, w)
  {
    var latitude, longitude := MeanCoord(points[w.first..w.last + 1]);
    center := StayPoint(latitude, longitude, points[w.first].time, points[w.last].time);
  }

  /** One iteration of the outer loop at anchor `i`: the radius phase, the
      time test and, for a confirmed stay, the merge phase and the centre of
      the window. `j` is the last fix consumed; the next anchor is `j + 1`. */
  method ScanAnchor(points: seq<Point>, cfg: Config, i: nat) returns (emit: bool, j: int, center: StayPoint)
    requires i + 1 < |points|
    ensures i <= j < |points|
    ensures AnchorStep(points, cfg, i) == if emit then Emit(Window(i, j)) else Skip(j + 1)
    ensures emit ==> center == Center(points, Window(i, j))
  {
    emit, center := false, StayPoint(0.0, 0.0, 0, 0);
    j := RadiusPhase(points, cfg, i);
    if j > i && TimeInterval(points[i], points[j]) > cfg.timeThres {
      var j1 := j;
      j := MergePhase(points, cfg, i, j1);
      assert AnchorStep(points, cfg, i) == Emit(Window(i, j));
      emit := true;
      center := StayCenter(points, Window(i, j));
    } else {
      assert AnchorStep(points, cfg, i) == Skip(j + 1);
    }
  }

  /** One iteration of the outer loop at anchor `i`: runs the phases and,
      for a stay, appends its centre and its member fixes to the lists;
      returns the next anchor. */
  method ScanStep(points: seq<Point>, cfg: Config, i: nat, centers: seq<StayPoint>, members: seq<Point>,
                  ghost emitted: seq<Window>)
    returns (next: nat, centers': seq<StayPoint>, members': seq<Point>, ghost emitted': seq<Window>)
    requires i + 1 < |points|
    requires Reported(points, cfg, i, emitted, centers, members)
    ensures i < next
    ensures Reported(points, cfg, next, emitted', centers', members')
  {
    var emit, j, center := ScanAnchor(points, cfg, i);
    centers', members' := centers, members;
    if emit {
      centers' := centers + [center];
      members' := members + points[i..j + 1];
    }
    next := j + 1;
    emitted' := emitted + AnchorStep(points, cfg, i).Windows();
    AdvanceReport(points, cfg, i, emitted, centers, members, emit, j, center, next, emitted', centers', members');
  }

  /** Scans the trajectory and returns the detected stay points and the
      concatenated member fixes of all of them. */
  method StayPointExtraction(points: seq<Point>, cfg: Config)
    returns (stayPointCenterList: seq<StayPoint>, stayPointList: seq<Point>)
    ensures |points| < 2 ==> stayPointCenterList == [] && stayPointList == []
    ensures InRange(points, Scan(points, cfg))
    ensures stayPointCenterList == Centers(points, Scan(points, cfg))
    ensures stayPointList == Members(points, Scan(points, cfg))
  {
    stayPointCenterList, stayPointList := [], [];
    var pointNum := |points|;
    ghost var emitted: seq<Window> := [];
    var i := 0;
    ReportStart(points, cfg);
    while i < pointNum - 1
      invariant 0 <= i
      invariant Reported(points, cfg, i, emitted, stayPointCenterList, stayPointList)
      decreases pointNum - i
    {
      i, stayPointCenterList, stayPointList, emitted :=
        ScanStep(points, cfg, i, stayPointCenterList, stayPointList, emitted);
    }
    ReportEnd(points, cfg, i, emitted, stayPointCenterList, stayPointList);
  }
}
