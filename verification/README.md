# Stay-point detection, modelled in Dafny

This project models the density-based stay-point detector of
`stayPointDetection_density.py`. The detector implements the algorithm of
Yuan et al., "Where to find my next passenger" (UbiComp 2011). It makes one
forward scan over a GPS trajectory with three cursors:

- the anchor `i`;
- the probe `j`;
- the secondary anchor `nexti`.

The scan reports two lists:

- the stay points, each the centroid of a window of fixes plus the times of the window's first and last fix;
- the member fixes of all windows, concatenated.

Modules:

- `Geo` (`geo.dfy`): the GPS fix and the stay point, and the time interval between two fixes.
- `Centroid` (`centroid.dfy`): the mean-coordinate routine. It is the accumulation loop `MeanCoord`, proved equal to a recursive sum divided by the count.
- `StayPointDetection` (`detection.dfy`): the scan.
  - The pure function `Scan` gives the windows `[first, last]` the scan emits.
  - `Phase1Stop` and `Phase2Stop` give where the radius phase and the merge phase stop.
  - The method `StayPointExtraction` keeps the Python loop structure. The phase loops are in `RadiusPhase` and `MergePhase`, and one outer iteration is `ScanAnchor` / `ScanStep`. The method is proved to return exactly the centres and the members of the windows of `Scan`.
- `StayPointProperties` (`scan_properties.dfy`): what the windows are, independently of the cursors.
  - `StayWindow` is a declarative description of a stay.
  - The lemmas cover the iff between emission and `StayWindow`, the count bound, the contents of the stay points, dwell time, and stationary trajectories.
- `MemberOrder` (`member_order.dfy`): the member list read as trajectory indices. The indices strictly increase, so no fix is reported twice and the list is never longer than the trajectory.

Modelling choices:

- The distance between fixes is a parameter `dist: (Point, Point) -> real` of `Config`, together with the two thresholds. Every property holds for any distance function except `NoRadiusNoStay`, which assumes a non-negative distance, as the haversine distance is.
- Timestamps are whole seconds (`int`), and the time interval is integer subtraction.
- Coordinates are `real`.
- The Python `Point` class is used both for GPS fixes and for stay-point centres. It is modelled as two datatypes, `Geo.Point` and `Geo.StayPoint`.

## Model

| member | source | states |
|---|---|---|
| Geo.TimeInterval | stayPointDetection_density.py:42-45 | the interval added to the first fix's time gives the second fix's time; it is positive exactly when the second fix is later |
| Centroid.MeanCoord | stayPointDetection_density.py:48-54 | the loop that accumulates latitudes and longitudes over a non-empty window returns the sum of each coordinate divided by the number of fixes |
| Centroid.MeanBounds | stayPointDetection_density.py:48-54 | the mean of a coordinate lies between any lower and upper bound of that coordinate over the window |
| Centroid.MeanOfStationary | stayPointDetection_density.py:48-54 | a window whose fixes share one coordinate value has that value as its mean |
| StayPointDetection.Phase1Stop | stayPointDetection_density.py:69-77 | the radius phase stops at an index at or after the probe; every fix before it is within the distance threshold of the anchor; the fix at it, if any, is not |
| StayPointDetection.Phase2Stop | stayPointDetection_density.py:82-91 | the merge phase stops at an index at or after the probe; every probe before it is near, and more than the time threshold later than, the fix a constant gap behind it; the probe at it, if any, fails that test |
| StayPointDetection.AnchorStep | stayPointDetection_density.py:68-98 | one outer iteration resumes strictly after its anchor and within the trajectory (termination); an emitted window starts at the anchor and ends after it, inside the trajectory |
| StayPointDetection.RadiusPhase | stayPointDetection_density.py:69-77 | the probe loop returns the last fix near the anchor: all fixes after the anchor up to it are near and the next fix is not |
| StayPointDetection.MergePhase | stayPointDetection_density.py:82-91 | the loop advancing the secondary anchor and the probe together keeps their distance `j1 - i`; it returns the last probe that passed the joint distance and time test; the next probe fails it |
| StayPointDetection.ScanAnchor | stayPointDetection_density.py:68-95 | the phases at one anchor emit the window `[i, j]` exactly when the scan specification does; the returned centre is that window's mean position with the first and last fix times |
| StayPointDetection.StayCenter | stayPointDetection_density.py:92-94 | the stay point of a window sits at the mean latitude and longitude of its fixes, arrives at its first fix's time and leaves at its last fix's time |
| StayPointDetection.ScanStep | stayPointDetection_density.py:68-98 | one outer iteration advances the anchor and keeps the lists equal to the centres and members of the windows emitted so far |
| StayPointDetection.StayPointExtraction | stayPointDetection_density.py:62-99 | the method returns the centres and the concatenated members of exactly the windows of the scan; with fewer than two fixes both lists are empty |
| StayPointDetection.AppendWindow | stayPointDetection_density.py:96-97 | the bookkeeping step used by `AdvanceReport`: emitting a window appends its stay point to the centres and its fixes, in order, to the members |
| StayPointDetection.ScanFromWellFormed | stayPointDetection_density.py:79-98 | windows emitted from anchor `i` lie in `[i, n)`, hold at least two fixes, are in increasing order and do not overlap |
| StayPointProperties.Phase1StopUnique | stayPointDetection_density.py:69-77 | the radius phase stops at the only index that ends a run of near fixes and is followed by a far fix or the end |
| StayPointProperties.Phase2StopUnique | stayPointDetection_density.py:82-91 | the merge phase stops at the only index that ends a run of merging probes and is followed by a failing probe or the end |
| StayPointProperties.EmitIffStayWindow | stayPointDetection_density.py:69-97 | the iteration at anchor `i` emits `[i, last]` after a radius phase ending at `j1` if and only if `(i, j1, last)` is a stay window: fixes near the anchor up to `j1` and not after, a radius span longer than the time threshold, merging probes up to `last` and not after |
| StayPointProperties.SkipIffNoStay | stayPointDetection_density.py:79-98 | the iteration at anchor `i` emits nothing if and only if no window anchored at `i` is a stay; it then resumes right after the radius phase |
| StayPointProperties.ScanStays | stayPointDetection_density.py:62-99 | every window of the scan is a stay window |
| StayPointProperties.StayPointCount | stayPointDetection_density.py:79-98 | the windows of the scan are well formed and number at most half the fixes |
| StayPointProperties.StayPointContents | stayPointDetection_density.py:92-96 | the k-th stay point arrives at the first fix's time, leaves at the last fix's time and sits at the mean latitude and longitude of its window, which holds at least two fixes |
| StayPointProperties.StayOutlastsThreshold | stayPointDetection_density.py:81-91 | on a chronological trajectory a stay window lasts longer than the time threshold |
| StayPointProperties.DwellExceedsThreshold | stayPointDetection_density.py:81-94 | on a chronological trajectory every reported stay point leaves more than the time threshold after it arrives |
| StayPointProperties.StationaryLongStay | stayPointDetection_density.py:62-99 | a trajectory that stays near its first fix and lasts longer than the time threshold is one stay point whose members are all the fixes |
| StayPointProperties.StationaryShortVisit | stayPointDetection_density.py:62-99 | a trajectory that stays near its first fix but lasts no longer than the time threshold has no stay point |
| StayPointProperties.DefaultThresholds | stayPointDetection_density.py:62 | at the default thresholds (200 m, 30 minutes) a trajectory staying near its first fix for 35 minutes is one stay point, and one staying for 10 minutes has none |
| StayPointProperties.NoRadiusNoStay | stayPointDetection_density.py:69-81 | with a non-positive distance threshold and a non-negative distance the scan emits nothing |
| MemberOrder.MembersIndexed | stayPointDetection_density.py:97 | the member list is exactly the fixes at the member indices, window after window |
| MemberOrder.MembersInOrder | stayPointDetection_density.py:96-98 | the member indices of a scan strictly increase, so each fix is reported at most once, in trajectory order, and the member list is no longer than the trajectory |

## Left out

- `getDistanceOfPoints` (haversine, lines 31-39) is not modelled. Distance is an arbitrary function in `Config`, so floating-point trigonometry plays no part.
- Date parsing and formatting are not modelled:
  - `time.strptime` and `time.mktime` at lines 43-44 and 93-94 are replaced by integer timestamps.
  - The local-time `dateTime` string pair built at line 95 is not produced, so `Geo.StayPoint` has no such field.
- `parseGeoTxt` (lines 112-120), `addPoints` (lines 102-109) and `main` (lines 122-164) are input parsing, map rendering and file and browser I/O. They are not part of this model.
- Centroid.MeanCoord: requires a non-empty window. On an empty list the source divides by zero (line 54). The scan only calls it on windows of at least two fixes, so this error path is never reached.
- IEEE double rounding in `computMeanCoord` is not modelled: coordinates and means are exact `real`s.
- The variable `flag` (line 70) is assigned but never read, so it has no counterpart.
- The default arguments `distThres = 200` and `timeThres = 30*60` are modelled as the constants `DefaultDistThres` and `DefaultTimeThres` and the function `DefaultConfig`.
- The Python lists grow by in-place `append` and `extend`. The model reassigns `seq` values instead; the order of appends is the same.
- StayPointProperties.DwellExceedsThreshold: holds only on a chronological trajectory. For an emitted window the source checks the time span against the anchor only up to the end of phase 1. Across the merged part it only compares fixes a fixed gap apart. Unsorted input can therefore yield a stay point whose departure is not later than its arrival, and the model makes no claim there.
