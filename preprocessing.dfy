/** The preprocessing screen: the per-window filtering of the nine
    segments in the visualisation popup, the quantities its plots and
    tables show, and the load → calculate-windows → open-popup sequence
    of the interface that launches it. Widgets are reduced to the values
    they hold. */
module Preprocessing {
  import opened Wrappers
  import opened Columns
  import opened Visualization

  /** A folder holds nine electrode segments, laid out as a 3×3 grid. */
  const Segments: nat := 9

  /** The popup's filter controls as first shown: the first entry of the
      type list, the cut-off spin box and the order spin box. */
  const DefaultFilterType: string := "low"
  const DefaultCutoffHz: real := 0.05
  const DefaultOrder: nat := 4

  // ------------------------------------------------------------------
  // The cut-off handed to the filter
  // ------------------------------------------------------------------

  /** A band-pass filter gets the band from half to twice the chosen
      frequency; the other types get the frequency itself. */
  function CutoffBand(filterType: string, cutoffHz: real): (c: Cutoff)
    ensures c.Band? <==> filterType == "bandpass"
  {
    if filterType == "bandpass" then Band([cutoffHz / 2.0, cutoffHz * 2.0]) else Scalar(cutoffHz)
  }

  /** The band is centred on the chosen frequency on a log scale: one
      octave below it to one octave above it. */
  lemma BandAroundCutoff(cutoffHz: real)
    requires cutoffHz > 0.0
    ensures var e := CutoffBand("bandpass", cutoffHz).edges;
      |e| == 2 && e[0] < cutoffHz < e[1] && e[0] * e[1] == cutoffHz * cutoffHz
  {
  }

  /** For every type the popup offers, at a positive sampling rate `fs`,
      the filter design succeeds iff the chosen frequency is positive and
      the derived cut-off, or the band's upper edge, lies below the Nyquist
      frequency `fs / 2`; otherwise `butter` rejects it. */
  lemma CutoffBandDesigns(filterType: string, fs: real, cutoffHz: real, order: nat)
    requires KnownFilterType(filterType) && fs > 0.0
    ensures var r := DesignFilter(filterType, fs, CutoffBand(filterType, cutoffHz), order);
      && (r.Ok? <==> 0.0 < cutoffHz && (if filterType == "bandpass" then 4.0 * cutoffHz < fs else 2.0 * cutoffHz < fs))
      && (r.Err? ==> r == Err(InvalidCutoff))
      && (r.Ok? && filterType == "bandpass" ==> r.value.wn == Band([cutoffHz / fs, 4.0 * cutoffHz / fs]))
      && (r.Ok? && filterType != "bandpass" ==> r.value.wn == Scalar(2.0 * cutoffHz / fs))
  {
    var nyq := 0.5 * fs;
    var c := CutoffBand(filterType, cutoffHz);
    var wn := Normalise(c, nyq);
    if filterType == "bandpass" {
      var lo, hi := cutoffHz / 2.0 / nyq, cutoffHz * 2.0 / nyq;
      assert wn.edges == [lo, hi];
      HalvedOverNyquist(cutoffHz, fs);
      QuadrupledOverNyquist(cutoffHz, fs);
      UnitInterval(cutoffHz, fs);
      UnitInterval(4.0 * cutoffHz, fs);
      assert AcceptedByButter(wn) <==> 0.0 < lo < 1.0 && 0.0 < hi < 1.0 && lo < hi;
    } else {
      DoubledOverNyquist(cutoffHz, fs);
      UnitInterval(2.0 * cutoffHz, fs);
    }
  }

  /** `x / fs` lies strictly between 0 and 1 iff `x` lies strictly between
      0 and `fs`. */
  lemma UnitInterval(x: real, fs: real)
    requires fs > 0.0
    ensures (0.0 < x / fs < 1.0) <==> (0.0 < x < fs)
  {
    var q := x / fs;
    assert q * fs == x;
    assert 0.0 < q <==> 0.0 < x by {
      if 0.0 < q { assert 0.0 < q * fs; }
      if q <= 0.0 { assert q * fs <= 0.0; }
    }
    assert q < 1.0 <==> x < fs by {
      if q < 1.0 { assert q * fs < 1.0 * fs; }
      if q >= 1.0 { assert q * fs >= 1.0 * fs; }
    }
  }

  lemma HalvedOverNyquist(c: real, fs: real)
    requires fs > 0.0
    ensures c / 2.0 / (0.5 * fs) == c / fs
  {
    DivUnique(c / 2.0, 0.5 * fs, c / fs);
  }

  lemma DoubledOverNyquist(c: real, fs: real)
    requires fs > 0.0
    ensures c / (0.5 * fs) == 2.0 * c / fs
  {
    DivUnique(c, 0.5 * fs, 2.0 * c / fs);
  }

  lemma QuadrupledOverNyquist(c: real, fs: real)
    requires fs > 0.0
    ensures c * 2.0 / (0.5 * fs) == 4.0 * c / fs
    ensures c / fs < 4.0 * c / fs <==> 0.0 < c
  {
    DivUnique(c * 2.0, 0.5 * fs, 4.0 * c / fs);
    var q := c / fs;
    assert q * fs == c;
    assert 4.0 * c / fs == 4.0 * q;
  }

  // ------------------------------------------------------------------
  // One segment of the popup
  // ------------------------------------------------------------------

  /** What the popup keeps for one segment: the filtered window, its
      statistics, and the hydrogen and oxygen series (in litres) against
      the actual sample times. */
  datatype SegmentResult = SegmentResult(filtered: Frame, stats: Stats,
                                         h2: (seq<real>, seq<real>), o2: (seq<real>, seq<real>))

  /** Why a segment cannot be processed: the window's mask was computed on
      the first segment and does not fit this one, or the filter was
      rejected. */
  datatype ApplyError = MaskLengthMismatch | FilterFailed(reason: FilterError)

  /** One pass of the popup's loop body: cut the window out of the
      segment, filter it, take its statistics and integrate it into gas
      volumes in litres. */
  function ProcessSegment(df: Frame, mask: seq<bool>, filterType: string, cutoffHz: real, order: nat,
                          zeroPhase: (FilterDesign, seq<real>) -> seq<real>,
                          stdev: seq<real> -> real): (r: Result<SegmentResult, ApplyError>)
    requires df.WellFormed()
    requires forall d, x :: |zeroPhase(d, x)| == |x|
    ensures |mask| != |df.time| ==> r == Err(MaskLengthMismatch)
    ensures |mask| == |df.time| ==>
      var f := ApplyFilterToDfAsWritten(df.Select(mask), filterType, CutoffBand(filterType, cutoffHz), order, zeroPhase);
      && (f.Ok? <==> r.Ok?)
      && (f.Ok? ==> r.value.filtered == f.value)
      && (f.Err? ==> r == Err(FilterFailed(f.error)))
    ensures r.Ok? ==>
      var s := r.value;
      && s.filtered.WellFormed()
      && s.filtered.time == Filter(df.time, mask)
      && s.filtered.current == Filter(df.current, mask)
      && s.stats == ComputeStats(s.filtered, stdev)
      && ComputeH2(s.filtered, "L").Ok? && ComputeO2(s.filtered, "L").Ok?
      && s.h2 == (s.filtered.time, ComputeH2(s.filtered, "L").value.1)
      && s.o2 == (s.filtered.time, ComputeO2(s.filtered, "L").value.1)
  {
    if |mask| != |df.time| then Err(MaskLengthMismatch)
    else
      match ApplyFilterToDfAsWritten(df.Select(mask), filterType, CutoffBand(filterType, cutoffHz), order, zeroPhase)
      case Err(e) => Err(FilterFailed(e))
      case Ok(f) =>
        Ok(SegmentResult(f, ComputeStats(f, stdev),
                         (f.time, ComputeH2(f, "L").value.1), (f.time, ComputeO2(f, "L").value.1)))
  }

  /** A processed segment's hydrogen series is twice its oxygen series,
      sample by sample and in total. */
  lemma SegmentGasBalance(df: Frame, mask: seq<bool>, filterType: string, cutoffHz: real, order: nat,
                          zeroPhase: (FilterDesign, seq<real>) -> seq<real>, stdev: seq<real> -> real)
    requires df.WellFormed()
    requires forall d, x :: |zeroPhase(d, x)| == |x|
    requires ProcessSegment(df, mask, filterType, cutoffHz, order, zeroPhase, stdev).Ok?
    ensures var s := ProcessSegment(df, mask, filterType, cutoffHz, order, zeroPhase, stdev).value;
      && |s.h2.1| == |s.o2.1| == |s.filtered.time|
      && (forall k :: 0 <= k < |s.h2.1| ==> s.h2.1[k] == 2.0 * s.o2.1[k])
      && Total(s.h2.1) == 2.0 * Total(s.o2.1)
  {
    var f := ApplyFilterToDfAsWritten(df.Select(mask), filterType, CutoffBand(filterType, cutoffHz), order, zeroPhase).value;
    var s := ProcessSegment(df, mask, filterType, cutoffHz, order, zeroPhase, stdev).value;
    assert s.filtered == f;
    assert s.h2.1 == ComputeH2(f, "L").value.1 && s.o2.1 == ComputeO2(f, "L").value.1;
    HydrogenTwiceOxygen(f, "L");
    TotalScales(ComputeH2(f, "L").value.1, ComputeO2(f, "L").value.1, 2.0);
  }

  /** The gas series are plotted against the actual sample times of the
      window, not the times relative to its start. */
  lemma SegmentActualTimes(df: Frame, mask: seq<bool>, filterType: string, cutoffHz: real, order: nat,
                           zeroPhase: (FilterDesign, seq<real>) -> seq<real>, stdev: seq<real> -> real)
    requires df.WellFormed()
    requires forall d, x :: |zeroPhase(d, x)| == |x|
    requires ProcessSegment(df, mask, filterType, cutoffHz, order, zeroPhase, stdev).Ok?
    ensures var s := ProcessSegment(df, mask, filterType, cutoffHz, order, zeroPhase, stdev).value;
      s.h2.0 == Filter(df.time, mask) && s.o2.0 == Filter(df.time, mask)
  {
    var f := ApplyFilterToDfAsWritten(df.Select(mask), filterType, CutoffBand(filterType, cutoffHz), order, zeroPhase).value;
    assert ProcessSegment(df, mask, filterType, cutoffHz, order, zeroPhase, stdev).value.filtered == f;
  }

  /** The loop of `__applyFilters`: `step`, one pass of its body, applied
      to the segments in order up to the first one that fails; the results
      of the segments before it, and that segment's error. */
  method ProcessSegments(dfs: seq<Frame>, step: Frame --> Result<SegmentResult, ApplyError>)
    returns (done: seq<SegmentResult>, failure: Option<ApplyError>)
    requires forall k :: 0 <= k < |dfs| ==> step.requires(dfs[k])
    ensures |done| <= |dfs|
    ensures forall k :: 0 <= k < |done| ==> step(dfs[k]) == Ok(done[k])
    ensures failure.None? <==> |done| == |dfs|
    ensures failure.Some? ==> step(dfs[|done|]) == Err(failure.value)
  {
    done := [];
    for i := 0 to |dfs|
      invariant |done| == i
      invariant forall k :: 0 <= k < i ==> step(dfs[k]) == Ok(done[k])
    {
      var res := step(dfs[i]);
      if res.Err? {
        return done, Some(res.error);
      }
      done := done + [res.value];
    }
    failure := None;
  }

  // ------------------------------------------------------------------
  // Totals, variance and the 3×3 layout
  // ------------------------------------------------------------------

  /** A segment's total gas: the last cumulative value, or 0 for an empty
      series. */
  function Total(series: seq<real>): (t: real)
    ensures |series| == 0 ==> t == 0.0
    ensures |series| > 0 ==> t in series
    ensures NonDecreasing(series) ==> forall k :: 0 <= k < |series| ==> series[k] <= t
  {
    if |series| > 0 then series[|series| - 1] else 0.0
  }

  /** The total is the gas released by the whole charge of the segment:
      the sum of all its trapezoids, or nothing with fewer than two
      samples. */
  lemma TotalIsWholeCharge(df: Frame, electrons: real, mode: string)
    requires df.WellFormed() && electrons > 0.0 && CumulativeGas(df, electrons, mode).Ok?
    ensures Total(CumulativeGas(df, electrons, mode).value.1) ==
      if |df.time| < 2 then 0.0 else GasFromCharge(Sum(Trapezoids(df.time, SignalColumn(df))), electrons, mode)
  {
    var t := df.time;
    if |t| >= 2 {
      var q := Trapezoids(t, SignalColumn(df));
      assert q[..|q|] == q;
      assert CumSum(q)[|q| - 1] == Sum(q);
    }
  }

  /** With the current never negative and the times in order, every total
      is at least zero. */
  lemma TotalNonNegative(df: Frame, electrons: real, mode: string)
    requires df.WellFormed() && electrons > 0.0 && CumulativeGas(df, electrons, mode).Ok?
    requires NonDecreasing(df.time)
    requires forall k :: 0 <= k < |df.time| ==> SignalColumn(df)[k] >= 0.0
    ensures Total(CumulativeGas(df, electrons, mode).value.1) >= 0.0
  {
    var gas := CumulativeGas(df, electrons, mode).value.1;
    if |df.time| >= 2 {
      GasNonDecreasing(df, electrons, mode);
      assert gas[0] <= gas[|gas| - 1];
    }
  }

  /** Scaling a series scales its total. */
  lemma TotalScales(xs: seq<real>, ys: seq<real>, c: real)
    requires |xs| == |ys|
    requires forall k :: 0 <= k < |xs| ==> xs[k] == c * ys[k]
    ensures Total(xs) == c * Total(ys)
  {
  }

  /** The variance shown for a segment is the square of its standard
      deviation; an undefined deviation gives an undefined variance. */
  function Variance(std: Option<real>): (v: Option<real>)
    ensures v.Some? <==> std.Some?
    ensures v.Some? ==> v.value >= 0.0 && v.value == std.value * std.value
  {
    match std
    case None => None
    case Some(s) => Some(s * s)
  }

  /** Segment `i` (counted from 0) sits in row `i // 3`, column `i % 3`. */
  function GridCell(i: nat): (cell: (nat, nat))
    requires i < Segments
    ensures cell.0 < 3 && cell.1 < 3
  {
    (i / 3, i % 3)
  }

  /** The segment shown in a grid cell, counting along the rows. */
  function CellIndex(row: nat, col: nat): nat {
    3 * row + col
  }

  /** Every segment has its own cell and every cell its own segment. */
  lemma GridCellRoundTrip(i: nat)
    requires i < Segments
    ensures CellIndex(GridCell(i).0, GridCell(i).1) == i
  {
  }

  lemma CellIndexRoundTrip(row: nat, col: nat)
    requires row < 3 && col < 3
    ensures CellIndex(row, col) < Segments && GridCell(CellIndex(row, col)) == (row, col)
  {
  }

  /** `np.array(values).reshape(3, 3)`: the nine values row by row. */
  function Reshape3(values: seq<real>): (m: seq<seq<real>>)
    requires |values| == Segments
    ensures |m| == 3 && forall r :: 0 <= r < 3 ==> |m[r]| == 3
  {
    [values[0..3], values[3..6], values[6..9]]
  }

  /** The heatmaps put each segment's value in the same cell as its
      signal plot. */
  lemma GridMatchesReshape(values: seq<real>, i: nat)
    requires |values| == Segments && i < Segments
    ensures Reshape3(values)[GridCell(i).0][GridCell(i).1] == values[i]
  {
  }

  // ------------------------------------------------------------------
  // The visualisation popup
  // ------------------------------------------------------------------

  /** `VisualizationPopup`: the nine raw segments, the mask of the chosen
      window, and the per-segment results the filter button rebuilds. */
  class VisualizationPopup {
    const folderPath: string
    const dfsRaw: seq<Frame>
    const timeMask: seq<bool>
    const windowIndex: nat
    var dfsFiltered: seq<Frame>
    var stats: seq<Stats>
    var h2Data: seq<(seq<real>, seq<real>)>
    var o2Data: seq<(seq<real>, seq<real>)>

    /** Entry `k` of the four result lists, as one segment result. */
    function Entry(k: nat): (s: SegmentResult)
      requires k < |dfsFiltered| && k < |stats| && k < |h2Data| && k < |o2Data|
      reads this
      ensures s.filtered == dfsFiltered[k] && s.stats == stats[k] && s.h2 == h2Data[k] && s.o2 == o2Data[k]
    {
      SegmentResult(dfsFiltered[k], stats[k], h2Data[k], o2Data[k])
    }

    /** The fields as `__init__` sets them before it first applies the
        filters. */
    constructor (folderPath: string, dfsRaw: seq<Frame>, timeMask: seq<bool>, windowIndex: nat)
      ensures this.folderPath == folderPath && this.dfsRaw == dfsRaw
      ensures this.timeMask == timeMask && this.windowIndex == windowIndex
      ensures dfsFiltered == [] && stats == [] && h2Data == [] && o2Data == []
    {
      this.folderPath := folderPath;
      this.dfsRaw := dfsRaw;
      this.timeMask := timeMask;
      this.windowIndex := windowIndex;
      dfsFiltered := [];
      stats := [];
      h2Data := [];
      o2Data := [];
    }

    /** `__applyFilters`: the four lists start empty and get one entry per
        segment, in segment order; the first segment that cannot be
        processed stops the loop with the entries before it in place. */
    method ApplyFilters(filterType: string, cutoffHz: real, order: nat,
                        zeroPhase: (FilterDesign, seq<real>) -> seq<real>, stdev: seq<real> -> real)
      returns (r: Result<(), ApplyError>)
      requires forall k :: 0 <= k < |dfsRaw| ==> dfsRaw[k].WellFormed()
      requires forall d, x :: |zeroPhase(d, x)| == |x|
      modifies this
      ensures |dfsFiltered| == |stats| == |h2Data| == |o2Data| <= |dfsRaw|
      ensures forall k :: 0 <= k < |dfsFiltered| ==>
        ProcessSegment(dfsRaw[k], timeMask, filterType, cutoffHz, order, zeroPhase, stdev) == Ok(Entry(k))
      ensures r.Ok? <==> |dfsFiltered| == |dfsRaw|
      ensures r.Err? ==>
        ProcessSegment(dfsRaw[|dfsFiltered|], timeMask, filterType, cutoffHz, order, zeroPhase, stdev) == Err(r.error)
    {
      var step := (df: Frame) requires df.WellFormed() && forall d, x :: |zeroPhase(d, x)| == |x| =>
        ProcessSegment(df, timeMask, filterType, cutoffHz, order, zeroPhase, stdev);
      var done, failure := ProcessSegments(dfsRaw, step);
      dfsFiltered := seq(|done|, k requires 0 <= k < |done| => done[k].filtered);
      stats := seq(|done|, k requires 0 <= k < |done| => done[k].stats);
      h2Data := seq(|done|, k requires 0 <= k < |done| => done[k].h2);
      o2Data := seq(|done|, k requires 0 <= k < |done| => done[k].o2);
      assert forall k :: 0 <= k < |done| ==> Entry(k) == done[k];
      r := if failure.None? then Ok(()) else Err(failure.value);
    }
  }

  // ------------------------------------------------------------------
  // The preprocessing interface
  // ------------------------------------------------------------------

  /** The folder's listing can be loaded: at least nine CSV files, and the
      first nine all have the three expected columns. */
  predicate Loadable(listing: seq<DirEntry>) {
    var sel := SelectCsvFiles(listing, Segments);
    sel.Ok? && forall k :: 0 <= k < Segments ==> sel.value[k].file.columns >= 3
  }

  /** `PreprocessingInterface`: the loaded segments, the windows computed
      on the first segment, and the window-index spin box, whose range is
      `0..indexMax` and whose value is `windowIndex`. */
  class PreprocessingInterface {
    var dfsRaw: Option<seq<Frame>>
    var folderPath: Option<string>
    var timeWindows: seq<seq<real>>
    var timeMask: seq<seq<bool>>
    var indexMax: nat
    var windowIndex: nat
    var popupWindows: seq<VisualizationPopup>

    /** Loaded data is nine well-formed segments; windows exist only for
        loaded data, come with one mask per window sized to the first
        segment, and then the spin box ranges over exactly their indices. */
    predicate Valid()
      reads this
    {
      && (dfsRaw.Some? ==> |dfsRaw.value| == Segments && forall k :: 0 <= k < Segments ==> dfsRaw.value[k].WellFormed())
      && (dfsRaw.Some? <==> folderPath.Some?)
      && |timeWindows| == |timeMask|
      && windowIndex <= indexMax
      && (|timeWindows| > 0 ==>
            && dfsRaw.Some?
            && indexMax == |timeWindows| - 1
            && forall k :: 0 <= k < |timeMask| ==> |timeMask[k]| == |dfsRaw.value[0].time|)
    }

    constructor ()
      ensures Valid()
      ensures dfsRaw.None? && folderPath.None? && timeWindows == [] && timeMask == []
      ensures indexMax == 0 && windowIndex == 0 && popupWindows == []
    {
      dfsRaw := None;
      folderPath := None;
      timeWindows := [];
      timeMask := [];
      indexMax := 0;
      windowIndex := 0;
      popupWindows := [];
    }

    /** `upload_folder`: a cancelled dialog (empty path) or a folder that
        fails to load changes nothing; a folder that loads replaces the
        segments and clears the windows and the index range. */
    method UploadFolder(folder: string, listing: seq<DirEntry>)
      requires Valid()
      modifies this
      ensures Valid()
      ensures folder == "" || !Loadable(listing) ==>
        dfsRaw == old(dfsRaw) && folderPath == old(folderPath) && timeWindows == old(timeWindows)
        && timeMask == old(timeMask) && indexMax == old(indexMax) && windowIndex == old(windowIndex)
      ensures folder != "" && Loadable(listing) ==>
        var chosen := SelectCsvFiles(listing, Segments).value;
        && dfsRaw == Some(seq(Segments, k requires 0 <= k < Segments => ToFrame(chosen[k].file)))
        && folderPath == Some(folder)
        && timeWindows == [] && timeMask == [] && indexMax == 0 && windowIndex == 0
      ensures popupWindows == old(popupWindows)
    {
      if folder == "" {
        return;
      }
      var loaded := LoadSignalsFromFolder(listing, Segments);
      if loaded.Err? {
        return;
      }
      var chosen := SelectCsvFiles(listing, Segments).value;
      assert loaded.value == seq(Segments, k requires 0 <= k < Segments => ToFrame(chosen[k].file));
      dfsRaw := Some(loaded.value);
      folderPath := Some(folder);
      timeWindows := [];
      timeMask := [];
      indexMax := 0;
      windowIndex := 0;
    }

    /** `calculate_windows`: nothing without data or with an overlap not
        smaller than the window; otherwise the windows of the first
        segment, and the index range `0..len - 1` when there are any. */
    method CalculateWindows(windowLength: int, overlap: int)
      requires Valid()
      modifies this
      ensures Valid()
      ensures dfsRaw == old(dfsRaw) && folderPath == old(folderPath) && popupWindows == old(popupWindows)
      ensures dfsRaw.None? || overlap >= windowLength ==>
        timeWindows == old(timeWindows) && timeMask == old(timeMask)
        && indexMax == old(indexMax) && windowIndex == old(windowIndex)
      ensures dfsRaw.Some? && overlap < windowLength && |dfsRaw.value[0].time| == 0 ==>
        timeWindows == [] && timeMask == [] && indexMax == old(indexMax) && windowIndex == old(windowIndex)
      ensures dfsRaw.Some? && overlap < windowLength && |dfsRaw.value[0].time| > 0 ==>
        && IsWindowing(dfsRaw.value[0].time, windowLength as real, overlap as real, timeWindows, timeMask)
        && |timeWindows| > 0 && indexMax == |timeWindows| - 1 && windowIndex == 0
    {
      if dfsRaw.None? {
        return;
      }
      if overlap >= windowLength {
        return;
      }
      var t := dfsRaw.value[0].time;
      var r := GetTemporalWindows(t, windowLength as real, overlap as real);
      var (windows, masks) := r.value;
      if |t| > 0 {
        WindowingShape(t, windowLength as real, overlap as real, windows, masks);
      }
      timeWindows := windows;
      timeMask := masks;
      if |timeWindows| == 0 {
        return;
      }
      indexMax := |timeWindows| - 1;
      windowIndex := 0;
    }

    /** The spin box keeps its value inside its range. */
    method SetWindowIndex(value: int)
      requires Valid()
      modifies this
      ensures Valid()
      ensures windowIndex == if value < 0 then 0 else if value > indexMax then indexMax else value
      ensures dfsRaw == old(dfsRaw) && folderPath == old(folderPath) && timeWindows == old(timeWindows)
      ensures timeMask == old(timeMask) && indexMax == old(indexMax) && popupWindows == old(popupWindows)
    {
      if value < 0 {
        windowIndex := 0;
      } else if value > indexMax {
        windowIndex := indexMax;
      } else {
        windowIndex := value;
      }
    }

    /** `open_visualization_popup`: nothing without data or without
        windows; otherwise a popup for the chosen window, built and
        filtered with the default settings, which is kept only when every
        segment could be processed. */
    method OpenVisualizationPopup(zeroPhase: (FilterDesign, seq<real>) -> seq<real>, stdev: seq<real> -> real)
      returns (popup: Option<VisualizationPopup>)
      requires Valid()
      requires forall d, x :: |zeroPhase(d, x)| == |x|
      modifies this
      ensures Valid()
      ensures dfsRaw == old(dfsRaw) && folderPath == old(folderPath) && timeWindows == old(timeWindows)
      ensures timeMask == old(timeMask) && indexMax == old(indexMax) && windowIndex == old(windowIndex)
      ensures dfsRaw.None? || |timeWindows| == 0 ==> popup.None?
      ensures dfsRaw.Some? && |timeWindows| > 0 ==>
        (popup.Some? <==> forall k :: 0 <= k < Segments ==>
           ProcessSegment(dfsRaw.value[k], timeMask[windowIndex], DefaultFilterType, DefaultCutoffHz, DefaultOrder,
                          zeroPhase, stdev).Ok?)
      ensures popup.None? ==> popupWindows == old(popupWindows)
      ensures popup.Some? ==>
        var p := popup.value;
        && fresh(p)
        && popupWindows == old(popupWindows) + [p]
        && p.dfsRaw == dfsRaw.value && p.timeMask == timeMask[windowIndex] && p.windowIndex == windowIndex
        && |p.dfsFiltered| == Segments
    {
      if dfsRaw.None? {
        return None;
      }
      if |timeWindows| == 0 {
        return None;
      }
      var p := new VisualizationPopup(folderPath.value, dfsRaw.value, timeMask[windowIndex], windowIndex);
      var r := p.ApplyFilters(DefaultFilterType, DefaultCutoffHz, DefaultOrder, zeroPhase, stdev);
      if r.Err? {
        return None;
      }
      forall k | 0 <= k < Segments
        ensures ProcessSegment(dfsRaw.value[k], timeMask[windowIndex], DefaultFilterType, DefaultCutoffHz, DefaultOrder,
                               zeroPhase, stdev).Ok?
      {
        assert ProcessSegment(dfsRaw.value[k], timeMask[windowIndex], DefaultFilterType, DefaultCutoffHz, DefaultOrder,
                              zeroPhase, stdev) == Ok(p.Entry(k));
      }
      popupWindows := popupWindows + [p];
      return Some(p);
    }
  }

  /** A windowing of a non-empty recording has at least one window, and
      every mask covers all samples. */
  lemma WindowingShape(t: seq<real>, duration: real, overlap: real,
                       windows: seq<seq<real>>, masks: seq<seq<bool>>)
    requires |t| > 0 && IsWindowing(t, duration, overlap, windows, masks)
    ensures |masks| > 0
    ensures forall k :: 0 <= k < |masks| ==> |masks[k]| == |t|
  {
    var s := ScheduleOf(t, duration, overlap);
    assert s.End(0) <= s.last;
    forall k | 0 <= k < |masks| ensures |masks[k]| == |t| {
      assert Emitted(t, s, k, windows[k], masks[k]);
    }
  }
}
