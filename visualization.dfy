/** The signal-analysis pipeline of visualization.py: choosing and loading the
    segment files of a folder, cutting time windows, validating and
    normalising a Butterworth filter request, summary statistics, and the
    Faraday's-law conversion of current into hydrogen and oxygen volumes.
    Times and currents are exact reals; IEEE rounding is not modelled. */
module Visualization {
  import opened Wrappers
  import opened Text
  import opened Columns

  /** Faraday constant, C/mol. */
  const Faraday: real := 96485.0
  /** Molar volume of an ideal gas at STP, L/mol. */
  const MolarVolumeStp: real := 22.414

  function Min(a: real, b: real): real { if a <= b then a else b }
  function Max(a: real, b: real): real { if a >= b then a else b }

  predicate NonDecreasing(s: seq<real>) {
    forall i, j :: 0 <= i < j < |s| ==> s[i] <= s[j]
  }

  /** Non-decreasing from one element to the next is non-decreasing. */
  lemma {:induction false} StepsNonDecreasing(s: seq<real>)
    requires forall k :: 1 <= k < |s| ==> s[k - 1] <= s[k]
    ensures NonDecreasing(s)
  {
    if |s| > 1 {
      StepsNonDecreasing(s[..|s| - 1]);
      assert forall i :: 0 <= i < |s| - 1 ==> s[..|s| - 1][i] == s[i];
      assert s[|s| - 2] <= s[|s| - 1];
    }
  }

  // ------------------------------------------------------------------
  // Segment tables
  // ------------------------------------------------------------------

  /** One electrode segment as a table: the `time` and `current` columns
      and, once a filter has run, the `current_filt` column. */
  datatype Frame = Frame(time: seq<real>, current: seq<real>, filtered: Option<seq<real>>) {

    predicate WellFormed() {
      |current| == |time| && (filtered.Some? ==> |filtered.value| == |time|)
    }

    /** `df.loc[mask]`: the rows whose mask entry is true, in order. */
    function Select(mask: seq<bool>): (r: Frame)
      requires WellFormed() && |mask| == |time|
      ensures r.WellFormed() && |r.time| == CountTrue(mask)
      ensures r.time == Filter(time, mask) && r.current == Filter(current, mask)
      ensures r.filtered.Some? == filtered.Some?
      ensures filtered.Some? ==> r.filtered.value == Filter(filtered.value, mask)
    {
      FilterLength(time, mask);
      FilterLength(current, mask);
      var f := if filtered.Some? then (FilterLength(filtered.value, mask); Some(Filter(filtered.value, mask))) else None;
      Frame(Filter(time, mask), Filter(current, mask), f)
    }
  }

  // ------------------------------------------------------------------
  // Choosing and loading the segment files of a folder
  // ------------------------------------------------------------------

  /** One data row as `pd.to_numeric(..., errors='coerce')` leaves it: a
      cell that is not a number becomes `None` (NaN). */
  datatype RawRow = RawRow(time: Option<real>, current: Option<real>)

  /** A CSV file as read: its number of header columns and its rows. */
  datatype CsvFile = CsvFile(columns: nat, rows: seq<RawRow>)

  /** A directory entry: the name `os.listdir` reports and the file's content. */
  datatype DirEntry = DirEntry(name: string, file: CsvFile)

  datatype LoadError = TooFewCsvFiles(found: nat) | TooFewColumns(name: string)

  /** ASCII lower-casing; no other character lower-cases to one of ".csv". */
  function Lower(c: char): char {
    if 'A' <= c <= 'Z' then (c as int + 32) as char else c
  }

  /** `name.lower().endswith(".csv")` */
  predicate IsCsvName(name: string) {
    EndsWith(seq(|name|, i requires 0 <= i < |name| => Lower(name[i])), ".csv")
  }

  function NameLe(x: DirEntry, y: DirEntry): bool {
    StrLe(x.name, y.name)
  }

  lemma NameOrder()
    ensures TotalPreorder(NameLe)
  {
    forall a: DirEntry, b: DirEntry ensures NameLe(a, b) || NameLe(b, a) {
      StrLeTotal(a.name, b.name);
    }
    forall a: DirEntry, b: DirEntry, c: DirEntry | NameLe(a, b) && NameLe(b, c)
      ensures NameLe(a, c)
    {
      StrLeTransitive(a.name, b.name, c.name);
    }
  }

  /** The entries whose name ends in ".csv" (any case), sorted by name. */
  function CsvEntries(listing: seq<DirEntry>): (r: seq<DirEntry>)
    ensures SortedBy(r, NameLe)
  {
    NameOrder();
    var mask := seq(|listing|, i requires 0 <= i < |listing| => IsCsvName(listing[i].name));
    SortBy(Filter(listing, mask), NameLe)
  }

  /** The file choice of `load_signals_from_folder`: fails when fewer than
      `n` CSV files are present, otherwise keeps the first `n` by name. */
  function SelectCsvFiles(listing: seq<DirEntry>, n: nat): (r: Result<seq<DirEntry>, LoadError>)
    ensures r.Err? <==> |CsvEntries(listing)| < n
    ensures r.Err? ==> r.error == TooFewCsvFiles(|CsvEntries(listing)|)
    ensures r.Ok? ==> |r.value| == n && SortedBy(r.value, NameLe)
  {
    var files := CsvEntries(listing);
    if |files| < n then Err(TooFewCsvFiles(|files|)) else Ok(files[..n])
  }

  /** The CSV entries are exactly the folder's entries with a CSV name. */
  lemma CsvEntriesMembers(listing: seq<DirEntry>, e: DirEntry)
    ensures e in CsvEntries(listing) <==> e in listing && IsCsvName(e.name)
  {
    NameOrder();
    var mask := seq(|listing|, i requires 0 <= i < |listing| => IsCsvName(listing[i].name));
    var files := CsvEntries(listing);
    assert multiset(files) == multiset(Filter(listing, mask));
    assert e in files <==> e in multiset(files);
    assert e in Filter(listing, mask) <==> e in multiset(Filter(listing, mask));
    FilterMembership(listing, mask, e);
    if e in listing && IsCsvName(e.name) {
      var i :| 0 <= i < |listing| && listing[i] == e;
      assert mask[i];
    }
  }

  /** In a sequence sorted by name, anything past the first `n` entries
      sorts after each of them. */
  lemma SortedPrefixFirst(files: seq<DirEntry>, n: nat, e: DirEntry, c: DirEntry)
    requires SortedBy(files, NameLe) && n <= |files|
    requires e in files && e !in files[..n] && c in files[..n]
    ensures StrLe(c.name, e.name)
  {
    var j :| 0 <= j < |files| && files[j] == e;
    var m :| 0 <= m < n && files[..n][m] == c;
    assert forall k :: 0 <= k < n ==> files[..n][k] == files[k];
    assert NameLe(files[m], files[j]);
  }

  /** What the choice means: every chosen file is a CSV entry of the
      folder, and every CSV entry left out sorts after every chosen one. */
  lemma SelectCsvFilesChoosesFirst(listing: seq<DirEntry>, n: nat)
    requires SelectCsvFiles(listing, n).Ok?
    ensures var chosen := SelectCsvFiles(listing, n).value;
      && (forall e :: e in chosen ==> e in listing && IsCsvName(e.name))
      && (forall e, c :: e in listing && IsCsvName(e.name) && e !in chosen && c in chosen ==> StrLe(c.name, e.name))
  {
    var files := CsvEntries(listing);
    var chosen := files[..n];
    assert SelectCsvFiles(listing, n).value == chosen;
    forall e | e in chosen ensures e in listing && IsCsvName(e.name) {
      CsvEntriesMembers(listing, e);
    }
    forall e, c | e in listing && IsCsvName(e.name) && e !in chosen && c in chosen
      ensures StrLe(c.name, e.name)
    {
      CsvEntriesMembers(listing, e);
      SortedPrefixFirst(files, n, e, c);
    }
  }

  /** `dropna(subset=['time', 'current'])`: the rows with both cells. */
  function CompleteRows(rows: seq<RawRow>): seq<(real, real)> {
    if |rows| == 0 then []
    else
      (if rows[0].time.Some? && rows[0].current.Some? then [(rows[0].time.value, rows[0].current.value)] else [])
      + CompleteRows(rows[1..])
  }

  function TimeLe(a: (real, real), b: (real, real)): bool {
    a.0 <= b.0
  }

  /** The rows of a frame as (time, current) pairs. */
  function Rows(df: Frame): seq<(real, real)>
    requires df.WellFormed()
  {
    Zip(df.time, df.current)
  }

  /** One loaded segment: the complete rows, `sort_values("time")`, with no
      filtered column yet. */
  function ToFrame(file: CsvFile): (df: Frame)
    ensures df.WellFormed() && df.filtered.None?
    ensures NonDecreasing(df.time)
    ensures multiset(Rows(df)) == multiset(CompleteRows(file.rows))
  {
    assert TotalPreorder(TimeLe);
    var rows := SortBy(CompleteRows(file.rows), TimeLe);
    var df := Frame(seq(|rows|, i requires 0 <= i < |rows| => rows[i].0),
                    seq(|rows|, i requires 0 <= i < |rows| => rows[i].1), None);
    assert Rows(df) == rows;
    assert forall i, j :: 0 <= i < j < |rows| ==> TimeLe(rows[i], rows[j]);
    df
  }

  /** `load_signals_from_folder(folder, n)`: the first `n` CSV files by
      name, each turned into a frame, or the first error met. */
  method LoadSignalsFromFolder(listing: seq<DirEntry>, n: nat) returns (r: Result<seq<Frame>, LoadError>)
    ensures SelectCsvFiles(listing, n).Err? ==> r == Err(SelectCsvFiles(listing, n).error)
    ensures SelectCsvFiles(listing, n).Ok? ==>
      var chosen := SelectCsvFiles(listing, n).value;
      && (r.Ok? <==> forall k :: 0 <= k < n ==> chosen[k].file.columns >= 3)
      && (r.Ok? ==> |r.value| == n && forall k :: 0 <= k < n ==> r.value[k] == ToFrame(chosen[k].file))
      && (r.Err? ==> exists k :: 0 <= k < n && chosen[k].file.columns < 3
                       && r.error == TooFewColumns(chosen[k].name)
                       && forall j :: 0 <= j < k ==> chosen[j].file.columns >= 3)
  {
    var selection := SelectCsvFiles(listing, n);
    if selection.Err? {
      return Err(selection.error);
    }
    var files := selection.value;
    var dfs: seq<Frame> := [];
    for k := 0 to |files|
      invariant |dfs| == k
      invariant forall j :: 0 <= j < k ==> files[j].file.columns >= 3 && dfs[j] == ToFrame(files[j].file)
    {
      if files[k].file.columns < 3 {
        return Err(TooFewColumns(files[k].name));
      }
      dfs := dfs + [ToFrame(files[k].file)];
    }
    return Ok(dfs);
  }

  // ------------------------------------------------------------------
  // Time windows
  // ------------------------------------------------------------------

  /** The rows whose time lies in the closed interval [lo, hi]. */
  function ClosedMask(t: seq<real>, lo: real, hi: real): (m: seq<bool>)
    ensures |m| == |t|
    ensures forall i :: 0 <= i < |t| ==> (m[i] <==> lo <= t[i] <= hi)
  {
    seq(|t|, i requires 0 <= i < |t| => lo <= t[i] && t[i] <= hi)
  }

  /** The start of the window `get_time_window` keeps: the last `duration`
      seconds in mode "last", clipped at the first sample; the whole
      recording in any other mode. */
  function TrailingStart(t: seq<real>, duration: real, mode: string): real
    requires |t| > 0
  {
    if mode == "last" then Max(t[|t| - 1] - duration, t[0]) else t[0]
  }

  /** `get_time_window(df, duration, mode)` */
  function GetTimeWindow(df: Frame, duration: real, mode: string): (r: Frame)
    requires df.WellFormed()
    ensures r.WellFormed() && r.filtered.Some? == df.filtered.Some?
    ensures |df.time| == 0 ==> r == df
  {
    if |df.time| == 0 then df
    else df.Select(ClosedMask(df.time, TrailingStart(df.time, duration, mode), df.time[|df.time| - 1]))
  }

  /** A non-empty recording keeps exactly the times from the window start
      up to the last sample, both ends included. */
  lemma GetTimeWindowMembers(df: Frame, duration: real, mode: string, x: real)
    requires df.WellFormed() && |df.time| > 0
    ensures x in GetTimeWindow(df, duration, mode).time <==>
      x in df.time && TrailingStart(df.time, duration, mode) <= x <= df.time[|df.time| - 1]
  {
    var t := df.time;
    FilterMembership(t, ClosedMask(t, TrailingStart(t, duration, mode), t[|t| - 1]), x);
  }

  /** Selecting by a closed time interval keeps exactly the (time, value)
      pairs of the column pair whose time lies in the interval. */
  lemma ClosedSelectPairs(t: seq<real>, ys: seq<real>, lo: real, hi: real, p: (real, real))
    requires |t| == |ys|
    ensures |Filter(t, ClosedMask(t, lo, hi))| == |Filter(ys, ClosedMask(t, lo, hi))|
    ensures p in Zip(Filter(t, ClosedMask(t, lo, hi)), Filter(ys, ClosedMask(t, lo, hi))) <==>
      p in Zip(t, ys) && lo <= p.0 <= hi
  {
    var mask := ClosedMask(t, lo, hi);
    var z := Zip(t, ys);
    FilterZip(t, ys, mask);
    FilterMembership(z, mask, p);
    if p in z && lo <= p.0 <= hi {
      var i :| 0 <= i < |z| && z[i] == p;
      assert mask[i];
    }
  }

  /** The window keeps whole rows: a (time, current) row, and a (time,
      filtered value) row when the column exists, is kept iff it is a row of
      the recording whose time lies from the window start to the last
      sample. */
  lemma GetTimeWindowRows(df: Frame, duration: real, mode: string, x: real, y: real)
    requires df.WellFormed() && |df.time| > 0
    ensures var w := GetTimeWindow(df, duration, mode);
      var lo, hi := TrailingStart(df.time, duration, mode), df.time[|df.time| - 1];
      && ((x, y) in Rows(w) <==> (x, y) in Rows(df) && lo <= x <= hi)
      && (df.filtered.Some? ==>
            ((x, y) in Zip(w.time, w.filtered.value) <==> (x, y) in Zip(df.time, df.filtered.value) && lo <= x <= hi))
  {
    var lo, hi := TrailingStart(df.time, duration, mode), df.time[|df.time| - 1];
    ClosedSelectPairs(df.time, df.current, lo, hi, (x, y));
    if df.filtered.Some? {
      ClosedSelectPairs(df.time, df.filtered.value, lo, hi, (x, y));
    }
  }

  /** On a recording sorted by time, any mode but "last" keeps every row,
      and so does "last" when the recording is no longer than `duration`. */
  lemma GetTimeWindowKeepsAll(df: Frame, duration: real, mode: string)
    requires df.WellFormed() && |df.time| > 0 && NonDecreasing(df.time)
    requires mode != "last" || df.time[|df.time| - 1] - duration <= df.time[0]
    ensures GetTimeWindow(df, duration, mode) == df
  {
    var t := df.time;
    var lo := TrailingStart(t, duration, mode);
    assert lo == t[0];
    var mask := ClosedMask(t, lo, t[|t| - 1]);
    forall i | 0 <= i < |mask| ensures mask[i] {
      assert t[0] <= t[i] <= t[|t| - 1];
    }
    FilterAll(t, mask);
    FilterAll(df.current, mask);
    if df.filtered.Some? {
      FilterAll(df.filtered.value, mask);
    }
  }

  /** The window positions `get_temporal_windows` walks through over a
      recording from `first` to `last`: the first window starts at the
      first sample and ends `duration` later, or at the last sample if
      that comes sooner; each next window starts `overlap` before the
      previous end and lasts `duration`. */
  datatype Schedule = Schedule(first: real, last: real, duration: real, overlap: real) {
    function End(k: nat): real {
      if k == 0 then Min(first + duration, last) else End(k - 1) - overlap + duration
    }

    function Start(k: nat): real {
      if k == 0 then first else End(k - 1) - overlap
    }

    /** Windows after the first advance by `duration - overlap` each. */
    lemma {:induction false} EndClosedForm(k: nat)
      ensures End(k) == End(0) + (k as real) * (duration - overlap)
    {
      if k > 0 {
        EndClosedForm(k - 1);
        var step := duration - overlap;
        assert End(k) == End(k - 1) + step;
        assert ((k - 1) as real) * step + step == (k as real) * step;
      }
    }

    /** With `overlap < duration` the window ends strictly increase. */
    lemma EndIncreasing(j: nat, k: nat)
      ensures overlap < duration && j < k ==> End(j) < End(k)
    {
      EndClosedForm(j);
      EndClosedForm(k);
      assert (k as real) * (duration - overlap) - (j as real) * (duration - overlap)
          == ((k - j) as real) * (duration - overlap);
    }
  }

  function ScheduleOf(t: seq<real>, duration: real, overlap: real): Schedule
    requires |t| > 0
  {
    Schedule(t[0], t[|t| - 1], duration, overlap)
  }

  /** The samples with `lo <= t < hi`. */
  function HalfOpenMask(t: seq<real>, lo: real, hi: real): (m: seq<bool>)
    ensures |m| == |t|
    ensures forall i :: 0 <= i < |t| ==> (m[i] <==> lo <= t[i] < hi)
  {
    seq(|t|, i requires 0 <= i < |t| => lo <= t[i] && t[i] < hi)
  }

  /** `(windows, masks)` is what the loop of `get_temporal_windows` emits:
      one mask and slice per scheduled window whose end does not pass the
      last sample, in schedule order, and the next window's end passes it. */
  predicate IsWindowing(t: seq<real>, duration: real, overlap: real, windows: seq<seq<real>>, masks: seq<seq<bool>>)
    requires |t| > 0
  {
    var s := ScheduleOf(t, duration, overlap);
    && |windows| == |masks|
    && (forall k :: 0 <= k < |masks| ==> Emitted(t, s, k, windows[k], masks[k]))
    && s.End(|masks|) > s.last
  }

  /** Window `k` of schedule `s` ends no later than the last sample, and
      `mask`/`window` are its samples. */
  predicate Emitted(t: seq<real>, s: Schedule, k: nat, window: seq<real>, mask: seq<bool>) {
    && s.End(k) <= s.last
    && mask == HalfOpenMask(t, s.Start(k), s.End(k))
    && window == Filter(t, mask)
  }

  datatype WindowError = OverlapNotSmaller

  /** `get_temporal_windows(df, duration, overlap)` on the time column `t`. */
  method GetTemporalWindows(t: seq<real>, duration: real, overlap: real)
    returns (r: Result<(seq<seq<real>>, seq<seq<bool>>), WindowError>)
    ensures |t| == 0 ==> r == Ok(([], []))
    ensures |t| > 0 ==> (r.Err? <==> overlap >= duration)
    ensures |t| > 0 && r.Ok? ==> IsWindowing(t, duration, overlap, r.value.0, r.value.1)
  {
    if |t| == 0 {
      return Ok(([], []));
    }
    if overlap >= duration {
      return Err(OverlapNotSmaller);
    }
    var s := ScheduleOf(t, duration, overlap);
    var last := t[|t| - 1];
    var step := duration - overlap;
    var windows: seq<seq<real>> := [];
    var masks: seq<seq<bool>> := [];
    var tStart := t[0];
    var tEnd := Min(tStart + duration, last);
    while tEnd <= last
      invariant |windows| == |masks|
      invariant tStart == s.Start(|masks|) && tEnd == s.End(|masks|)
      invariant forall k :: 0 <= k < |masks| ==> Emitted(t, s, k, windows[k], masks[k])
      decreases ((last - tEnd) / step).Floor
    {
      var mask := HalfOpenMask(t, tStart, tEnd);
      assert Emitted(t, s, |masks|, Filter(t, mask), mask);
      windows := windows + [Filter(t, mask)];
      masks := masks + [mask];
      StepMeasure(last, tEnd, step);
      assert s.End(|masks|) == tEnd - overlap + duration;
      tStart := tEnd - overlap;
      tEnd := tStart + duration;
    }
    return Ok((windows, masks));
  }

  lemma DivUnique(x: real, s: real, z: real)
    requires s > 0.0 && z * s == x
    ensures x / s == z
  {
  }

  /** One loop step brings the end one whole step closer to the last sample. */
  lemma StepMeasure(last: real, tEnd: real, step: real)
    requires step > 0.0
    ensures (last - (tEnd + step)) / step == (last - tEnd) / step - 1.0
    ensures tEnd <= last ==> ((last - tEnd) / step).Floor >= 0
    ensures ((last - (tEnd + step)) / step).Floor < ((last - tEnd) / step).Floor
  {
    var q := (last - tEnd) / step;
    assert q * step == last - tEnd;
    DivUnique(last - (tEnd + step), step, q - 1.0);
  }

  /** The loop's output is determined by its inputs. */
  lemma WindowingUnique(t: seq<real>, duration: real, overlap: real,
                        w1: seq<seq<real>>, m1: seq<seq<bool>>, w2: seq<seq<real>>, m2: seq<seq<bool>>)
    requires |t| > 0 && overlap < duration
    requires IsWindowing(t, duration, overlap, w1, m1) && IsWindowing(t, duration, overlap, w2, m2)
    ensures w1 == w2 && m1 == m2
  {
    var s := ScheduleOf(t, duration, overlap);
    if |m1| > 0 {
      assert Emitted(t, s, |m1| - 1, w1[|m1| - 1], m1[|m1| - 1]);
    }
    if |m2| > 0 {
      assert Emitted(t, s, |m2| - 1, w2[|m2| - 1], m2[|m2| - 1]);
    }
    s.EndIncreasing(|m1|, if |m2| > 0 then |m2| - 1 else 0);
    s.EndIncreasing(|m2|, if |m1| > 0 then |m1| - 1 else 0);
    assert |m1| == |m2|;
    forall k | 0 <= k < |m1| ensures w1[k] == w2[k] && m1[k] == m2[k] {
      assert Emitted(t, s, k, w1[k], m1[k]) && Emitted(t, s, k, w2[k], m2[k]);
    }
  }

  /** Window `k` holds exactly the samples with start <= x < end. */
  lemma WindowContents(t: seq<real>, duration: real, overlap: real,
                       windows: seq<seq<real>>, masks: seq<seq<bool>>, k: nat, x: real)
    requires |t| > 0 && IsWindowing(t, duration, overlap, windows, masks) && k < |windows|
    ensures var s := ScheduleOf(t, duration, overlap);
      x in windows[k] <==> x in t && s.Start(k) <= x < s.End(k)
  {
    assert Emitted(t, ScheduleOf(t, duration, overlap), k, windows[k], masks[k]);
    FilterMembership(t, masks[k], x);
  }

  /** A recording shorter than one window yields exactly one window; it
      ends at the last sample, so the last sample is left out of it. */
  lemma ShortRecordingOneWindow(t: seq<real>, duration: real, overlap: real,
                                windows: seq<seq<real>>, masks: seq<seq<bool>>)
    requires |t| > 0 && overlap < duration && t[|t| - 1] <= t[0] + duration
    requires IsWindowing(t, duration, overlap, windows, masks)
    ensures |windows| == |masks| == 1
    ensures ScheduleOf(t, duration, overlap).End(0) == t[|t| - 1]
    ensures !masks[0][|t| - 1] && t[|t| - 1] !in windows[0]
  {
    var s := ScheduleOf(t, duration, overlap);
    var mask := HalfOpenMask(t, s.Start(0), s.End(0));
    assert s.End(0) == s.last;
    assert s.End(1) == s.last - overlap + duration;
    assert Emitted(t, s, 0, Filter(t, mask), mask);
    assert IsWindowing(t, duration, overlap, [Filter(t, mask)], [mask]);
    WindowingUnique(t, duration, overlap, windows, masks, [Filter(t, mask)], [mask]);
    FilterMembership(t, mask, t[|t| - 1]);
  }

  // ------------------------------------------------------------------
  // Butterworth filter request
  // ------------------------------------------------------------------

  /** A cut-off: one frequency (low-pass, high-pass) or a list of band
      edges (band-pass), in Hz or, once normalised, as a fraction of the
      Nyquist frequency. */
  datatype Cutoff = Scalar(hz: real) | Band(edges: seq<real>)

  /** What `butter(order, wn, btype=filter_type)` is asked for. */
  datatype FilterDesign = FilterDesign(btype: string, order: nat, wn: Cutoff)

  datatype FilterError =
    | InvalidFilterType     // the `ValueError` of `design_filter`
    | CutoffShapeMismatch   // a list divided as a scalar, or a scalar iterated as a list
    | InvalidCutoff         // the `ValueError` of `butter`: critical frequencies it rejects
    | UndefinedSampleRate   // the mean of no sample intervals
    | ZeroSampleInterval    // all times equal: infinite rate, no valid cut-off
    | SignalTooShort        // the `ValueError` of `filtfilt`: no longer than its pad length

  predicate KnownFilterType(filterType: string) {
    filterType == "low" || filterType == "high" || filterType == "bandpass"
  }

  /** Band-pass takes a list of edges, low- and high-pass one frequency. */
  predicate ShapeMatches(filterType: string, cutoff: Cutoff) {
    (filterType == "bandpass") == cutoff.Band?
  }

  /** The cut-off multiplied by `f`, edge by edge. */
  function Scale(c: Cutoff, f: real): Cutoff {
    match c
    case Scalar(hz) => Scalar(hz * f)
    case Band(edges) => Band(seq(|edges|, k requires 0 <= k < |edges| => edges[k] * f))
  }

  /** The cut-off divided by the Nyquist frequency `nyq`, edge by edge. */
  function Normalise(c: Cutoff, nyq: real): (wn: Cutoff)
    requires nyq != 0.0
    ensures wn.Band? == c.Band?
    ensures Scale(wn, nyq) == c
  {
    match c
    case Scalar(hz) =>
      assert hz / nyq * nyq == hz;
      Scalar(hz / nyq)
    case Band(e) =>
      var wn := seq(|e|, k requires 0 <= k < |e| => e[k] / nyq);
      assert forall k :: 0 <= k < |e| ==> wn[k] * nyq == e[k];
      var back := Scale(Band(wn), nyq).edges;
      assert |back| == |e| && forall k :: 0 <= k < |e| ==> back[k] == wn[k] * nyq;
      assert back == e;
      Band(wn)
  }

  /** The normalised critical frequencies `butter` accepts for a digital
      filter: each strictly between 0 and 1 (the Nyquist frequency), and
      for a band at least two edges, the first below the second. */
  predicate AcceptedByButter(wn: Cutoff) {
    match wn
    case Scalar(x) => 0.0 < x < 1.0
    case Band(e) => |e| >= 2 && e[0] < e[1] && forall k :: 0 <= k < |e| ==> 0.0 < e[k] < 1.0
  }

  /** `design_filter(filter_type, fs, cutoff, order)`: the cut-off, or each
      band edge, divided by the Nyquist frequency `fs / 2`, and checked by
      `butter`. A zero rate leaves no finite critical frequency, which
      `butter` rejects like any other out of range. */
  function DesignFilter(filterType: string, fs: real, cutoff: Cutoff, order: nat): (r: Result<FilterDesign, FilterError>)
    ensures r == Err(InvalidFilterType) <==> !KnownFilterType(filterType)
    ensures KnownFilterType(filterType) && !ShapeMatches(filterType, cutoff) ==> r == Err(CutoffShapeMismatch)
    ensures KnownFilterType(filterType) && ShapeMatches(filterType, cutoff) ==>
      && (fs == 0.0 ==> r == Err(InvalidCutoff))
      && (fs != 0.0 ==> (r.Ok? <==> AcceptedByButter(Normalise(cutoff, 0.5 * fs))))
      && (r.Err? ==> r == Err(InvalidCutoff))
    ensures r.Ok? ==> r.value.btype == filterType && r.value.order == order
    ensures r.Ok? ==> AcceptedByButter(r.value.wn) && Scale(r.value.wn, 0.5 * fs) == cutoff
  {
    var nyq := 0.5 * fs;
    if !KnownFilterType(filterType) then Err(InvalidFilterType)
    else if !ShapeMatches(filterType, cutoff) then Err(CutoffShapeMismatch)
    else if nyq == 0.0 then Err(InvalidCutoff)
    else
      var wn := Normalise(cutoff, nyq);
      if AcceptedByButter(wn) then Ok(FilterDesign(filterType, order, wn)) else Err(InvalidCutoff)
  }

  /** The mean spacing of the samples is the span over the number of gaps. */
  lemma MeanSampleInterval(t: seq<real>)
    requires |t| >= 2
    ensures Mean(Diff(t)) == (t[|t| - 1] - t[0]) / ((|t| - 1) as real)
  {
    SumDiff(t);
  }

  /** The default pad length of `filtfilt`, three times the number of
      coefficients of the filter: a Butterworth design of order N has N + 1
      of them, a band-pass of order N has 2N + 1. `filtfilt` rejects a
      signal that is not longer than this. */
  function PadLength(filterType: string, order: nat): nat {
    3 * (if filterType == "bandpass" then 2 * order + 1 else order + 1)
  }

  /** The sampling rate `1 / mean(diff(t))`: undefined without an
      interval, infinite when all times are equal, otherwise the number of
      intervals over the span. */
  function SampleRate(t: seq<real>): (r: Result<real, FilterError>)
    ensures |t| < 2 ==> r == Err(UndefinedSampleRate)
    ensures |t| >= 2 ==> (r.Ok? <==> t[|t| - 1] != t[0])
    ensures r.Err? ==> r == Err(UndefinedSampleRate) || r == Err(ZeroSampleInterval)
    ensures r.Ok? ==> r.value == ((|t| - 1) as real) / (t[|t| - 1] - t[0])
  {
    if |t| < 2 then Err(UndefinedSampleRate)
    else
      var dt := Mean(Diff(t));
      MeanSampleInterval(t);
      if dt == 0.0 then Err(ZeroSampleInterval) else Ok(1.0 / dt)
  }

  /** The part of `apply_filter_to_df` after its length guard: the filter is
      designed for the mean sampling rate, and `zeroPhase` (the
      forward-backward `filtfilt`) fills the filtered column, unless the
      segment is too short for `filtfilt` to pad. */
  function FilterDesigned(df: Frame, filterType: string, cutoff: Cutoff, order: nat,
                          zeroPhase: (FilterDesign, seq<real>) -> seq<real>): (r: Result<Frame, FilterError>)
    requires df.WellFormed()
    requires forall d, x :: |zeroPhase(d, x)| == |x|
    ensures r.Ok? ==> r.value.WellFormed() && r.value.time == df.time && r.value.current == df.current
    ensures r.Ok? ==> r.value.filtered.Some?
    ensures r == Err(SignalTooShort) ==> |df.time| <= PadLength(filterType, order)
    ensures SampleRate(df.time).Ok? ==>
      (r.Ok? <==> DesignFilter(filterType, SampleRate(df.time).value, cutoff, order).Ok? && |df.time| > PadLength(filterType, order))
    ensures (SampleRate(df.time).Ok? && DesignFilter(filterType, SampleRate(df.time).value, cutoff, order).Ok?
             && |df.time| <= PadLength(filterType, order)) ==> r == Err(SignalTooShort)
  {
    match SampleRate(df.time)
    case Err(e) => Err(e)
    case Ok(fs) =>
      match DesignFilter(filterType, fs, cutoff, order)
      case Err(e) => Err(e)
      case Ok(design) =>
        if |df.time| <= PadLength(design.btype, design.order) then Err(SignalTooShort)
        else Ok(Frame(df.time, df.current, Some(zeroPhase(design, df.current))))
  }

  /** `apply_filter_to_df` as written: only a segment of fewer than
      `3 * order` samples comes back unchanged. */
  function ApplyFilterToDfAsWritten(df: Frame, filterType: string, cutoff: Cutoff, order: nat,
                                    zeroPhase: (FilterDesign, seq<real>) -> seq<real>): (r: Result<Frame, FilterError>)
    requires df.WellFormed()
    requires forall d, x :: |zeroPhase(d, x)| == |x|
    ensures |df.time| < 3 * order ==> r == Ok(df)
    ensures r.Ok? ==> r.value.WellFormed() && r.value.time == df.time && r.value.current == df.current
    ensures |df.time| >= 3 * order && r.Ok? ==> r.value.filtered.Some?
    ensures |df.time| >= 3 * order && |df.time| >= 2 && df.time[|df.time| - 1] != df.time[0] ==>
      (r.Ok? <==> DesignFilter(filterType, ((|df.time| - 1) as real) / (df.time[|df.time| - 1] - df.time[0]), cutoff, order).Ok?
                  && |df.time| > PadLength(filterType, order))
  {
    if |df.time| < 3 * order then Ok(df) else FilterDesigned(df, filterType, cutoff, order, zeroPhase)
  }

  /** The as-written guard lets through segments that `filtfilt` cannot
      pad: with a valid design, every segment of `3 * order` up to the pad
      length samples fails. */
  lemma GuardAdmitsUnpaddableSignal(df: Frame, filterType: string, cutoff: Cutoff, order: nat,
                                    zeroPhase: (FilterDesign, seq<real>) -> seq<real>)
    requires df.WellFormed()
    requires forall d, x :: |zeroPhase(d, x)| == |x|
    requires 3 * order <= |df.time| <= PadLength(filterType, order)
    requires |df.time| >= 2 && df.time[|df.time| - 1] != df.time[0]
    requires DesignFilter(filterType, ((|df.time| - 1) as real) / (df.time[|df.time| - 1] - df.time[0]), cutoff, order).Ok?
    ensures ApplyFilterToDfAsWritten(df, filterType, cutoff, order, zeroPhase) == Err(SignalTooShort)
  {
  }

  /** A concrete instance: twelve samples one second apart, low-pass of
      order 4 at 0.05 Hz. The guard needs fewer than 12 samples to bypass,
      while `filtfilt` needs more than 15. */
  lemma TwelveSamplesRejected(zeroPhase: (FilterDesign, seq<real>) -> seq<real>)
    requires forall d, x :: |zeroPhase(d, x)| == |x|
    ensures var df := Frame(seq(12, k => k as real), seq(12, k => 0.0), None);
      df.WellFormed() && |df.time| >= 3 * 4 &&
      ApplyFilterToDfAsWritten(df, "low", Scalar(0.05), 4, zeroPhase) == Err(SignalTooShort)
  {
    var df := Frame(seq(12, k => k as real), seq(12, k => 0.0), None);
    assert df.time[11] == 11.0 && df.time[0] == 0.0;
    assert DesignFilter("low", 1.0, Scalar(0.05), 4).Ok?;
    GuardAdmitsUnpaddableSignal(df, "low", Scalar(0.05), 4, zeroPhase);
  }

  /** `apply_filter_to_df` with the guard corrected to the pad length of
      `filtfilt`: too short a segment comes back unchanged, and the
      filter never fails for want of samples. */
  function ApplyFilterToDf(df: Frame, filterType: string, cutoff: Cutoff, order: nat,
                           zeroPhase: (FilterDesign, seq<real>) -> seq<real>): (r: Result<Frame, FilterError>)
    requires df.WellFormed()
    requires forall d, x :: |zeroPhase(d, x)| == |x|
    ensures |df.time| <= PadLength(filterType, order) ==> r == Ok(df)
    ensures r != Err(SignalTooShort)
    ensures r.Ok? ==> r.value.WellFormed() && r.value.time == df.time && r.value.current == df.current
    ensures |df.time| > PadLength(filterType, order) && r.Ok? ==> r.value.filtered.Some?
    ensures |df.time| > PadLength(filterType, order) && df.time[|df.time| - 1] != df.time[0] ==>
      (r.Ok? <==> DesignFilter(filterType, ((|df.time| - 1) as real) / (df.time[|df.time| - 1] - df.time[0]), cutoff, order).Ok?)
  {
    if |df.time| <= PadLength(filterType, order) then Ok(df) else FilterDesigned(df, filterType, cutoff, order, zeroPhase)
  }

  /** The corrected function differs from the as-written one exactly on the
      segments whose length lies between the two guards. */
  lemma CorrectedGuardAgrees(df: Frame, filterType: string, cutoff: Cutoff, order: nat,
                             zeroPhase: (FilterDesign, seq<real>) -> seq<real>)
    requires df.WellFormed()
    requires forall d, x :: |zeroPhase(d, x)| == |x|
    requires |df.time| < 3 * order || |df.time| > PadLength(filterType, order)
    ensures ApplyFilterToDf(df, filterType, cutoff, order, zeroPhase)
         == ApplyFilterToDfAsWritten(df, filterType, cutoff, order, zeroPhase)
  {
  }

  // ------------------------------------------------------------------
  // Statistics and gas production
  // ------------------------------------------------------------------

  /** The column the statistics and integrations read: `current_filt`
      when present, otherwise `current`. */
  function SignalColumn(df: Frame): (c: seq<real>)
    requires df.WellFormed()
    ensures |c| == |df.time|
    ensures df.filtered.None? ==> c == df.current
    ensures df.filtered.Some? ==> c == df.filtered.value
  {
    if df.filtered.Some? then df.filtered.value else df.current
  }

  /** Mean and sample standard deviation; pandas gives NaN (here `None`)
      for the mean of nothing and the deviation of fewer than two values. */
  datatype Stats = Stats(mean: Option<real>, std: Option<real>)

  /** `compute_stats(df)`, with the standard deviation an opaque `stdev`. */
  function ComputeStats(df: Frame, stdev: seq<real> -> real): (r: Stats)
    requires df.WellFormed()
    ensures r.mean.Some? <==> |df.time| > 0
    ensures r.std.Some? <==> |df.time| >= 2
    ensures r.mean.Some? ==> r.mean.value == Mean(SignalColumn(df))
    ensures r.std.Some? ==> r.std.value == stdev(SignalColumn(df))
  {
    var c := SignalColumn(df);
    Stats(if |c| > 0 then Some(Mean(c)) else None, if |c| >= 2 then Some(stdev(c)) else None)
  }

  /** The mean of the chosen column lies within the column's bounds. */
  lemma ComputeStatsMeanBounds(df: Frame, stdev: seq<real> -> real, lo: real, hi: real)
    requires df.WellFormed() && |df.time| > 0
    requires forall k :: 0 <= k < |df.time| ==> lo <= SignalColumn(df)[k] <= hi
    ensures lo <= ComputeStats(df, stdev).mean.value <= hi
  {
    MeanBounds(SignalColumn(df), lo, hi);
  }

  /** The trapezoid areas `0.5 * (i[k+1] + i[k]) * (t[k+1] - t[k])`: the
      charge in coulombs over each sample gap. */
  function Trapezoids(t: seq<real>, i: seq<real>): (q: seq<real>)
    requires |t| == |i| && |t| >= 1
    ensures |q| == |t| - 1
  {
    seq(|t| - 1, k requires 0 <= k < |t| - 1 => 0.5 * (i[k + 1] + i[k]) * (t[k + 1] - t[k]))
  }

  datatype GasError = InvalidMode

  /** Litres per mole in mode "L", nothing to convert in mode "mol". */
  function UnitFactor(mode: string): real {
    if mode == "L" then MolarVolumeStp else 1.0
  }

  /** Faraday's law: `charge` coulombs release `charge / F` moles of
      electrons, hence that over `electrons` moles of gas. */
  function GasFromCharge(charge: real, electrons: real, mode: string): real
    requires electrons > 0.0
  {
    charge / Faraday / electrons * UnitFactor(mode)
  }

  /** The shared body of `compute_h2_from_current` (2 electrons per H2) and
      `compute_o2_from_current` (4 electrons per O2): relative times and
      the cumulative gas produced up to each sample. */
  function CumulativeGas(df: Frame, electrons: real, mode: string): (r: Result<(seq<real>, seq<real>), GasError>)
    requires df.WellFormed() && electrons > 0.0
    ensures r.Err? <==> |df.time| >= 2 && mode != "mol" && mode != "L"
    ensures r.Ok? ==> |r.value.0| == |r.value.1| == |df.time|
    ensures |df.time| < 2 ==> r == Ok((df.time, seq(|df.time|, k => 0.0)))
    ensures r.Ok? && |df.time| >= 2 ==>
      && (forall k :: 0 <= k < |df.time| ==> r.value.0[k] == df.time[k] - df.time[0])
      && r.value.1[0] == 0.0
  {
    var t := df.time;
    if |t| < 2 then Ok((t, seq(|t|, k => 0.0)))
    else if mode != "mol" && mode != "L" then Err(InvalidMode)
    else
      var q := CumSum(Trapezoids(t, SignalColumn(df)));
      Ok((seq(|t|, k requires 0 <= k < |t| => t[k] - t[0]),
          seq(|t|, k requires 0 <= k < |t| => if k == 0 then 0.0 else GasFromCharge(q[k - 1], electrons, mode))))
  }

  /** `compute_h2_from_current(df, mode)` */
  function ComputeH2(df: Frame, mode: string): (r: Result<(seq<real>, seq<real>), GasError>)
    requires df.WellFormed()
    ensures r == CumulativeGas(df, 2.0, mode)
  {
    CumulativeGas(df, 2.0, mode)
  }

  /** `compute_o2_from_current(df, mode)` */
  function ComputeO2(df: Frame, mode: string): (r: Result<(seq<real>, seq<real>), GasError>)
    requires df.WellFormed()
    ensures r == CumulativeGas(df, 4.0, mode)
  {
    CumulativeGas(df, 4.0, mode)
  }

  lemma GasFromChargeAdd(a: real, b: real, electrons: real, mode: string)
    requires electrons > 0.0
    ensures GasFromCharge(a + b, electrons, mode) == GasFromCharge(a, electrons, mode) + GasFromCharge(b, electrons, mode)
  {
    var x := a / Faraday / electrons;
    var y := b / Faraday / electrons;
    assert x * electrons == a / Faraday && y * electrons == b / Faraday;
    assert (x + y) * electrons == (a + b) / Faraday;
    DivUnique((a + b) / Faraday, electrons, x + y);
  }

  lemma GasFromChargeNonNegative(a: real, electrons: real, mode: string)
    requires electrons > 0.0 && a >= 0.0
    ensures GasFromCharge(a, electrons, mode) >= 0.0
  {
    var x := a / Faraday / electrons;
    assert x * electrons == a / Faraday;
  }

  /** Each sample adds the gas released by the trapezoid charge over the
      gap before it. */
  lemma GasStep(df: Frame, electrons: real, mode: string, k: nat)
    requires df.WellFormed() && electrons > 0.0 && CumulativeGas(df, electrons, mode).Ok?
    requires 1 <= k < |df.time|
    ensures var gas := CumulativeGas(df, electrons, mode).value.1;
      gas[k] == gas[k - 1] + GasFromCharge(Trapezoids(df.time, SignalColumn(df))[k - 1], electrons, mode)
  {
    var q := Trapezoids(df.time, SignalColumn(df));
    var c := CumSum(q);
    CumSumStep(q, k - 1);
    if k == 1 {
      assert c[0] == 0.0 + q[0];
    } else {
      GasFromChargeAdd(c[k - 2], q[k - 1], electrons, mode);
    }
  }

  lemma GasInLitres(charge: real, electrons: real)
    requires electrons > 0.0
    ensures GasFromCharge(charge, electrons, "L") == GasFromCharge(charge, electrons, "mol") * MolarVolumeStp
  {
  }

  /** The volume in litres is the amount in moles times 22.414 L/mol. */
  lemma LitresFromMoles(df: Frame, electrons: real)
    requires df.WellFormed() && electrons > 0.0
    ensures var litres := CumulativeGas(df, electrons, "L").value.1;
      var moles := CumulativeGas(df, electrons, "mol").value.1;
      forall k :: 0 <= k < |df.time| ==> litres[k] == moles[k] * MolarVolumeStp
  {
    var litres := CumulativeGas(df, electrons, "L").value.1;
    var moles := CumulativeGas(df, electrons, "mol").value.1;
    forall k | 0 <= k < |df.time| ensures litres[k] == moles[k] * MolarVolumeStp {
      if |df.time| >= 2 && k > 0 {
        var c := CumSum(Trapezoids(df.time, SignalColumn(df)));
        assert litres[k] == GasFromCharge(c[k - 1], electrons, "L");
        assert moles[k] == GasFromCharge(c[k - 1], electrons, "mol");
        GasInLitres(c[k - 1], electrons);
      }
    }
  }

  /** Water splitting releases twice as much hydrogen as oxygen. */
  lemma HydrogenTwiceOxygen(df: Frame, mode: string)
    requires df.WellFormed() && ComputeH2(df, mode).Ok?
    ensures ComputeO2(df, mode).Ok?
    ensures forall k :: 0 <= k < |df.time| ==> ComputeH2(df, mode).value.1[k] == 2.0 * ComputeO2(df, mode).value.1[k]
  {
    var h2 := ComputeH2(df, mode).value.1;
    var o2 := ComputeO2(df, mode).value.1;
    forall k | 0 <= k < |df.time| ensures h2[k] == 2.0 * o2[k] {
      if |df.time| >= 2 && k > 0 {
        var c := CumSum(Trapezoids(df.time, SignalColumn(df)));
        assert h2[k] == GasFromCharge(c[k - 1], 2.0, mode);
        assert o2[k] == GasFromCharge(c[k - 1], 4.0, mode);
      }
    }
  }

  /** Over non-decreasing times, a non-negative signal gives a
      non-negative charge in every gap. */
  lemma TrapezoidsNonNegative(t: seq<real>, i: seq<real>)
    requires |t| == |i| && |t| >= 1 && NonDecreasing(t)
    requires forall k :: 0 <= k < |i| ==> i[k] >= 0.0
    ensures forall k :: 0 <= k < |t| - 1 ==> Trapezoids(t, i)[k] >= 0.0
  {
    forall k | 0 <= k < |t| - 1 ensures Trapezoids(t, i)[k] >= 0.0 {
      var dt, sum := t[k + 1] - t[k], i[k + 1] + i[k];
      assert dt >= 0.0 && sum >= 0.0;
      assert Trapezoids(t, i)[k] == 0.5 * sum * dt;
    }
  }

  lemma GasNonDecreasing(df: Frame, electrons: real, mode: string)
    requires df.WellFormed() && electrons > 0.0 && CumulativeGas(df, electrons, mode).Ok?
    requires NonDecreasing(df.time)
    requires forall k :: 0 <= k < |df.time| ==> SignalColumn(df)[k] >= 0.0
    ensures NonDecreasing(CumulativeGas(df, electrons, mode).value.1)
  {
    var gas := CumulativeGas(df, electrons, mode).value.1;
    if |df.time| >= 1 {
      var q := Trapezoids(df.time, SignalColumn(df));
      TrapezoidsNonNegative(df.time, SignalColumn(df));
      forall k | 1 <= k < |gas| ensures gas[k - 1] <= gas[k] {
        GasStep(df, electrons, mode, k);
        GasFromChargeNonNegative(q[k - 1], electrons, mode);
      }
    }
    StepsNonDecreasing(gas);
  }
}
