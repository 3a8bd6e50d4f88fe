/** The Raspberry Pi side of the Ethernet bridge (eth_sender.py): a CSV
    logger that starts a new file for every rotation period, writes a
    header only into files it creates, and appends only well-formed rows;
    and the newline framing of the lines it forwards. The file system is a
    map from log file to its rows; the clock is a parameter. */
module EthSender {
  import opened Wrappers
  import opened Text

  /** `seq, timestamp, v1..v9, i1..i9, power` */
  const ExpectedFields: nat := 21

  /** The header row of a new log file. */
  function Header(): (h: seq<string>)
    ensures |h| == ExpectedFields
    ensures h[0] == "seq" && h[1] == "timestamp" && h[20] == "power"
  {
    ["seq", "timestamp",
     "v1", "v2", "v3", "v4", "v5", "v6", "v7", "v8", "v9",
     "i1", "i2", "i3", "i4", "i5", "i6", "i7", "i8", "i9",
     "power"]
  }

  /** `int(t // rotate_seconds) * rotate_seconds`: the start of the
      rotation period holding time `t`. */
  function PeriodFloor(t: real, rotateSeconds: int): (f: int)
    requires rotateSeconds != 0
    ensures f % rotateSeconds == 0
    ensures rotateSeconds > 0 ==> (f as real) <= t < (f as real) + (rotateSeconds as real)
  {
    var q := (t / (rotateSeconds as real)).Floor;
    PeriodFloorBounds(t, rotateSeconds, q);
    q * rotateSeconds
  }

  lemma PeriodFloorBounds(t: real, r: int, q: int)
    requires r != 0 && q == (t / (r as real)).Floor
    ensures (q * r) % r == 0
    ensures r > 0 ==> ((q * r) as real) <= t < ((q * r) as real) + (r as real)
  {
    if r > 0 {
      MultipleOf(q, r);
      var x := t / (r as real);
      var rr := r as real;
      assert x * rr == t;
      assert (q as real) <= x < (q as real) + 1.0;
      RealMulLe(q as real, x, rr);
      RealMulLt(x, (q as real) + 1.0, rr);
      assert ((q as real) + 1.0) * rr == (q as real) * rr + rr;
      assert (q as real) * rr <= t;
      assert t < (q as real) * rr + rr;
      assert ((q * r) as real) == (q as real) * rr;
    } else {
      MultipleOf(-q, -r);
      assert (-q) * (-r) == q * r;
      ModNegated(q * r, r);
    }
  }

  lemma ModNegated(m: int, r: int)
    requires r < 0 && m % (-r) == 0
    ensures m % r == 0
  {
    var d := m / (-r);
    assert m == d * (-r);
    assert m == (-d) * r + 0;
  }

  /** `q * r` leaves no remainder on division by `r`. */
  lemma MultipleOf(q: int, r: int)
    requires r > 0
    ensures (q * r) % r == 0
  {
    var d := (q * r) / r;
    var k := (q * r) % r;
    assert q * r == d * r + k;
    DistributeSub(q, d, r);
    if q - d >= 1 {
      MulAtLeast(q - d, r);
    } else if q - d <= -1 {
      MulAtLeast(d - q, r);
      DistributeSub(d, q, r);
    }
  }

  lemma DistributeSub(a: int, b: int, r: int)
    ensures (a - b) * r == a * r - b * r
  {
  }

  lemma MulAtLeast(a: int, r: int)
    requires a >= 1 && r > 0
    ensures a * r >= r
  {
  }

  lemma RealMulLe(a: real, b: real, c: real)
    requires a <= b && c > 0.0
    ensures a * c <= b * c
  {
  }

  lemma RealMulLt(a: real, b: real, c: real)
    requires a < b && c > 0.0
    ensures a * c < b * c
  {
  }

  /** A time inside the period of `t` has the same period start, so the
      logger does not rotate within a period. */
  lemma SamePeriod(t: real, u: real, rotateSeconds: int)
    requires rotateSeconds > 0
    requires PeriodFloor(t, rotateSeconds) as real <= u < PeriodFloor(t, rotateSeconds) as real + rotateSeconds as real
    ensures PeriodFloor(u, rotateSeconds) == PeriodFloor(t, rotateSeconds)
  {
    var f := PeriodFloor(t, rotateSeconds);
    var g := PeriodFloor(u, rotateSeconds);
    MultiplesApart(f, g, rotateSeconds);
  }

  /** Two distinct multiples of `r` are at least `r` apart. */
  lemma MultiplesApart(f: int, g: int, r: int)
    requires r > 0 && f % r == 0 && g % r == 0
    ensures f == g || f - g >= r || g - f >= r
  {
    var a := f / r;
    var b := g / r;
    assert f == a * r && g == b * r;
    if a < b {
      DistributeSub(b, a, r);
      MulAtLeast(b - a, r);
    } else if b < a {
      DistributeSub(a, b, r);
      MulAtLeast(a - b, r);
    }
  }

  /** The log file of the period starting at `periodStart`. Its name, the
      UTC date and time of that start, is one-to-one with the start. */
  datatype LogPath = LogPath(periodStart: int)

  /** `[p.strip() for p in line.split(",")]` */
  function Fields(line: string): (parts: seq<string>)
    ensures |parts| == |Split(line, ',')| == Count(line, ',') + 1
    ensures forall k :: 0 <= k < |parts| ==> parts[k] == Strip(Split(line, ',')[k])
  {
    SplitLength(line, ',');
    var pieces := Split(line, ',');
    seq(|pieces|, k requires 0 <= k < |pieces| => Strip(pieces[k]))
  }

  /** A row written out as comma-separated text is read back as the same
      row, provided no field holds a comma or surrounding whitespace. */
  lemma FieldsOfJoinedRow(row: seq<string>)
    requires |row| >= 1
    requires forall k :: 0 <= k < |row| ==> ',' !in row[k] && Strip(row[k]) == row[k]
    ensures Fields(Join(row, ',')) == row
  {
    SplitJoin(row, ',');
  }

  /** The rows a log file may hold: the rows it had before the logger ran
      (`[Header()]` for a file the logger creates) followed only by rows
      of exactly `ExpectedFields` fields. */
  ghost predicate LogFileOk(before: seq<seq<string>>, rows: seq<seq<string>>) {
    && before <= rows
    && forall k :: |before| <= k < |rows| ==> |rows[k]| == ExpectedFields
  }

  /** Every file found at the start is still there, and every file holds
      what it was created with followed by well-formed rows only. */
  ghost predicate DirectoryOk(initial: map<LogPath, seq<seq<string>>>, files: map<LogPath, seq<seq<string>>>) {
    && (forall p :: p in initial ==> p in files)
    && (forall p :: p in files ==> LogFileOk(if p in initial then initial[p] else [Header()], files[p]))
  }

  /** Appending a row of exactly `ExpectedFields` fields keeps the
      directory well-formed. */
  lemma AppendKeepsDirectoryOk(initial: map<LogPath, seq<seq<string>>>, files: map<LogPath, seq<seq<string>>>,
                               p: LogPath, row: seq<string>)
    requires DirectoryOk(initial, files) && p in files && |row| == ExpectedFields
    ensures DirectoryOk(initial, files[p := files[p] + [row]])
  {
    var before := if p in initial then initial[p] else [Header()];
    assert LogFileOk(before, files[p]);
    assert files[p] <= files[p] + [row];
  }

  class RotatingCsvLogger {
    const rotateSeconds: int
    /** Start of the period of the open file, `None` before the first row. */
    var periodStart: Option<int>
    /** The open log file, `None` before the first row. */
    var currentPath: Option<LogPath>
    /** The log directory: each file and its rows. */
    var files: map<LogPath, seq<seq<string>>>
    /** The directory as found when the logger was created. */
    ghost const initial: map<LogPath, seq<seq<string>>>

    ghost predicate Valid()
      reads this
    {
      && rotateSeconds != 0
      && (periodStart.Some? <==> currentPath.Some?)
      && (currentPath.Some? ==>
            && currentPath.value == LogPath(periodStart.value)
            && currentPath.value in files
            && periodStart.value % rotateSeconds == 0)
      && DirectoryOk(initial, files)
    }

    /** `RotatingCSVLogger(log_dir, rotate_seconds)` over a directory that
        already holds `existing`. */
    constructor (rotateSeconds: int, existing: map<LogPath, seq<seq<string>>>)
      requires rotateSeconds != 0
      ensures Valid()
      ensures this.rotateSeconds == rotateSeconds && initial == existing && files == existing
      ensures periodStart.None? && currentPath.None?
    {
      this.rotateSeconds := rotateSeconds;
      periodStart := None;
      currentPath := None;
      files := existing;
      initial := existing;
    }

    /** `_open_new_file(t)`: switch to the file of `t`'s period, opened for
        appending; only a file that did not exist gets the header. */
    method OpenNewFile(t: real)
      requires Valid()
      modifies this
      ensures Valid()
      ensures periodStart == Some(PeriodFloor(t, rotateSeconds))
      ensures currentPath == Some(LogPath(PeriodFloor(t, rotateSeconds)))
      ensures var p := LogPath(PeriodFloor(t, rotateSeconds));
        files == if p in old(files) then old(files) else old(files)[p := [Header()]]
    {
      var start := PeriodFloor(t, rotateSeconds);
      periodStart := Some(start);
      var path := LogPath(start);
      currentPath := Some(path);
      if path !in files {
        files := files[path := [Header()]];
      }
    }

    /** `write_row_from_line(line)` at clock reading `now`: rotate first if
        no file is open or the period has changed, then append the line's
        stripped fields, unless there are not exactly 21 of them. */
    method WriteRowFromLine(line: string, now: real)
      requires Valid()
      modifies this
      ensures Valid()
      ensures var f := PeriodFloor(now, rotateSeconds);
        periodStart == Some(f) && currentPath == Some(LogPath(f))
      ensures var p := LogPath(PeriodFloor(now, rotateSeconds));
        var afterOpen := if p in old(files) then old(files) else old(files)[p := [Header()]];
        files == if |Fields(line)| == ExpectedFields then afterOpen[p := afterOpen[p] + [Fields(line)]] else afterOpen
      ensures Grown(old(files), files)
    {
      var f := PeriodFloor(now, rotateSeconds);
      GrownReflexive(files);
      if currentPath.None? || periodStart != Some(f) {
        OpenNewFile(now);
        if LogPath(f) !in old(files) {
          GrowsByUpdate(old(files), LogPath(f), [Header()]);
        }
      }
      ghost var afterOpen := files;
      var parts := Fields(line);
      if |parts| == ExpectedFields {
        var p := currentPath.value;
        AppendKeepsDirectoryOk(initial, files, p, parts);
        GrowsByUpdate(files, p, files[p] + [parts]);
        files := files[p := files[p] + [parts]];
        GrownTransitive(old(files), afterOpen, files);
      }
    }
  }

  /** Every file of `before` is in `after`, with its rows as a prefix. */
  ghost predicate Grown(before: map<LogPath, seq<seq<string>>>, after: map<LogPath, seq<seq<string>>>) {
    forall p :: p in before ==> p in after && before[p] <= after[p]
  }

  /** Creating a file, or appending to one, only grows the directory. */
  lemma GrowsByUpdate(before: map<LogPath, seq<seq<string>>>, p: LogPath, rows: seq<seq<string>>)
    requires p in before ==> before[p] <= rows
    ensures Grown(before, before[p := rows])
  {
  }

  lemma GrownReflexive(m: map<LogPath, seq<seq<string>>>)
    ensures Grown(m, m)
  {
  }

  lemma GrownTransitive(a: map<LogPath, seq<seq<string>>>, b: map<LogPath, seq<seq<string>>>, c: map<LogPath, seq<seq<string>>>)
    requires Grown(a, b) && Grown(b, c)
    ensures Grown(a, c)
  {
  }

  // ------------------------------------------------------------------
  // Forwarding
  // ------------------------------------------------------------------

  newtype byte = x: int | 0 <= x < 256

  const Newline: byte := 10

  /** `if not raw.endswith(b"\n"): raw += b"\n"` */
  function EnsureNewline(raw: seq<byte>): (r: seq<byte>)
    ensures |r| > 0 && r[|r| - 1] == Newline
    ensures raw <= r && |r| <= |raw| + 1
    ensures |raw| > 0 && raw[|raw| - 1] == Newline ==> r == raw
  {
    if |raw| > 0 && raw[|raw| - 1] == Newline then raw else raw + [Newline]
  }

  /** Framing a line twice changes nothing more. */
  lemma EnsureNewlineIdempotent(raw: seq<byte>)
    ensures EnsureNewline(EnsureNewline(raw)) == EnsureNewline(raw)
  {
  }

  /** A line read from the serial port is forwarded newline-terminated;
      an empty read is skipped. */
  function ForwardedLine(raw: seq<byte>): (r: Option<seq<byte>>)
    ensures r.None? <==> |raw| == 0
    ensures r.Some? ==> r.value == EnsureNewline(raw)
  {
    if |raw| == 0 then None else Some(EnsureNewline(raw))
  }
}
