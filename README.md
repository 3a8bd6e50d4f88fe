# current-sensor-app: a verified model of its sequential core

The current-sensor app records the current drawn by nine electrode segments
of an electrolyser. It shows the current live, and it analyses recorded runs
offline. This Dafny project models the parts of the app that are plain
sequential logic:

- **Analysis pipeline** (`visualization.py`, module `Visualization`):
  - choosing the segment files of a folder and loading them;
  - the trailing time window, and the sliding windows with overlap;
  - validating and normalising a Butterworth filter request, including the
    short-signal bypass;
  - summary statistics;
  - the Faraday's-law conversion of the integrated current into hydrogen and
    oxygen volumes.
- **Rotating CSV logger** of the Raspberry Pi bridge (`eth_sender.py`, module
  `EthSender`): period flooring, rotation, a header only in new files, and
  only 21-field rows appended. It also covers the newline framing of
  forwarded lines.
- **Live monitoring screen** (`app/view/monitoring.py`, module `Monitoring`):
  - the labels of the port selector, and how a label is parsed back into a
    port name;
  - the rolling buffer of the last 400 current samples.
- **Preprocessing screen** (`app/view/preprocessing.py`, module
  `Preprocessing`):
  - the per-window filtering of the nine segments in the visualisation popup;
  - the totals, variances and 3×3 layout it displays;
  - the load → calculate windows → open popup sequence of the interface.
- **Serial line parser** `parse_data` (`app/common/usb_reader.py`, module
  `UsbReader`).

Shared helpers:

- `Text` gives Python's `str.split`, `strip`, `replace` and `in` on
  `seq<char>`.
- `Columns` gives the column operations: boolean-mask selection, `diff`,
  `cumsum`, `mean` and an insertion sort.
- `Wrappers` holds `Option` and `Result`.

Times and currents are exact `real`s. Stateful parts are classes whose
methods change their fields:

- the logger (`EthSender.RotatingCsvLogger`);
- the sample buffer (`Monitoring.UsbDataInterface`);
- the popup (`Preprocessing.VisualizationPopup`);
- the interface (`Preprocessing.PreprocessingInterface`).

Loops are methods with invariants: file loading, the window loop and the
per-segment loop.

The model follows the code where the code and its comments differ:

- `compute_h2_from_current` and `compute_o2_from_current` return the absolute
  times, not relative ones, when there are fewer than two samples. They do not
  reject an invalid unit in that case.
- `calculate_windows` on an empty first segment stores empty window lists
  but keeps the old index range.
- `voltage_data` is cleared but never filled.

## Model

| member | source | states |
|---|---|---|
| `Visualization.SelectCsvFiles` | visualization.py:21-28 | fails with the number found exactly when fewer than `n` names end in ".csv" (any case); otherwise returns `n` entries sorted by name |
| `Visualization.SelectCsvFilesChoosesFirst` | visualization.py:21-28 | every chosen file is a CSV entry of the folder, and every CSV entry left out sorts after each chosen one |
| `Visualization.ToFrame` | visualization.py:40-45 | a loaded segment has equal-length columns, no filtered column and non-decreasing times. Its rows are, as a multiset, exactly the rows with a numeric time and current |
| `Visualization.Frame.Select` | visualization.py:63 | `df.loc[mask]` applies the same mask to every column, so the result is well-formed, has one row per true mask entry, and has a filtered column iff the input does |
| `Visualization.LoadSignalsFromFolder` | visualization.py:15-49 | a selection error is passed through. Otherwise it succeeds iff each of the `n` chosen files has at least 3 columns, returning their frames in order. On failure the error names the first file with fewer |
| `Visualization.GetTimeWindow` | visualization.py:52-63 | an empty recording comes back unchanged. The window is well-formed and has a filtered column iff the input has one. Which rows it keeps is stated by `GetTimeWindowMembers` and `GetTimeWindowRows` |
| `Visualization.GetTimeWindowMembers` | visualization.py:55-62 | a time is kept iff it is in the recording and lies between the window start and the last time, both included. The start is `max(t_end - W, t[0])` in mode "last" and `t[0]` otherwise |
| `Visualization.GetTimeWindowRows` | visualization.py:58-63 | the window keeps whole rows: a (time, current) row is kept iff it is a row of the recording whose time lies from the window start to the last sample, and the same holds for (time, filtered value) rows when that column exists |
| `Visualization.GetTimeWindowKeepsAll` | visualization.py:58-62 | on a sorted recording, a mode other than "last" returns the frame unchanged, and so does "last" when the recording is no longer than `W` |
| `Visualization.GetTemporalWindows` | visualization.py:65-86 | no samples gives two empty lists. Otherwise it is an error iff overlap ≥ duration, and any other result is the windowing of the schedule. That windowing has equal-length lists and window `k = t[mask_k]` with `mask_k` true iff `start_k <= t < end_k`. Every end is ≤ `t[-1]`, and the next end passes it |
| `Visualization.Schedule.EndClosedForm` | visualization.py:76-84 | the end of window `k` is the first end plus `k·(duration − overlap)` |
| `Visualization.Schedule.EndIncreasing` | visualization.py:83-84 | with overlap < duration the window ends strictly increase, which is why the loop stops |
| `Visualization.WindowingUnique` | visualization.py:76-84 | two windowings of the same column with the same settings are equal: the result is determined by the input |
| `Visualization.WindowContents` | visualization.py:79-80 | a time is in window `k` iff it is a sample time with `start_k <= x < end_k` |
| `Visualization.ShortRecordingOneWindow` | visualization.py:76-80 | a recording shorter than the window gives exactly one window, ending at `t[-1]`, which leaves the last sample out |
| `Visualization.DesignFilter` | visualization.py:88-98 | rejects with `InvalidFilterType` exactly the types other than low, high and bandpass. A cut-off of the wrong shape for the type is `CutoffShapeMismatch`. Otherwise it succeeds iff the cut-off over the Nyquist frequency `fs/2` is accepted by `butter`: every value strictly between 0 and 1, and for a band at least two edges with the first below the second. A zero rate, and any other rejection, is `InvalidCutoff`. A design keeps type and order, and its `wn` times `fs/2` is the cut-off, edge by edge for a band |
| `Visualization.MeanSampleInterval` | visualization.py:106 | `mean(diff(t))` is the span over the number of intervals |
| `Visualization.SampleRate` | visualization.py:106-107 | undefined with fewer than two samples. Otherwise defined iff the last time differs from the first, and then it equals `(n − 1)/(t_last − t_0)` |
| `Visualization.FilterDesigned` | visualization.py:106-112 | a success keeps time and current and adds the filtered column. With a defined rate it succeeds iff the design does and the signal is longer than `filtfilt`'s pad length; a valid design on a shorter signal fails with `SignalTooShort` |
| `Visualization.ApplyFilterToDfAsWritten` | visualization.py:100-112 | as written: a segment of fewer than `3·order` samples comes back unchanged. Any success keeps time and current. A segment of at least `3·order` samples gains a filtered column on success. With distinct end times it succeeds iff the design succeeds at rate `(n − 1)/(t_last − t_0)` and the segment is longer than the pad length |
| `Visualization.GuardAdmitsUnpaddableSignal` | visualization.py:104-109 | as written, a segment of `3·order` up to the pad length samples with a valid design fails inside `filtfilt` |
| `Visualization.TwelveSamplesRejected` | visualization.py:104-109 | twelve samples one second apart, low-pass of order 4: the guard lets them through and `filtfilt` rejects them |
| `Visualization.ApplyFilterToDf` | visualization.py:100-112 | the corrected member of the finding below: a segment no longer than the pad length comes back unchanged, and the filter never fails for want of samples. Any success keeps time and current. A longer segment gains a filtered column, and with distinct end times it succeeds iff the design succeeds at rate `(n − 1)/(t_last − t_0)` |
| `Visualization.CorrectedGuardAgrees` | visualization.py:104-105 | outside the lengths between the two guards, the corrected and as-written functions agree |
| `Visualization.SignalColumn` | visualization.py:116-117 | the column read is as long as the segment. It is the filtered column when there is one, and `current` otherwise |
| `Visualization.ComputeStats` | visualization.py:114-120 | the mean is defined iff the segment is non-empty, and is the mean of the chosen column. The deviation is defined iff there are at least two samples, and is the deviation of the chosen column |
| `Visualization.ComputeStatsMeanBounds` | visualization.py:118 | the mean lies between any bounds of the column |
| `Visualization.CumulativeGas` | visualization.py:122-143 | fails iff there are at least two samples and the unit is not "mol" or "L". Both series have the segment's length. Fewer than two samples give the times and zeros; otherwise times are relative to the first and the gas starts at 0 |
| `Visualization.ComputeH2` | visualization.py:122-143 | hydrogen is the cumulative gas at two electrons per molecule |
| `Visualization.ComputeO2` | visualization.py:145-174 | oxygen is the cumulative gas at four electrons per molecule |
| `Visualization.GasStep` | visualization.py:131-139 | each cumulative value is the previous one plus the Faraday conversion of the trapezoid `(i[k−1]+i[k])/2·(t[k]−t[k−1])` |
| `Visualization.GasFromChargeAdd` | visualization.py:134-141 | the charge-to-gas conversion distributes over a sum of charges |
| `Visualization.GasFromChargeNonNegative` | visualization.py:134-141 | a non-negative charge gives a non-negative amount of gas |
| `Visualization.LitresFromMoles` | visualization.py:137-140 | the result in litres is the result in moles times 22.414, sample by sample |
| `Visualization.HydrogenTwiceOxygen` | visualization.py:145-174 | on the same segment and unit, oxygen succeeds whenever hydrogen does, and hydrogen is twice oxygen at every sample |
| `Visualization.TrapezoidsNonNegative` | visualization.py:131-133 | with sorted times and a non-negative current, every charge increment is non-negative |
| `Visualization.GasNonDecreasing` | visualization.py:131-143 | with sorted times and a non-negative current, the cumulative gas never decreases |
| `EthSender.Header` | eth_sender.py:90-96 | the header has exactly `EXPECTED_FIELDS` = 21 entries, from "seq", "timestamp" to "power" |
| `EthSender.PeriodFloor` | eth_sender.py:72-73 | the period start is a multiple of `rotate_seconds`, and for a positive period it satisfies `floor ≤ t < floor + rotate_seconds` |
| `EthSender.SamePeriod` | eth_sender.py:72-73 | every time inside the period of `t` has the same period start, so no rotation happens within a period |
| `EthSender.MultiplesApart` | eth_sender.py:72-73 | two different period starts are at least one period apart |
| `EthSender.Fields` | eth_sender.py:107 | one field per comma plus one, each the whitespace-stripped piece between commas |
| `EthSender.FieldsOfJoinedRow` | eth_sender.py:107 | a row of comma-free, stripped fields written with commas parses back to the same row |
| `EthSender.AppendKeepsDirectoryOk` | eth_sender.py:108-113 | appending a 21-field row keeps every log file as its original content, or the header for a new file, followed by 21-field rows only |
| `EthSender.RotatingCsvLogger.constructor` | eth_sender.py:62-70 | no file is open yet and the directory is as found |
| `EthSender.RotatingCsvLogger.OpenNewFile` | eth_sender.py:75-99 | the period start and path become those of `t`'s period. An existing file is kept as it is (append mode); only a file that did not exist is created with the header |
| `EthSender.RotatingCsvLogger.WriteRowFromLine` | eth_sender.py:101-115 | the file of the current period is opened first, whatever the line. The stripped fields are appended to it iff there are exactly 21. Existing rows of every file are kept as a prefix |
| `EthSender.EnsureNewline` | eth_sender.py:135-136 | the forwarded bytes end in a newline, extend the raw line by at most that newline, and equal it when it already ends in one |
| `EthSender.EnsureNewlineIdempotent` | eth_sender.py:135-136 | framing an already framed line changes nothing |
| `EthSender.ForwardedLine` | eth_sender.py:130-147 | an empty read forwards nothing; any other line is forwarded newline-terminated |
| `Monitoring.GetSelectedPort` | app/view/monitoring.py:186-206 | the selection is "no port" (mock mode) iff the label contains "Mock Mode" or the gamepad sign |
| `Monitoring.WindowsLabel` | app/view/monitoring.py:133 | the Windows entry is the plug prefix, then the device, then " - ", then the description |
| `Monitoring.PathLabel` | app/view/monitoring.py:145 | a macOS or Linux entry is the plug prefix followed by the path |
| `Monitoring.MockLabelSelectsNone` | app/view/monitoring.py:190-192 | the mock-mode entry selects mock mode |
| `Monitoring.PathLabelMarkersRemoved` | app/view/monitoring.py:194 | removing the plug and wrench prefixes from a path label gives back the path |
| `Monitoring.PathLabelSelectsPath` | app/view/monitoring.py:194-206 | the label of a macOS or Linux path selects the stripped path |
| `Monitoring.VirtualLabelSelectsVirtualPath` | app/view/monitoring.py:194-203 | the test virtual port's label selects "/tmp/pico_virtual" |
| `Monitoring.FirstSeparatorAfterDevice` | app/view/monitoring.py:197-199 | in `device + " - " + rest`, with no " - " in the device and no trailing " -", the text before the first " - " is the device |
| `Monitoring.WindowsLabelSelectsDevice` | app/view/monitoring.py:194-199 | the label `🔌 device - description` of a Windows port selects the stripped device name |
| `Monitoring.SortedDistinct` | app/view/monitoring.py:144 | `sorted(set(ports))`: the same names, in order, each once |
| `Monitoring.PortLabels` | app/view/monitoring.py:120-164 | the selector always ends with the mock-mode entry |
| `Monitoring.RealPortCount` | app/view/monitoring.py:168 | the device count is one less than the number of entries, leaving out the mock entry |
| `Monitoring.RealPortCountIsDevices` | app/view/monitoring.py:168 | the entries other than mock mode are one per device found, plus the virtual port on macOS when present |
| `Monitoring.LinuxLabelsSelect` | app/view/monitoring.py:156-158 | on Linux, entry `k` selects the `k`-th path found, and the last entry selects mock mode |
| `Monitoring.Recent` | app/view/monitoring.py:291-295 | the buffer is the newest `min(n, 400)` samples received, in order |
| `Monitoring.RecentStep` | app/view/monitoring.py:291-295 | one new sample is appended and, past 400, the oldest is dropped |
| `Monitoring.UsbDataInterface.constructor` | app/view/monitoring.py:21-23 | both buffers start empty |
| `Monitoring.UsbDataInterface.OnDataReceived` | app/view/monitoring.py:285-299 | the buffer stays the newest samples received, holds at most 400 and ends with the new sample. Voltages are untouched, and the plot abscissae are `i/100` |
| `Monitoring.UsbDataInterface.ClearData` | app/view/monitoring.py:331-335 | both buffers are emptied |
| `UsbReader.ParseData` | app/common/usb_reader.py:131-145 | a reading needs a comma in the line, and carries the given timestamp |
| `UsbReader.NoCommaNoReading` | app/common/usb_reader.py:134-135 | a line with fewer than two fields gives no reading |
| `UsbReader.ParseFormattedLine` | app/common/usb_reader.py:134-142 | `voltage,current` gives the reading of the stripped first and second fields |
| `UsbReader.ExtraFieldsIgnored` | app/common/usb_reader.py:135-137 | fields after the second do not change the reading |
| `UsbReader.NonNumericNoReading` | app/common/usb_reader.py:136-145 | a non-numeric voltage or current gives no reading instead of an exception |
| `Text.Split` | eth_sender.py:107 | `str.split(sep)`: at least one piece, none containing the separator, joining back to the line |
| `Text.SplitJoin` | eth_sender.py:107 | splitting a join of separator-free fields returns the fields |
| `Text.StripIsSlice` | eth_sender.py:107 | `strip` returns the slice after the leading whitespace, neither starting nor ending with whitespace |
| `Text.IndexOf` | app/view/monitoring.py:198-199 | finds a substring iff it occurs, at its first occurrence |
| `Columns.FilterMembership` | visualization.py:62 | a value is selected by the mask iff it occurs at a position the mask keeps |
| `Columns.SortBy` | visualization.py:21-47 | the sort is a permutation of its input, in order |
| `Preprocessing.CutoffBand` | app/view/preprocessing.py:292-295 | the cut-off is a band iff the filter type is "bandpass" |
| `Preprocessing.BandAroundCutoff` | app/view/preprocessing.py:293 | the band has two edges, one below and one above the chosen frequency, whose product is its square |
| `Preprocessing.CutoffBandDesigns` | app/view/preprocessing.py:292-297 | at a positive rate `fs`, the design succeeds iff the chosen frequency is positive and below `fs/2`, or below `fs/4` for band-pass, whose upper edge is twice it. Any failure is `InvalidCutoff`. The normalised cut-off is `2c/fs` for low and high pass, and `[c/fs, 4c/fs]` for band-pass |
| `Preprocessing.ProcessSegment` | app/view/preprocessing.py:287-314 | a mask for another length fails. Otherwise it succeeds iff `apply_filter_to_df` as written does, and fails with its error otherwise. A success holds the filtered window, with the masked times and currents, its statistics, and its hydrogen and oxygen series in litres against the window's times |
| `Preprocessing.SegmentGasBalance` | app/view/preprocessing.py:304-314 | in a processed segment, hydrogen is twice oxygen at every sample and in total |
| `Preprocessing.SegmentActualTimes` | app/view/preprocessing.py:304-314 | the gas series are kept against the window's actual sample times |
| `Preprocessing.ProcessSegments` | app/view/preprocessing.py:287-314 | the results of the segments in order, up to the first that fails, and that segment's error |
| `Preprocessing.Total` | app/view/preprocessing.py:406-407 | the total is 0 for an empty series and otherwise one of its values. For a non-decreasing series it is the largest |
| `Preprocessing.TotalIsWholeCharge` | app/view/preprocessing.py:370 | the total (last value, or 0) is the gas of the whole charge of the segment |
| `Preprocessing.TotalNonNegative` | app/view/preprocessing.py:406-407 | a total is non-negative for sorted times and a non-negative current |
| `Preprocessing.Variance` | app/view/preprocessing.py:469 | the variance is the square of the deviation, defined iff the deviation is |
| `Preprocessing.GridCell` | app/view/preprocessing.py:137-139 | segment `i` sits in row `i // 3`, column `i % 3` of the 3×3 grid |
| `Preprocessing.GridCellRoundTrip` | app/view/preprocessing.py:137-139 | every segment has its own cell |
| `Preprocessing.CellIndexRoundTrip` | app/view/preprocessing.py:137-139 | every cell has its own segment |
| `Preprocessing.Reshape3` | app/view/preprocessing.py:412-415 | `reshape(3, 3)` gives three rows of three |
| `Preprocessing.GridMatchesReshape` | app/view/preprocessing.py:409-415 | each heatmap shows a segment's value in the cell of its signal plot |
| `Preprocessing.VisualizationPopup.constructor` | app/view/preprocessing.py:23-32 | the popup keeps the segments, the window mask and index, and starts with empty result lists |
| `Preprocessing.VisualizationPopup.ApplyFilters` | app/view/preprocessing.py:276-314 | the four lists are rebuilt from empty, one entry per segment in segment order, each the `ProcessSegment` result of that segment. They are complete iff no segment fails; otherwise the failing segment is the one after them, and the error is its error |
| `Preprocessing.PreprocessingInterface.constructor` | app/view/preprocessing.py:547-555 | nothing loaded, no windows, index range 0..0 |
| `Preprocessing.PreprocessingInterface.UploadFolder` | app/view/preprocessing.py:682-715 | a cancelled dialog or a failed load changes nothing. A load replaces the segments with the first nine CSV files and resets the windows and the index range to 0..0 |
| `Preprocessing.PreprocessingInterface.CalculateWindows` | app/view/preprocessing.py:743-805 | nothing changes without data or with overlap ≥ length. Otherwise the windows are those of the first segment, and the index range is `0..len − 1` at value 0 |
| `Preprocessing.PreprocessingInterface.SetWindowIndex` | app/view/preprocessing.py:655-658 | the spin box clamps its value into the current range |
| `Preprocessing.PreprocessingInterface.OpenVisualizationPopup` | app/view/preprocessing.py:807-861 | no popup without data or windows. Otherwise a popup for the chosen window is opened and kept iff every segment can be processed with the default settings by `apply_filter_to_df` as written. With the default order-4 low-pass, a window of 12 to 15 samples whose design is valid therefore drops the popup |
| `Preprocessing.WindowingShape` | app/view/preprocessing.py:771-786 | windows of a non-empty first segment are never empty in number, and each mask covers the whole segment |

## Left out

- Butterworth design (`butter`) and zero-phase filtering (`filtfilt`) are
  numerical library code. The filtered column is an opaque length-preserving
  parameter `zeroPhase`. Two of their checks are modelled:
  - `butter`'s rejection of critical frequencies outside (0, 1), and of a
    band with fewer than two edges or with edges out of order;
  - `filtfilt`'s rejection of signals no longer than its default pad length,
    `3·max(len(a), len(b))`.
- The standard deviation is an opaque parameter `stdev` (square root and
  pandas' ddof). Only its definedness (two or more samples) is modelled.
- IEEE floating point, NaN and infinity: values are exact reals. A `NaN`
  cell from `pd.to_numeric` is `None`. An infinite sampling rate (all times
  equal) is the error `ZeroSampleInterval`.
- CSV reading is modelled as given rows with a column count. The directory
  listing is an input, and the sort is on names: all paths share the folder
  prefix.
- Qt and pyqtgraph widgets, plots, colour maps, InfoBars, dialogs,
  `update_preview` and the export functions. An InfoBar message reduces to
  "nothing changed".
- Threads, sockets and the TCP broadcast with its lock; the serial read loop
  with its reconnects.
- Serial-port discovery (registry, globbing, probing) is the `PortScan`
  input. The `try/except` around it, which can only stop the list early, is
  not modelled.
- The wall clock and `datetime.now` are parameters (`now`, `timestamp`).
- `strftime` file names are the one-to-one key `LogPath(periodStart)`.
- Decoding raw bytes to text before logging is not modelled.
- `rotate_seconds` must be non-zero: the source divides by it and would
  raise `ZeroDivisionError`.
- `UsbReader.ParseData`: its own contract states only that a reading needs
  a comma and carries the timestamp. Field selection, stripping and the
  non-numeric case are stated by `ParseFormattedLine`,
  `ExtraFieldsIgnored` and `NonNumericNoReading`. Float parsing is the
  partial function `parseFloat`.
- `Preprocessing.VisualizationPopup.ApplyFilters`:
  - the loop runs on values (`ProcessSegments`) and its results are stored
    into the four fields afterwards;
  - the final state is the same as the source's per-iteration appends, but
    the intermediate states are not modelled;
  - the filter settings are parameters standing for the popup's controls.
- `Preprocessing.PreprocessingInterface.OpenVisualizationPopup`:
  - the popup's `__init__` applies the filters itself; the model constructs
    the popup and then calls `ApplyFilters`;
  - an exception there is the popup being dropped.
- A window mask computed on the first segment raises in pandas when applied
  to a segment of another length. It is the error `MaskLengthMismatch`.
- `compute_stats` on a column with NaN (pandas skips them) is not modelled:
  there are no NaN values once rows are loaded.

## Findings

The model of the program (`ProcessSegment`, the popup and the interface)
uses `apply_filter_to_df` as written, so it drops the popup where the source
does. The corrected function and its guarantee are stated alongside it.

| source | as written | input that shows it | evidently intended | confidence | as-written member | corrected member |
|---|---|---|---|---|---|---|
| visualization.py:104-109 | the bypass `len(t) < order * 3` lets through segments that `filtfilt` cannot pad. `filtfilt` needs more than `3·max(len(a), len(b))` samples: `3·(order+1)` for low/high and `3·(2·order+1)` for band-pass | twelve samples one second apart, low-pass of order 4 at 0.05 Hz. The guard passes (12 ≥ 12) but `filtfilt` needs more than 15, so the popup fails to open | return the segment unchanged whenever it is no longer than the pad length | not executed; relies on SciPy's documented default pad length | `Visualization.TwelveSamplesRejected` | `Visualization.ApplyFilterToDf` |
