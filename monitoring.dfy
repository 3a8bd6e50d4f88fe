/** The live-monitoring screen (app/view/monitoring.py): the labels the
    port selector shows, the parsing of the selected label back into a
    port name, and the rolling buffer of the most recent current samples.
    Port discovery is an input; widgets and plotting are not modelled. */
module Monitoring {
  import opened Wrappers
  import opened Text
  import opened Columns

  const Plug: char := '\U{1F50C}'
  const Wrench: char := '\U{1F527}'
  const Gamepad: char := '\U{1F3AE}'

  const PlugPrefix: string := [Plug, ' ']
  const WrenchPrefix: string := [Wrench, ' ']
  const MockMode: string := "Mock Mode"
  const MockLabel: string := [Gamepad, ' '] + MockMode + " (Simulated Data)"
  const VirtualPath: string := "/tmp/pico_virtual"
  const VirtualTag: string := "(Test Virtual Port)"
  const VirtualLabel: string := WrenchPrefix + VirtualPath + " " + VirtualTag
  const Separator: string := " - "

  /** `f"🔌 {port.device} - {port.description}"` */
  function WindowsLabel(device: string, description: string): (l: string)
    ensures PlugPrefix <= l && l[|PlugPrefix|..] == device + Separator + description
  {
    PlugPrefix + device + Separator + description
  }

  /** `f"🔌 {port}"` */
  function PathLabel(path: string): (l: string)
    ensures PlugPrefix <= l && l[|PlugPrefix|..] == path
  {
    PlugPrefix + path
  }

  /** `get_selected_port()` on the selector text: `None` selects mock mode. */
  function GetSelectedPort(text: string): (r: Option<string>)
    ensures r.None? <==> Contains(text, MockMode) || Contains(text, [Gamepad])
  {
    if Contains(text, MockMode) || Contains(text, [Gamepad]) then None
    else
      var t := Replace(Replace(text, PlugPrefix, ""), WrenchPrefix, "");
      if Contains(t, Separator) then Some(Strip(BeforeFirst(t, Separator)))
      else if Contains(t, VirtualTag) then Some(Strip(Replace(t, " " + VirtualTag, "")))
      else Some(Strip(t))
  }

  /** A device name or path the labels can carry through unchanged: none
      of the marker symbols and no text the parser looks for. */
  predicate PlainName(s: string) {
    && Plug !in s && Wrench !in s && Gamepad !in s
    && !Contains(s, MockMode) && !Contains(s, Separator)
  }

  lemma MockLabelSelectsNone()
    ensures GetSelectedPort(MockLabel).None?
  {
    assert MockLabel[|[Gamepad, ' ']|..|[Gamepad, ' ']| + |MockMode|] == MockMode;
    ContainsAt(MockLabel, MockMode, 2);
  }

  /** "Mock Mode" cannot appear across the plug symbol and the space
      after it. */
  lemma NoMockAfterPlug(x: string)
    requires !Contains(x, MockMode)
    ensures !Contains(PathLabel(x), MockMode)
  {
    assert PathLabel(x) == [] + [Plug] + ([' '] + x);
    ContainsAround([], Plug, [' '] + x, MockMode);
    ContainsDropFirst(' ', x, MockMode);
  }

  lemma ReplaceAbsent(s: string, pattern: string)
    requires |pattern| > 0 && pattern[0] !in s
    ensures Replace(s, pattern, "") == s
  {
    NotContainsMissingChar(s, pattern, 0);
  }

  lemma PathLabelNotMock(path: string)
    requires PlainName(path)
    ensures !Contains(PathLabel(path), MockMode) && !Contains(PathLabel(path), [Gamepad])
  {
    NoMockAfterPlug(path);
    assert Gamepad !in PathLabel(path);
    NotContainsMissingChar(PathLabel(path), [Gamepad], 0);
  }

  /** Removing the marker symbols from a POSIX label leaves its path. */
  lemma PathLabelMarkersRemoved(path: string)
    requires Plug !in path && Wrench !in path
    ensures Replace(Replace(PathLabel(path), PlugPrefix, ""), WrenchPrefix, "") == path
  {
    ReplaceLeading(PlugPrefix, path, "");
    ReplaceAbsent(path, PlugPrefix);
    assert "" + path == path;
    ReplaceAbsent(path, WrenchPrefix);
  }

  /** A POSIX label gives back its path, stripped. */
  lemma PathLabelSelectsPath(path: string)
    requires PlainName(path) && !Contains(path, VirtualTag)
    ensures GetSelectedPort(PathLabel(path)) == Some(Strip(path))
  {
    PathLabelNotMock(path);
    PathLabelMarkersRemoved(path);
  }

  lemma VirtualLabelNotMock()
    ensures !Contains(VirtualLabel, MockMode) && !Contains(VirtualLabel, [Gamepad])
  {
    assert 'M' !in VirtualLabel && Gamepad !in VirtualLabel;
    NotContainsMissingChar(VirtualLabel, MockMode, 0);
    NotContainsMissingChar(VirtualLabel, [Gamepad], 0);
  }

  lemma VirtualLabelMarkersRemoved()
    ensures Replace(Replace(VirtualLabel, PlugPrefix, ""), WrenchPrefix, "") == VirtualPath + " " + VirtualTag
  {
    var rest := VirtualPath + " " + VirtualTag;
    assert Plug !in VirtualLabel && Wrench !in rest;
    ReplaceAbsent(VirtualLabel, PlugPrefix);
    assert VirtualLabel == WrenchPrefix + rest;
    ReplaceLeading(WrenchPrefix, rest, "");
    ReplaceAbsent(rest, WrenchPrefix);
    assert "" + rest == rest;
  }

  /** What is left of the virtual label once its marker is removed holds
      no separator. */
  lemma VirtualRestNoSeparator()
    ensures !Contains(VirtualPath + " " + VirtualTag, Separator)
  {
    assert '-' !in VirtualPath + " " + VirtualTag;
    NotContainsMissingChar(VirtualPath + " " + VirtualTag, Separator, 1);
  }

  lemma VirtualRestHasTag()
    ensures Contains(VirtualPath + " " + VirtualTag, VirtualTag)
  {
    var rest := VirtualPath + " " + VirtualTag;
    assert rest[|VirtualPath| + 1..|VirtualPath| + 1 + |VirtualTag|] == VirtualTag;
    ContainsAt(rest, VirtualTag, |VirtualPath| + 1);
  }

  /** Removing " (Test Virtual Port)" leaves the virtual path. */
  lemma VirtualTagRemoved()
    ensures Replace(VirtualPath + " " + VirtualTag, " " + VirtualTag, "") == VirtualPath
  {
    assert ' ' !in VirtualPath;
    assert VirtualPath + " " + VirtualTag == VirtualPath + (" " + VirtualTag);
    ReplaceKeepsPrefix(VirtualPath, " " + VirtualTag, " " + VirtualTag, "");
    ReplaceLeading(" " + VirtualTag, "", "");
    assert " " + VirtualTag + "" == " " + VirtualTag;
    assert VirtualPath + "" == VirtualPath;
  }

  /** The virtual test port's label gives back its path. */
  lemma VirtualLabelSelectsVirtualPath()
    ensures GetSelectedPort(VirtualLabel) == Some(VirtualPath)
  {
    VirtualLabelNotMock();
    VirtualLabelMarkersRemoved();
    VirtualRestNoSeparator();
    VirtualRestHasTag();
    VirtualTagRemoved();
    StripUnchanged(VirtualPath);
  }

  lemma WindowsLabelNotMock(device: string, description: string)
    requires PlainName(device) && Gamepad !in description && !Contains(description, MockMode)
    ensures !Contains(WindowsLabel(device, description), MockMode)
    ensures !Contains(WindowsLabel(device, description), [Gamepad])
  {
    var body := device + Separator + description;
    assert WindowsLabel(device, description) == PathLabel(body);
    assert body == (device + " ") + ['-'] + (" " + description);
    ContainsAround(device + " ", '-', " " + description, MockMode);
    ContainsDropLast(device, ' ', MockMode);
    ContainsDropFirst(' ', description, MockMode);
    NoMockAfterPlug(body);
    assert Gamepad !in WindowsLabel(device, description);
    NotContainsMissingChar(WindowsLabel(device, description), [Gamepad], 0);
  }

  /** Removing the marker symbols keeps the device and the separator. */
  lemma WindowsLabelMarkersRemoved(device: string, description: string) returns (rest: string)
    requires Plug !in device && Wrench !in device
    ensures Replace(Replace(WindowsLabel(device, description), PlugPrefix, ""), WrenchPrefix, "")
            == device + Separator + rest
  {
    var body := device + Separator + description;
    assert WindowsLabel(device, description) == PlugPrefix + body;
    ReplaceLeading(PlugPrefix, body, "");
    ReplaceKeepsPrefix(device + Separator, description, PlugPrefix, "");
    var d1 := Replace(description, PlugPrefix, "");
    assert "" + (device + Separator + d1) == device + Separator + d1;
    ReplaceKeepsPrefix(device + Separator, d1, WrenchPrefix, "");
    rest := Replace(d1, WrenchPrefix, "");
  }

  /** No separator starts inside a device name that neither holds one
      nor ends in the first half of one. */
  lemma NoSeparatorInDevice(device: string, rest: string, j: nat)
    requires !Contains(device, Separator) && !EndsWith(device, " -") && j < |device|
    ensures !OccursAt(device + Separator + rest, Separator, j)
  {
    if j + 3 <= |device| {
      NoSeparatorWithinDevice(device, rest, j);
    } else if j == |device| - 1 {
      NoSeparatorAtLastChar(device, rest);
    } else {
      NoSeparatorAtSecondLastChar(device, rest);
    }
  }

  /** A separator that would lie wholly inside the device name is not there. */
  lemma NoSeparatorWithinDevice(device: string, rest: string, j: nat)
    requires !Contains(device, Separator) && j + 3 <= |device|
    ensures !OccursAt(device + Separator + rest, Separator, j)
  {
    NoOccurrence(device, Separator, j);
    var t := device + Separator + rest;
    assert t[j..j + 3] == device[j..j + 3];
  }

  /** The separator's own space cannot be its second character. */
  lemma NoSeparatorAtLastChar(device: string, rest: string)
    requires |device| >= 1
    ensures !OccursAt(device + Separator + rest, Separator, |device| - 1)
  {
    var t := device + Separator + rest;
    var j := |device| - 1;
    assert t[j + 1] == ' ';
    assert t[j..j + 3][1] == t[j + 1];
  }

  /** A device name that does not end in " -" cannot start a separator
      two characters before its end. */
  lemma NoSeparatorAtSecondLastChar(device: string, rest: string)
    requires |device| >= 2 && !EndsWith(device, " -")
    ensures !OccursAt(device + Separator + rest, Separator, |device| - 2)
  {
    var t := device + Separator + rest;
    var j := |device| - 2;
    assert device[|device| - 2..] == [device[j], device[j + 1]];
    assert t[j] == device[j] && t[j + 1] == device[j + 1];
    assert t[j..j + 3][0] == t[j] && t[j..j + 3][1] == t[j + 1];
  }

  /** The first separator is the one right after a device name that
      neither holds a separator nor ends in half of one. */
  lemma FirstSeparatorAfterDevice(device: string, rest: string)
    requires !Contains(device, Separator) && !EndsWith(device, " -")
    ensures Contains(device + Separator + rest, Separator)
    ensures BeforeFirst(device + Separator + rest, Separator) == device
  {
    var t := device + Separator + rest;
    assert t[|device|..|device| + 3] == Separator;
    ContainsAt(t, Separator, |device|);
    assert OccursAt(t, Separator, |device|);
    forall j | 0 <= j < |device| ensures !OccursAt(t, Separator, j) {
      NoSeparatorInDevice(device, rest, j);
    }
    var k := IndexOf(t, Separator).value;
    assert k == |device|;
  }

  /** A Windows label gives back its device name, stripped, as long as the
      device name cannot be mistaken for the separator. */
  lemma WindowsLabelSelectsDevice(device: string, description: string)
    requires PlainName(device) && !EndsWith(device, " -")
    requires Gamepad !in description && !Contains(description, MockMode)
    ensures GetSelectedPort(WindowsLabel(device, description)) == Some(Strip(device))
  {
    WindowsLabelNotMock(device, description);
    var rest := WindowsLabelMarkersRemoved(device, description);
    FirstSeparatorAfterDevice(device, rest);
  }

  // ------------------------------------------------------------------
  // The port selector
  // ------------------------------------------------------------------

  /** What port discovery found on each system. */
  datatype PortScan =
    | WindowsPorts(ports: seq<(string, string)>)     // (device, description)
    | MacPorts(paths: seq<string>, virtualPort: bool) // the globbed paths, and whether /tmp/pico_virtual exists
    | LinuxPorts(paths: seq<string>)

  /** The set of `paths` as a list without repetitions (`set(paths)`). */
  function Distinct(paths: seq<string>): (r: seq<string>)
    ensures forall x :: x in r <==> x in paths
    ensures forall i, j :: 0 <= i < j < |r| ==> r[i] != r[j]
  {
    if |paths| == 0 then []
    else if paths[0] in paths[1..] then Distinct(paths[1..])
    else [paths[0]] + Distinct(paths[1..])
  }

  lemma StrOrder()
    ensures TotalPreorder(StrLe)
  {
    forall a: string, b: string ensures StrLe(a, b) || StrLe(b, a) {
      StrLeTotal(a, b);
    }
    forall a: string, b: string, c: string | StrLe(a, b) && StrLe(b, c)
      ensures StrLe(a, c)
    {
      StrLeTransitive(a, b, c);
    }
  }

  /** `sorted(set(paths))` */
  function SortedDistinct(paths: seq<string>): (r: seq<string>)
    ensures forall x :: x in r <==> x in paths
    ensures SortedBy(r, StrLe)
    ensures forall i, j :: 0 <= i < j < |r| ==> r[i] != r[j]
  {
    StrOrder();
    var d := Distinct(paths);
    var r := SortBy(d, StrLe);
    assert forall x :: x in r <==> x in multiset(r);
    assert forall x :: x in d <==> x in multiset(d);
    DistinctSorted(d, r);
    r
  }

  /** A permutation of a list without repetitions has none either. */
  lemma DistinctSorted(d: seq<string>, r: seq<string>)
    requires multiset(d) == multiset(r)
    requires forall i, j :: 0 <= i < j < |d| ==> d[i] != d[j]
    ensures forall i, j :: 0 <= i < j < |r| ==> r[i] != r[j]
  {
    forall x | x in multiset(d) ensures multiset(d)[x] == 1 {
      DistinctCount(d, x);
    }
    forall i, j | 0 <= i < j < |r| ensures r[i] != r[j] {
      TwoOccurrences(r, i, j);
      assert r[i] in multiset(d);
    }
  }

  lemma {:induction false} DistinctCount(d: seq<string>, x: string)
    requires forall i, j :: 0 <= i < j < |d| ==> d[i] != d[j]
    requires x in d
    ensures multiset(d)[x] == 1
  {
    assert d == [d[0]] + d[1..];
    if d[0] == x {
      assert x !in d[1..];
    } else {
      DistinctCount(d[1..], x);
    }
  }

  lemma TwoOccurrences(r: seq<string>, i: nat, j: nat)
    requires i < j < |r|
    ensures r[i] == r[j] ==> multiset(r)[r[i]] >= 2
  {
    assert r == r[..i] + [r[i]] + r[i + 1..j] + [r[j]] + r[j + 1..];
  }

  /** The selector entries `refresh_ports` adds, in order, ending with the
      mock-mode entry. */
  function PortLabels(scan: PortScan): (labels: seq<string>)
    ensures |labels| >= 1 && labels[|labels| - 1] == MockLabel
  {
    var devices := match scan
      case WindowsPorts(ports) =>
        seq(|ports|, k requires 0 <= k < |ports| => WindowsLabel(ports[k].0, ports[k].1))
      case MacPorts(paths, virtualPort) =>
        var sorted := SortedDistinct(paths);
        seq(|sorted|, k requires 0 <= k < |sorted| => PathLabel(sorted[k])) + (if virtualPort then [VirtualLabel] else [])
      case LinuxPorts(paths) =>
        seq(|paths|, k requires 0 <= k < |paths| => PathLabel(paths[k]));
    devices + [MockLabel]
  }

  /** `real_count = self.port_combo.count() - 1`: the entries other than
      the mock entry, which is always the last one. */
  function RealPortCount(labels: seq<string>): (c: int)
    ensures c + 1 == |labels|
  {
    |labels| - 1
  }

  /** Leaving out the mock entry counts exactly the devices found. */
  lemma RealPortCountIsDevices(scan: PortScan)
    ensures RealPortCount(PortLabels(scan)) == match scan
      case WindowsPorts(ports) => |ports|
      case MacPorts(paths, virtualPort) => |SortedDistinct(paths)| + (if virtualPort then 1 else 0)
      case LinuxPorts(paths) => |paths|
  {
  }

  /** Every Linux entry selects its device and the last selects mock mode. */
  lemma LinuxLabelsSelect(paths: seq<string>, k: nat)
    requires k < |paths| + 1
    requires forall p :: p in paths ==> PlainName(p) && !Contains(p, VirtualTag)
    ensures var labels := PortLabels(LinuxPorts(paths));
      GetSelectedPort(labels[k]) == if k < |paths| then Some(Strip(paths[k])) else None
  {
    if k < |paths| {
      PathLabelSelectsPath(paths[k]);
    } else {
      MockLabelSelectsNone();
    }
  }

  // ------------------------------------------------------------------
  // The rolling sample buffer
  // ------------------------------------------------------------------

  /** `self.max_points` */
  const MaxPoints: nat := 400

  /** The samples the chart shows after receiving `history`: the most
      recent `MaxPoints` of them. */
  function Recent(history: seq<real>): (r: seq<real>)
    ensures |r| == if |history| <= MaxPoints then |history| else MaxPoints
    ensures r == history[|history| - |r|..]
  {
    if |history| <= MaxPoints then history else history[|history| - MaxPoints..]
  }

  /** Appending a sample and dropping the oldest one when over the limit
      keeps exactly the most recent samples. */
  lemma RecentStep(history: seq<real>, x: real)
    ensures Recent(history + [x]) ==
      var grown := Recent(history) + [x];
      if |grown| > MaxPoints then grown[1..] else grown
  {
    var h := history + [x];
    if |history| >= MaxPoints {
      assert h[|h| - MaxPoints..] == history[|history| - MaxPoints..][1..] + [x];
    }
  }

  class UsbDataInterface {
    var currentData: seq<real>
    var voltageData: seq<real>
    /** The currents received since the last clear. */
    ghost var received: seq<real>

    ghost predicate Valid()
      reads this
    {
      currentData == Recent(received)
    }

    constructor ()
      ensures Valid() && currentData == [] && voltageData == [] && received == []
    {
      currentData := [];
      voltageData := [];
      received := [];
    }

    /** `on_data_received(data)`: append the current, drop the oldest
        point when over `MaxPoints`, and return the plot abscissae
        `i / 100` (100 samples per second). */
    method OnDataReceived(current: real) returns (xs: seq<real>)
      requires Valid()
      modifies this
      ensures Valid() && received == old(received) + [current]
      ensures voltageData == old(voltageData)
      ensures |currentData| <= MaxPoints && currentData[|currentData| - 1] == current
      ensures |xs| == |currentData| && forall i :: 0 <= i < |xs| ==> xs[i] == (i as real) / 100.0
    {
      RecentStep(received, current);
      currentData := currentData + [current];
      if |currentData| > MaxPoints {
        currentData := currentData[1..];
      }
      received := received + [current];
      var n := |currentData|;
      xs := seq(n, i requires 0 <= i < n => (i as real) / 100.0);
    }

    /** `clear_data()` */
    method ClearData()
      modifies this
      ensures Valid() && currentData == [] && voltageData == [] && received == []
    {
      currentData := [];
      voltageData := [];
      received := [];
    }
  }
}
