/** Matching hwinfo's monitors to xrandr's screens by EDID serial, with the laptop panel
    and the unmatched screens as special cases. */
module Monitors {
  import opened Options

  datatype XrScreen = XrScreen(name: string, width: nat, height: nat)

  /** Absent fields are keys hwinfo did not report. */
  datatype HwMonitor = HwMonitor(model: Option<string>, serial: Option<string>, vendor: Option<string>)

  datatype Entry = Entry(model: string, screen: string, width: nat, height: nat, serial: string, vendor: Option<string>)

  /** Serials read from EDID, by output name. */
  type Edids = map<string, string>

  predicate DistinctNames(screens: seq<XrScreen>) {
    forall i, j :: 0 <= i < j < |screens| ==> screens[i].name != screens[j].name
  }

  predicate IsPanel(name: string) {
    "eDP" <= name
  }

  function SerialOf(hw: HwMonitor): string {
    if hw.serial.Some? then hw.serial.value else ""
  }

  // ----------------------------------------------------------- which screen

  /** Screens by non-empty EDID serial; a later screen with the same serial wins. */
  function BySerial(screens: seq<XrScreen>, edids: Edids): map<string, XrScreen> {
    if screens == [] then map[]
    else
      var last := |screens| - 1;
      var s := screens[last];
      var before := BySerial(screens[..last], edids);
      if s.name in edids && edids[s.name] != "" then before[edids[s.name] := s] else before
  }

  function FirstPanel(screens: seq<XrScreen>): Option<XrScreen> {
    if screens == [] then None
    else if IsPanel(screens[0].name) then Some(screens[0])
    else FirstPanel(screens[1..])
  }

  /** The screen one hwinfo monitor is matched to. */
  function Target(hw: HwMonitor, screens: seq<XrScreen>, edids: Edids): Option<XrScreen> {
    var serial := SerialOf(hw);
    if serial != "" && serial != "0" && serial in BySerial(screens, edids) then Some(BySerial(screens, edids)[serial])
    else if serial == "0" then FirstPanel(screens)
    else None
  }

  function HwEntry(hw: HwMonitor, s: XrScreen): Entry
    requires hw.model.Some?
  {
    var serial := SerialOf(hw);
    Entry(hw.model.value, s.name, s.width, s.height, serial, if serial == "0" then None else hw.vendor)
  }

  function LeftEntry(s: XrScreen, edids: Edids): Entry {
    Entry("Unknown", s.name, s.width, s.height, if s.name in edids then edids[s.name] else "unknown", None)
  }

  /** Every matched monitor reports a model; a missing one aborts the whole matching. */
  predicate ModelsKnown(hws: seq<HwMonitor>, screens: seq<XrScreen>, edids: Edids) {
    forall i :: 0 <= i < |hws| && Target(hws[i], screens, edids).Some? ==> hws[i].model.Some?
  }

  function HwEntries(hws: seq<HwMonitor>, screens: seq<XrScreen>, edids: Edids): seq<Entry>
    requires ModelsKnown(hws, screens, edids)
  {
    if hws == [] then []
    else
      var last := |hws| - 1;
      var target := Target(hws[last], screens, edids);
      HwEntries(hws[..last], screens, edids)
      + (if target.Some? then [HwEntry(hws[last], target.value)] else [])
  }

  function Names(entries: seq<Entry>): set<string> {
    set e | e in entries :: e.screen
  }

  function LeftEntries(screens: seq<XrScreen>, used: set<string>, edids: Edids): seq<Entry> {
    if screens == [] then []
    else
      var last := |screens| - 1;
      LeftEntries(screens[..last], used, edids)
      + (if screens[last].name in used then [] else [LeftEntry(screens[last], edids)])
  }

  // ---------------------------------------------------------------- the loops

  method IndexBySerial(screens: seq<XrScreen>, edids: Edids) returns (bySerial: map<string, XrScreen>)
    ensures bySerial == BySerial(screens, edids)
  {
    bySerial := map[];
    for i := 0 to |screens|
      invariant bySerial == BySerial(screens[..i], edids)
    {
      var s := screens[i];
      if s.name in edids && edids[s.name] != "" {
        bySerial := bySerial[edids[s.name] := s];
      }
      assert screens[..i + 1][..i] == screens[..i];
    }
    assert screens[..|screens|] == screens;
  }

  method FindPanel(screens: seq<XrScreen>) returns (panel: Option<XrScreen>)
    ensures panel == FirstPanel(screens)
  {
    for i := 0 to |screens|
      invariant FirstPanel(screens) == FirstPanel(screens[i..])
    {
      if IsPanel(screens[i].name) {
        return Some(screens[i]);
      }
      assert screens[i..][1..] == screens[i + 1..];
    }
    return None;
  }

  lemma HwEntriesOfOneMore(hws: seq<HwMonitor>, screens: seq<XrScreen>, edids: Edids, i: nat)
    requires i < |hws| && ModelsKnown(hws[..i], screens, edids)
    ensures var target := Target(hws[i], screens, edids);
      && (ModelsKnown(hws[..i + 1], screens, edids) <==> (target.Some? ==> hws[i].model.Some?))
      && (ModelsKnown(hws[..i + 1], screens, edids) ==>
            HwEntries(hws[..i + 1], screens, edids)
            == HwEntries(hws[..i], screens, edids) + (if target.Some? then [HwEntry(hws[i], target.value)] else []))
  {
    assert hws[..i + 1][..i] == hws[..i];
    assert forall k :: 0 <= k < i ==> hws[..i + 1][k] == hws[..i][k];
    assert hws[..i + 1][i] == hws[i];
  }

  lemma NamesOfOneMore(entries: seq<Entry>, e: Entry)
    ensures Names(entries + [e]) == Names(entries) + {e.screen}
  {
  }

  /** The entries of matched monitors and the screens they use; None when a matched monitor
      has no model. */
  method MatchMonitors(hws: seq<HwMonitor>, screens: seq<XrScreen>, edids: Edids)
    returns (r: Option<seq<Entry>>, used: set<string>)
    ensures r.Some? <==> ModelsKnown(hws, screens, edids)
    ensures r.Some? ==> r.value == HwEntries(hws, screens, edids) && used == Names(r.value)
  {
    var bySerial := IndexBySerial(screens, edids);
    var matched: seq<Entry> := [];
    used := {};
    for i := 0 to |hws|
      invariant ModelsKnown(hws[..i], screens, edids)
      invariant matched == HwEntries(hws[..i], screens, edids)
      invariant used == Names(matched)
    {
      var hw := hws[i];
      var serial := SerialOf(hw);
      var target: Option<XrScreen> := None;
      if serial != "" && serial != "0" && serial in bySerial {
        target := Some(bySerial[serial]);
      } else if serial == "0" {
        target := FindPanel(screens);
      }
      assert target == Target(hw, screens, edids);
      HwEntriesOfOneMore(hws, screens, edids, i);
      if target.Some? {
        if hw.model.None? {
          assert Target(hws[i], screens, edids).Some? && hws[i].model.None?;
          return None, used;
        }
        used := used + {target.value.name};
        NamesOfOneMore(matched, HwEntry(hw, target.value));
        matched := matched + [HwEntry(hw, target.value)];
      }
    }
    assert hws[..|hws|] == hws;
    return Some(matched), used;
  }

  method AddUnmatched(entries: seq<Entry>, screens: seq<XrScreen>, used: set<string>, edids: Edids)
    returns (matched: seq<Entry>)
    ensures matched == entries + LeftEntries(screens, used, edids)
  {
    matched := entries;
    for i := 0 to |screens|
      invariant matched == entries + LeftEntries(screens[..i], used, edids)
    {
      if screens[i].name !in used {
        matched := matched + [LeftEntry(screens[i], edids)];
      }
      assert screens[..i + 1][..i] == screens[..i];
    }
    assert screens[..|screens|] == screens;
  }

  /** What asking a source can come to: it may raise, or end the program. */
  datatype Probe<T> = Probed(value: T) | Raised | Exited

  /** `FallsBack` means that the caller goes on with inxi's monitors. */
  datatype Hybrid = Matched(entries: seq<Entry>) | FallsBack | Exits

  /** The sources are asked one after another, each only after those before it. An error is
      caught and leads to the fallback, a source that ends the program is not: xrandr does when
      it lists no screen. */
  method HybridMonitors(hwinfo: Probe<seq<HwMonitor>>, xrandr: Probe<seq<XrScreen>>, edids: Probe<Edids>)
    returns (r: Hybrid)
    ensures r.Matched? <==>
      && hwinfo.Probed? && hwinfo.value != [] && xrandr.Probed? && edids.Probed?
      && ModelsKnown(hwinfo.value, xrandr.value, edids.value)
    ensures r.Matched? ==> r.entries == Result(hwinfo.value, xrandr.value, edids.value)
    ensures r.Exits? <==>
      || hwinfo.Exited?
      || (hwinfo.Probed? && hwinfo.value != [] && (xrandr.Exited? || (xrandr.Probed? && edids.Exited?)))
  {
    if hwinfo.Exited? {
      return Exits;
    }
    if hwinfo.Raised? || hwinfo.value == [] {
      return FallsBack;
    }
    if !xrandr.Probed? {
      return if xrandr.Exited? then Exits else FallsBack;
    }
    if !edids.Probed? {
      return if edids.Exited? then Exits else FallsBack;
    }
    var entries, used := MatchMonitors(hwinfo.value, xrandr.value, edids.value);
    if entries.None? {
      return FallsBack;
    }
    var matched := AddUnmatched(entries.value, xrandr.value, used, edids.value);
    return Matched(matched);
  }

  // ----------------------------------------------------------------- coverage

  function Result(hws: seq<HwMonitor>, screens: seq<XrScreen>, edids: Edids): seq<Entry>
    requires ModelsKnown(hws, screens, edids)
  {
    HwEntries(hws, screens, edids) + LeftEntries(screens, Names(HwEntries(hws, screens, edids)), edids)
  }

  /** How many entries name a screen. */
  function Count(entries: seq<Entry>, name: string): nat {
    if entries == [] then 0
    else Count(entries[..|entries| - 1], name) + (if entries[|entries| - 1].screen == name then 1 else 0)
  }

  /** How many hwinfo monitors are matched to a screen. */
  function Matches(hws: seq<HwMonitor>, screens: seq<XrScreen>, edids: Edids, name: string): nat {
    if hws == [] then 0
    else
      var target := Target(hws[|hws| - 1], screens, edids);
      Matches(hws[..|hws| - 1], screens, edids, name)
      + (if target.Some? && target.value.name == name then 1 else 0)
  }

  lemma {:induction false} CountConcat(a: seq<Entry>, b: seq<Entry>, name: string)
    ensures Count(a + b, name) == Count(a, name) + Count(b, name)
    decreases |b|
  {
    if b == [] {
      assert a + b == a;
    } else {
      assert (a + b)[..|a + b| - 1] == a + b[..|b| - 1];
      CountConcat(a, b[..|b| - 1], name);
    }
  }

  lemma {:induction false} CountPositive(entries: seq<Entry>, name: string)
    ensures Count(entries, name) > 0 <==> name in Names(entries)
  {
    if entries != [] {
      var front, last := entries[..|entries| - 1], entries[|entries| - 1];
      CountPositive(front, name);
      assert forall e :: e in entries <==> e in front || e == last;
    }
  }

  lemma {:induction false} HwCount(hws: seq<HwMonitor>, screens: seq<XrScreen>, edids: Edids, name: string)
    requires ModelsKnown(hws, screens, edids)
    ensures Count(HwEntries(hws, screens, edids), name) == Matches(hws, screens, edids, name)
  {
    if hws != [] {
      var last := |hws| - 1;
      HwCount(hws[..last], screens, edids, name);
      var target := Target(hws[last], screens, edids);
      var more := if target.Some? then [HwEntry(hws[last], target.value)] else [];
      CountConcat(HwEntries(hws[..last], screens, edids), more, name);
      assert target.Some? ==> more[..|more| - 1] == [];
    }
  }

  lemma {:induction false} LeftCount(screens: seq<XrScreen>, used: set<string>, edids: Edids, name: string)
    requires DistinctNames(screens)
    ensures Count(LeftEntries(screens, used, edids), name)
         == if name !in used && (exists i :: 0 <= i < |screens| && screens[i].name == name) then 1 else 0
  {
    if screens != [] {
      var last := |screens| - 1;
      var front := screens[..last];
      LeftCount(front, used, edids, name);
      assert forall i :: 0 <= i < last ==> front[i] == screens[i];
      var more := if screens[last].name in used then [] else [LeftEntry(screens[last], edids)];
      CountConcat(LeftEntries(front, used, edids), more, name);
      assert more != [] ==> more[..|more| - 1] == [];
      if screens[last].name == name {
        assert forall i :: 0 <= i < last ==> front[i].name != name;
      } else {
        assert (exists i :: 0 <= i < |screens| && screens[i].name == name)
          <==> (exists i :: 0 <= i < |front| && front[i].name == name);
      }
    }
  }

  /** Every screen appears: once for each monitor matched to it, or once as unknown. */
  lemma EveryScreenAppears(hws: seq<HwMonitor>, screens: seq<XrScreen>, edids: Edids, k: nat)
    requires ModelsKnown(hws, screens, edids) && DistinctNames(screens) && k < |screens|
    ensures var matches := Matches(hws, screens, edids, screens[k].name);
      Count(Result(hws, screens, edids), screens[k].name) == if matches > 0 then matches else 1
  {
    var name := screens[k].name;
    var entries := HwEntries(hws, screens, edids);
    CountConcat(entries, LeftEntries(screens, Names(entries), edids), name);
    HwCount(hws, screens, edids, name);
    CountPositive(entries, name);
    LeftCount(screens, Names(entries), edids, name);
  }

  predicate Describes(e: Entry, s: XrScreen) {
    e.screen == s.name && e.width == s.width && e.height == s.height
  }

  lemma {:induction false} BySerialIsReal(screens: seq<XrScreen>, edids: Edids, serial: string)
    requires serial in BySerial(screens, edids)
    ensures var s := BySerial(screens, edids)[serial];
      s in screens && s.name in edids && edids[s.name] == serial != ""
  {
    var last := |screens| - 1;
    var s := screens[last];
    if !(s.name in edids && edids[s.name] != "" && edids[s.name] == serial) {
      BySerialIsReal(screens[..last], edids, serial);
    }
  }

  lemma {:induction false} FirstPanelIsReal(screens: seq<XrScreen>)
    ensures var p := FirstPanel(screens); p.Some? ==> p.value in screens && IsPanel(p.value.name)
  {
    if screens != [] && !IsPanel(screens[0].name) {
      FirstPanelIsReal(screens[1..]);
    }
  }

  lemma TargetIsReal(hw: HwMonitor, screens: seq<XrScreen>, edids: Edids)
    ensures Target(hw, screens, edids).Some? ==> Target(hw, screens, edids).value in screens
  {
    FirstPanelIsReal(screens);
    if SerialOf(hw) in BySerial(screens, edids) {
      BySerialIsReal(screens, edids, SerialOf(hw));
    }
  }

  /** Every entry describes a real screen, with its own size. */
  lemma EveryEntryIsReal(hws: seq<HwMonitor>, screens: seq<XrScreen>, edids: Edids)
    requires ModelsKnown(hws, screens, edids)
    ensures forall e :: e in Result(hws, screens, edids) ==> exists s :: s in screens && Describes(e, s)
  {
    HwEntriesAreReal(hws, screens, edids);
    LeftEntriesAreReal(screens, Names(HwEntries(hws, screens, edids)), edids);
  }

  lemma {:induction false} HwEntriesAreReal(hws: seq<HwMonitor>, screens: seq<XrScreen>, edids: Edids)
    requires ModelsKnown(hws, screens, edids)
    ensures forall e :: e in HwEntries(hws, screens, edids) ==> exists s :: s in screens && Describes(e, s)
  {
    if hws != [] {
      var last := |hws| - 1;
      HwEntriesAreReal(hws[..last], screens, edids);
      TargetIsReal(hws[last], screens, edids);
      var target := Target(hws[last], screens, edids);
      if target.Some? {
        assert Describes(HwEntry(hws[last], target.value), target.value);
      }
    }
  }

  lemma {:induction false} LeftEntriesAreReal(screens: seq<XrScreen>, used: set<string>, edids: Edids)
    ensures forall e :: e in LeftEntries(screens, used, edids) ==> exists s :: s in screens && Describes(e, s)
  {
    if screens != [] {
      var last := |screens| - 1;
      LeftEntriesAreReal(screens[..last], used, edids);
      assert forall s :: s in screens[..last] ==> s in screens;
      assert Describes(LeftEntry(screens[last], edids), screens[last]);
    }
  }

  /** The entry reports this monitor on this screen. Laptop panels carry no vendor. */
  predicate Reports(e: Entry, hw: HwMonitor, s: XrScreen) {
    && hw.model == Some(e.model) && SerialOf(hw) == e.serial && Describes(e, s)
    && e.vendor == (if e.serial == "0" then None else hw.vendor)
  }

  /** Every matched monitor is reported, with its own model and serial, on its screen. */
  lemma {:induction false} MatchedMonitorIsReported(hws: seq<HwMonitor>, screens: seq<XrScreen>, edids: Edids, i: nat)
    requires ModelsKnown(hws, screens, edids) && i < |hws| && Target(hws[i], screens, edids).Some?
    ensures exists e :: e in HwEntries(hws, screens, edids) && Reports(e, hws[i], Target(hws[i], screens, edids).value)
  {
    var last := |hws| - 1;
    if i < last {
      var front := hws[..last];
      MatchedMonitorIsReported(front, screens, edids, i);
      var e :| e in HwEntries(front, screens, edids) && Reports(e, hws[i], Target(hws[i], screens, edids).value);
      assert e in HwEntries(hws, screens, edids);
    } else {
      var e := HwEntry(hws[i], Target(hws[i], screens, edids).value);
      assert e in HwEntries(hws, screens, edids) && Reports(e, hws[i], Target(hws[i], screens, edids).value);
    }
  }

  /** Matched monitors come in hwinfo's order: the entry of monitor `i` stands right after
      those of the monitors before it, and in front of all unknown screens. */
  lemma {:induction false} EntryOfMonitor(hws: seq<HwMonitor>, screens: seq<XrScreen>, edids: Edids, i: nat)
    requires ModelsKnown(hws, screens, edids) && i < |hws|
    ensures ModelsKnown(hws[..i], screens, edids)
    ensures var (n, target, all) := (|HwEntries(hws[..i], screens, edids)|, Target(hws[i], screens, edids), HwEntries(hws, screens, edids));
      && n <= |all| && all[..n] == HwEntries(hws[..i], screens, edids)
      && (target.Some? ==> n < |all| && Reports(all[n], hws[i], target.value))
    decreases |hws|
  {
    var last := |hws| - 1;
    var front := hws[..last];
    assert forall k :: 0 <= k < i ==> hws[..i][k] == hws[k];
    if i < last {
      assert front[..i] == hws[..i];
      EntryOfMonitor(front, screens, edids, i);
    }
  }

  // -------------------------------------------------------- which screen, exactly

  /** The screen's EDID gave this serial. */
  predicate Carries(s: XrScreen, serial: string, edids: Edids) {
    s.name in edids && edids[s.name] == serial
  }

  /** `k` is the last screen that carries the serial. */
  predicate IsLastCarrier(screens: seq<XrScreen>, serial: string, edids: Edids, k: int) {
    0 <= k < |screens| && Carries(screens[k], serial, edids)
    && forall j :: k < j < |screens| ==> !Carries(screens[j], serial, edids)
  }

  /** The index by serial holds exactly the serials that some screen carries. */
  lemma {:induction false} BySerialIff(screens: seq<XrScreen>, edids: Edids, serial: string)
    requires serial != ""
    ensures serial in BySerial(screens, edids) <==> exists k :: 0 <= k < |screens| && Carries(screens[k], serial, edids)
  {
    if screens != [] {
      var last := |screens| - 1;
      var front := screens[..last];
      BySerialIff(front, edids, serial);
      assert forall j :: 0 <= j < last ==> front[j] == screens[j];
      if Carries(screens[last], serial, edids) {
        assert serial in BySerial(screens, edids);
      } else {
        assert serial in BySerial(screens, edids) <==> serial in BySerial(front, edids);
      }
    }
  }

  /** For each of them it holds the last such screen; none is forgotten for a later screen
      with another serial. */
  lemma {:induction false} BySerialIsLast(screens: seq<XrScreen>, edids: Edids, serial: string, k: nat)
    requires serial != "" && IsLastCarrier(screens, serial, edids, k)
    ensures serial in BySerial(screens, edids) && BySerial(screens, edids)[serial] == screens[k]
    decreases |screens|
  {
    var last := |screens| - 1;
    if k < last {
      var front := screens[..last];
      assert forall j :: 0 <= j < last ==> front[j] == screens[j];
      assert !Carries(screens[last], serial, edids);
      BySerialIsLast(front, edids, serial, k);
    }
  }

  /** `k` is the first laptop panel. */
  predicate IsFirstPanel(screens: seq<XrScreen>, k: int) {
    0 <= k < |screens| && "eDP" <= screens[k].name && forall j :: 0 <= j < k ==> !("eDP" <= screens[j].name)
  }

  lemma {:induction false} FirstPanelIff(screens: seq<XrScreen>)
    ensures FirstPanel(screens).Some? <==> exists k :: 0 <= k < |screens| && "eDP" <= screens[k].name
    ensures forall k :: IsFirstPanel(screens, k) ==> FirstPanel(screens) == Some(screens[k])
  {
    if screens != [] {
      var rest := screens[1..];
      FirstPanelIff(rest);
      assert forall j :: 0 <= j < |rest| ==> rest[j] == screens[j + 1];
      if !IsPanel(screens[0].name) {
        forall k | IsFirstPanel(screens, k)
          ensures FirstPanel(screens) == Some(screens[k])
        {
          assert IsFirstPanel(rest, k - 1);
        }
        if k :| 0 <= k < |rest| && "eDP" <= rest[k].name {
          assert "eDP" <= screens[k + 1].name;
        }
      }
    }
  }

  /** A monitor with a serial is reported on the last screen that carries it, one with serial
      0 on the first laptop panel, and both are there whenever such a screen is. */
  lemma MatchedByItsSerial(hws: seq<HwMonitor>, screens: seq<XrScreen>, edids: Edids, i: nat, k: nat)
    requires ModelsKnown(hws, screens, edids) && i < |hws| && k < |screens|
    requires var serial := SerialOf(hws[i]);
      if serial == "0" then IsFirstPanel(screens, k)
      else serial != "" && IsLastCarrier(screens, serial, edids, k)
    ensures exists e :: e in Result(hws, screens, edids) && Reports(e, hws[i], screens[k])
  {
    var serial := SerialOf(hws[i]);
    if serial == "0" {
      FirstPanelIff(screens);
    } else {
      BySerialIsLast(screens, edids, serial, k);
    }
    MatchedMonitorIsReported(hws, screens, edids, i);
    var e :| e in HwEntries(hws, screens, edids) && Reports(e, hws[i], screens[k]);
    assert e in Result(hws, screens, edids);
  }

  /** A monitor is matched to no screen exactly when it has no serial, no screen carries its
      serial, or its serial is 0 and there is no laptop panel. */
  lemma UnmatchedIff(hw: HwMonitor, screens: seq<XrScreen>, edids: Edids)
    ensures var serial := SerialOf(hw);
      Target(hw, screens, edids).None?
      <==> (|| serial == ""
            || (serial == "0" && forall k :: 0 <= k < |screens| ==> !("eDP" <= screens[k].name))
            || (serial != "0" && forall k :: 0 <= k < |screens| ==> !Carries(screens[k], serial, edids)))
  {
    var serial := SerialOf(hw);
    FirstPanelIff(screens);
    if serial != "" {
      BySerialIff(screens, edids, serial);
    }
  }

  /** A screen without a monitor is listed as unknown, with its own serial if it has one. */
  lemma {:induction false} UnmatchedScreenIsUnknown(hws: seq<HwMonitor>, screens: seq<XrScreen>, edids: Edids, k: nat)
    requires ModelsKnown(hws, screens, edids) && k < |screens|
    requires Matches(hws, screens, edids, screens[k].name) == 0
    ensures exists e :: e in Result(hws, screens, edids) && IsUnknown(e, screens[k], edids)
  {
    var entries := HwEntries(hws, screens, edids);
    HwCount(hws, screens, edids, screens[k].name);
    CountPositive(entries, screens[k].name);
    LeftEntryListed(screens, Names(entries), edids, k);
    assert IsUnknown(LeftEntry(screens[k], edids), screens[k], edids);
  }

  predicate IsUnknown(e: Entry, s: XrScreen, edids: Edids) {
    && Describes(e, s) && e.model == "Unknown" && e.vendor.None?
    && (Carries(s, e.serial, edids) || (s.name !in edids && e.serial == "unknown"))
  }

  /** Unknown screens come in xrandr's order. */
  lemma {:induction false} LeftEntriesConcat(a: seq<XrScreen>, b: seq<XrScreen>, used: set<string>, edids: Edids)
    ensures LeftEntries(a + b, used, edids) == LeftEntries(a, used, edids) + LeftEntries(b, used, edids)
    decreases |b|
  {
    if b == [] {
      assert a + b == a;
    } else {
      assert (a + b)[..|a + b| - 1] == a + b[..|b| - 1];
      LeftEntriesConcat(a, b[..|b| - 1], used, edids);
    }
  }

  lemma {:induction false} LeftEntryListed(screens: seq<XrScreen>, used: set<string>, edids: Edids, k: nat)
    requires k < |screens| && screens[k].name !in used
    ensures LeftEntry(screens[k], edids) in LeftEntries(screens, used, edids)
  {
    var last := |screens| - 1;
    if k < last {
      LeftEntryListed(screens[..last], used, edids, k);
    }
  }

  // --------------------------------------------------------------- uniqueness

  /** No two monitors are matched to the same screen. */
  predicate TargetsDiffer(hws: seq<HwMonitor>, screens: seq<XrScreen>, edids: Edids) {
    forall i, j :: 0 <= i < j < |hws| && Target(hws[i], screens, edids).Some? && Target(hws[j], screens, edids).Some?
      ==> Target(hws[i], screens, edids).value.name != Target(hws[j], screens, edids).value.name
  }

  predicate IsTarget(hw: HwMonitor, screens: seq<XrScreen>, edids: Edids, name: string) {
    Target(hw, screens, edids).Some? && Target(hw, screens, edids).value.name == name
  }

  lemma {:induction false} MatchesCounts(hws: seq<HwMonitor>, screens: seq<XrScreen>, edids: Edids, name: string)
    ensures Matches(hws, screens, edids, name) > 0
       <==> exists i :: 0 <= i < |hws| && IsTarget(hws[i], screens, edids, name)
    ensures Matches(hws, screens, edids, name) > 1
       <==> exists i, j :: 0 <= i < j < |hws| && IsTarget(hws[i], screens, edids, name) && IsTarget(hws[j], screens, edids, name)
  {
    if hws != [] {
      var last := |hws| - 1;
      var front := hws[..last];
      MatchesCounts(front, screens, edids, name);
      assert forall i :: 0 <= i < last ==> front[i] == hws[i];
    }
  }

  /** Every screen appears exactly once if and only if no two monitors share a screen. */
  lemma ExactlyOnceIff(hws: seq<HwMonitor>, screens: seq<XrScreen>, edids: Edids)
    requires ModelsKnown(hws, screens, edids) && DistinctNames(screens)
    ensures (forall k :: 0 <= k < |screens| ==> Count(Result(hws, screens, edids), screens[k].name) == 1)
       <==> TargetsDiffer(hws, screens, edids)
  {
    forall k | 0 <= k < |screens|
      ensures Count(Result(hws, screens, edids), screens[k].name) == 1
         <==> Matches(hws, screens, edids, screens[k].name) <= 1
    {
      EveryScreenAppears(hws, screens, edids, k);
    }
    if TargetsDiffer(hws, screens, edids) {
      forall k | 0 <= k < |screens|
        ensures Matches(hws, screens, edids, screens[k].name) <= 1
      {
        MatchesCounts(hws, screens, edids, screens[k].name);
      }
    } else {
      var i, j :| 0 <= i < j < |hws| && Target(hws[i], screens, edids).Some? && Target(hws[j], screens, edids).Some?
        && Target(hws[i], screens, edids).value.name == Target(hws[j], screens, edids).value.name;
      TargetIsReal(hws[i], screens, edids);
      var s := Target(hws[i], screens, edids).value;
      var k :| 0 <= k < |screens| && screens[k] == s;
      assert IsTarget(hws[i], screens, edids, s.name) && IsTarget(hws[j], screens, edids, s.name);
      MatchesCounts(hws, screens, edids, s.name);
    }
  }

  /** Some screen answers to this serial. */
  predicate IsKnown(serial: string, screens: seq<XrScreen>, edids: Edids) {
    if serial == "0" then FirstPanel(screens).Some? else serial in BySerial(screens, edids)
  }

  /** The panel's own EDID serial, unless a later screen carries the same one. */
  predicate IsPanelSerial(serial: string, screens: seq<XrScreen>, edids: Edids) {
    && serial != "0" && serial in BySerial(screens, edids)
    && FirstPanel(screens) == Some(BySerial(screens, edids)[serial])
  }

  /** Two listed serials for one screen: the same one, or 0 and the panel's. */
  predicate Clash(a: string, b: string, screens: seq<XrScreen>, edids: Edids) {
    || (a == b && IsKnown(a, screens, edids))
    || (a == "0" && IsPanelSerial(b, screens, edids))
    || (b == "0" && IsPanelSerial(a, screens, edids))
  }

  predicate SerialsClash(hws: seq<HwMonitor>, screens: seq<XrScreen>, edids: Edids, i: int, j: int)
    requires 0 <= i < j < |hws|
  {
    Clash(SerialOf(hws[i]), SerialOf(hws[j]), screens, edids)
  }

  lemma NoScreenWithoutSerial(screens: seq<XrScreen>, edids: Edids)
    ensures "" !in BySerial(screens, edids)
  {
    if "" in BySerial(screens, edids) {
      BySerialIsReal(screens, edids, "");
    }
  }

  lemma OneNameOneScreen(screens: seq<XrScreen>, a: XrScreen, b: XrScreen)
    requires DistinctNames(screens) && a in screens && b in screens && a.name == b.name
    ensures a == b
  {
    var i :| 0 <= i < |screens| && screens[i] == a;
    var j :| 0 <= j < |screens| && screens[j] == b;
    assert i == j;
  }

  lemma SharedTargetIff(a: HwMonitor, b: HwMonitor, screens: seq<XrScreen>, edids: Edids)
    requires DistinctNames(screens)
    ensures Clash(SerialOf(a), SerialOf(b), screens, edids)
       <==> && Target(a, screens, edids).Some?
            && IsTarget(b, screens, edids, Target(a, screens, edids).value.name)
  {
    NoScreenWithoutSerial(screens, edids);
    TargetIsReal(a, screens, edids);
    TargetIsReal(b, screens, edids);
    var (s, t) := (Target(a, screens, edids), Target(b, screens, edids));
    if s.Some? && t.Some? {
      if s.value.name == t.value.name {
        OneNameOneScreen(screens, s.value, t.value);
      }
      if SerialOf(a) != "0" {
        BySerialIsReal(screens, edids, SerialOf(a));
      }
      if SerialOf(b) != "0" {
        BySerialIsReal(screens, edids, SerialOf(b));
      }
    }
  }

  lemma ClashIffShared(hws: seq<HwMonitor>, screens: seq<XrScreen>, edids: Edids, i: nat, j: nat)
    requires DistinctNames(screens) && i < j < |hws|
    ensures SerialsClash(hws, screens, edids, i, j)
       <==> && Target(hws[i], screens, edids).Some? && Target(hws[j], screens, edids).Some?
            && Target(hws[i], screens, edids).value.name == Target(hws[j], screens, edids).value.name
  {
    SharedTargetIff(hws[i], hws[j], screens, edids);
  }

  ghost predicate NoClash(hws: seq<HwMonitor>, screens: seq<XrScreen>, edids: Edids) {
    forall i, j :: 0 <= i < j < |hws| ==> !SerialsClash(hws, screens, edids, i, j)
  }

  lemma TargetsDifferIff(hws: seq<HwMonitor>, screens: seq<XrScreen>, edids: Edids)
    requires DistinctNames(screens)
    ensures TargetsDiffer(hws, screens, edids) <==> NoClash(hws, screens, edids)
  {
    if TargetsDiffer(hws, screens, edids) {
      forall i, j | 0 <= i < j < |hws|
        ensures !SerialsClash(hws, screens, edids, i, j)
      {
        ClashIffShared(hws, screens, edids, i, j);
      }
    } else {
      var i, j :| 0 <= i < j < |hws| && Target(hws[i], screens, edids).Some? && Target(hws[j], screens, edids).Some?
        && Target(hws[i], screens, edids).value.name == Target(hws[j], screens, edids).value.name;
      ClashIffShared(hws, screens, edids, i, j);
    }
  }

  /** In terms of the listed serials: every screen appears exactly once if and only if no
      serial that some screen answers to is listed twice, and not both 0 and the panel's own
      serial are listed. */
  lemma SerialsAppearOnceIff(hws: seq<HwMonitor>, screens: seq<XrScreen>, edids: Edids)
    requires ModelsKnown(hws, screens, edids) && DistinctNames(screens)
    ensures (forall k :: 0 <= k < |screens| ==> Count(Result(hws, screens, edids), screens[k].name) == 1)
       <==> NoClash(hws, screens, edids)
  {
    ExactlyOnceIff(hws, screens, edids);
    TargetsDifferIff(hws, screens, edids);
  }
}
