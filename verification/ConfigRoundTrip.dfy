/** Saving and loading undo each other, on exactly the settings a file can carry. */
module ConfigRoundTrip {
  import opened Words
  import opened Text
  import opened ConfigLoader
  import opened ConfigSaver
  import opened ConfigLaws

  // ----- one saved entry

  predicate IsNote(s: string) {
    s != "" && s[0] == ';' && OneLine(s)
  }

  ghost predicate GoodEntry(e: Entry) {
    && (forall i :: 0 <= i < |e.notes| ==> IsNote(e.notes[i]))
    && GoodKey(e.key) && Known(e.key) && OneLine(e.val)
  }

  ghost predicate GoodEntries(entries: seq<Entry>) {
    forall i :: 0 <= i < |entries| ==> GoodEntry(entries[i])
  }

  lemma {:induction false} NoteIsNothing(s: string)
    requires s == "" || IsNote(s)
    ensures Parse(s) == Nothing
  {
    TrimOfTrimmed(s);
  }

  lemma {:induction false} NotesInert(section: string, notes: seq<string>)
    requires forall i :: 0 <= i < |notes| ==> notes[i] == "" || IsNote(notes[i])
    ensures Inert(section, Acts(notes))
  {
    if notes != [] {
      NoteIsNothing(notes[0]);
      assert Acts(notes)[1..] == Acts(notes[1..]);
      NotesInert(section, notes[1..]);
    }
  }

  lemma {:induction false} OneEntry(section: string, notes: seq<Act>, act: Act, tail: seq<Act>)
    requires Ours(section) && act.Set? && Inert(section, notes) && Inert(section, tail)
    ensures Effects(section, notes + [act] + tail) == [act.change]
    ensures SectionAfter(section, notes + [act] + tail) == section
  {
    OneLineEffects(section, act);
    EffectsConcat(section, notes + [act], tail);
    EffectsConcat(section, notes, [act]);
  }

  lemma {:induction false} MapThree<A, B>(f: A -> B, a: seq<A>, x: A, b: seq<A>)
    ensures Map(f, a + [x] + b) == Map(f, a) + [f(x)] + Map(f, b)
  {
    MapConcat(f, a + [x], b);
    MapConcat(f, a, [x]);
    assert [x][1..] == [];
  }

  lemma {:induction false} AssignmentParses(key: string, val: string)
    requires GoodKey(key) && Known(key) && OneLine(val)
    ensures Parse(AssignmentLine(key, val)) == Set(Convert(key, val))
  {
    AssignmentLineParses(key, val);
  }

  lemma {:induction false} EntryEffects(section: string, e: Entry, last: bool)
    requires Ours(section) && GoodEntry(e)
    ensures Effects(section, Acts(EntryLines(e, last))) == [Convert(e.key, e.val)]
    ensures SectionAfter(section, Acts(EntryLines(e, last))) == section
  {
    var line, gap := AssignmentLine(e.key, e.val), EntryLines(e, last)[|e.notes| + 1..];
    assert EntryLines(e, last) == e.notes + [line] + gap;
    MapThree(Parse, e.notes, line, gap);
    AssignmentParses(e.key, e.val);
    NotesInert(section, e.notes);
    NotesInert(section, gap);
    OneEntry(section, Acts(e.notes), Set(Convert(e.key, e.val)), Acts(gap));
  }

  /** What the entries ask for, in order. */
  ghost function Changes(entries: seq<Entry>): seq<Option<Change>>
    requires GoodEntries(entries)
  {
    if entries == [] then []
    else
      assert GoodEntry(entries[0]);
      [Convert(entries[0].key, entries[0].val)] + Changes(entries[1..])
  }

  lemma {:induction false} LayoutEffects(section: string, entries: seq<Entry>)
    requires Ours(section) && GoodEntries(entries)
    ensures Effects(section, Acts(Layout(entries))) == Changes(entries)
  {
    if entries != [] {
      assert GoodEntry(entries[0]);
      var first := EntryLines(entries[0], |entries| == 1);
      EntryEffects(section, entries[0], |entries| == 1);
      MapConcat(Parse, first, Layout(entries[1..]));
      EffectsConcat(section, Acts(first), Acts(Layout(entries[1..])));
      LayoutEffects(section, entries[1..]);
    }
  }

  lemma {:induction false} LayoutNoNewline(entries: seq<Entry>)
    requires GoodEntries(entries)
    ensures NoNewline(Layout(entries))
  {
    if entries != [] {
      var e := entries[0];
      assert GoodEntry(e);
      LayoutNoNewline(entries[1..]);
      assert '\n' !in " = ";
      assert '\n' !in AssignmentLine(e.key, e.val);
      assert NoNewline(e.notes);
      NoNewlineConcat(e.notes, [AssignmentLine(e.key, e.val)]);
      NoNewlineConcat(e.notes + [AssignmentLine(e.key, e.val)], if |entries| == 1 then [] else [""]);
      NoNewlineConcat(EntryLines(e, |entries| == 1), Layout(entries[1..]));
    }
  }

  // ----- printed values

  lemma {:induction false} NumberOneLine(x: int)
    ensures OneLine(PrintInt(x))
  {
    PrintIntChars(x);
  }

  lemma {:induction false} NumberReadsBack(x: int32)
    ensures Stoi(PrintInt(x)) == Some(x)
  {
    StoiOfPrint(x, "");
    assert PrintInt(x) + "" == PrintInt(x);
  }

  lemma {:induction false} JoinChars(ports: seq<u16>)
    ensures forall i :: 0 <= i < |JoinPorts(ports)| ==> IsDigit(JoinPorts(ports)[i]) || JoinPorts(ports)[i] in "-,"
  {
    if ports != [] {
      PrintIntChars(ports[0]);
      if |ports| > 1 {
        JoinChars(ports[1..]);
      }
    }
  }

  lemma {:induction false} PortsOneLine(ports: seq<u16>)
    ensures OneLine(JoinPorts(ports))
  {
    JoinChars(ports);
  }

  lemma {:induction false} PortFirst(p: u16, parts: seq<string>)
    ensures Ports([PrintInt(p)] + parts) == Prepend([p], Ports(parts))
  {
    NumberOneLine(p);
    TrimOfTrimmed(PrintInt(p));
    NumberReadsBack(p);
    assert ([PrintInt(p)] + parts)[1..] == parts;
  }

  lemma {:induction false} JoinSplits(ports: seq<u16>)
    requires ports != []
    ensures Split(JoinPorts(ports), ',') == [PrintInt(ports[0])] + Split(JoinPorts(ports[1..]), ',')
  {
    PrintIntChars(ports[0]);
    if |ports| == 1 {
      SplitLast(PrintInt(ports[0]), ',');
      assert Split(JoinPorts(ports[1..]), ',') == [];
    } else {
      SplitFirst(PrintInt(ports[0]), ',', JoinPorts(ports[1..]));
    }
  }

  lemma {:induction false} PortsReadBack(ports: seq<u16>)
    ensures Ports(Split(JoinPorts(ports), ',')) == Some(ports)
  {
    if ports != [] {
      JoinSplits(ports);
      PortFirst(ports[0], Split(JoinPorts(ports[1..]), ','));
      PortsReadBack(ports[1..]);
      assert [ports[0]] + ports[1..] == ports;
    }
  }

  // ----- the saved file

  lemma {:induction false} HostIsNote()
    ensures IsNote(HOST_NOTE)
  {
  }

  lemma {:induction false} ModbusIsNote()
    ensures IsNote(MODBUS_NOTE)
  {
  }

  lemma {:induction false} HttpsIsNote()
    ensures IsNote(HTTPS_NOTE)
  {
  }

  lemma {:induction false} RefreshIsNote()
    ensures IsNote(REFRESH_NOTE)
  {
  }

  lemma {:induction false} ScanIsNote()
    ensures IsNote(SCAN_NOTE)
  {
  }

  lemma {:induction false} SubnetIsNote()
    ensures IsNote(SUBNET_NOTE)
  {
  }

  lemma {:induction false} PortsIsNote()
    ensures IsNote(PORTS_NOTE)
  {
  }

  lemma {:induction false} KeysAreGood()
    ensures GoodKey("ip") && GoodKey("modbus_port") && GoodKey("https_port")
    ensures GoodKey("refresh_hz") && GoodKey("scan_subnet") && GoodKey("scan_ports")
  {
  }

  lemma {:induction false} HeaderParses()
    ensures Parse(HEADER).Enter? && Ours(Parse(HEADER).name)
    ensures '\n' !in HEADER
  {
    TrimOfTrimmed(HEADER);
    assert HEADER[1..8] == "solakon";
  }

  /** The six changes a saved file asks for. */
  ghost function SavedChanges(cfg: Settings): seq<Change> {
    [Host(cfg.host), ModbusPort(cfg.modbusPort), HttpsPort(cfg.httpsPort),
     RefreshHz(cfg.refreshHz), ScanSubnet(cfg.scanSubnet), ScanPorts(cfg.scanPorts)]
  }

  ghost function Done(changes: seq<Change>): seq<Option<Change>> {
    if changes == [] then [] else [Some(changes[0])] + Done(changes[1..])
  }

  /** The settings whose text values a line can carry. */
  predicate Savable(cfg: Settings) {
    OneLine(cfg.host) && OneLine(cfg.scanSubnet)
  }

  lemma {:induction false} ConvertsText(val: string)
    ensures Known("ip") && Convert("ip", val) == Some(Host(val))
    ensures Known("scan_subnet") && Convert("scan_subnet", val) == Some(ScanSubnet(val))
  {
  }

  lemma {:induction false} ConvertsNumber(val: string, x: int32)
    requires Stoi(val) == Some(x)
    ensures Known("modbus_port") && Convert("modbus_port", val) == Some(ModbusPort(ToU16(x)))
    ensures Known("https_port") && Convert("https_port", val) == Some(HttpsPort(ToU16(x)))
    ensures Known("refresh_hz") && Convert("refresh_hz", val) == Some(RefreshHz(x))
  {
  }

  lemma {:induction false} ConvertsPorts(val: string, ports: seq<u16>)
    requires Ports(Split(val, ',')) == Some(ports)
    ensures Known("scan_ports") && Convert("scan_ports", val) == Some(ScanPorts(ports))
  {
  }

  /** The keys and values of the six entries, without their comments. */
  ghost predicate SavedEntries(e: seq<Entry>, cfg: Settings) {
    && |e| == 6
    && e[0].key == "ip" && e[0].val == cfg.host
    && e[1].key == "modbus_port" && e[1].val == PrintInt(cfg.modbusPort)
    && e[2].key == "https_port" && e[2].val == PrintInt(cfg.httpsPort)
    && e[3].key == "refresh_hz" && e[3].val == PrintInt(cfg.refreshHz)
    && e[4].key == "scan_subnet" && e[4].val == cfg.scanSubnet
    && e[5].key == "scan_ports" && e[5].val == JoinPorts(cfg.scanPorts)
  }

  lemma {:induction false} EntriesAreSaved(cfg: Settings)
    ensures SavedEntries(Entries(cfg, JoinPorts(cfg.scanPorts)), cfg)
  {
  }

  lemma {:induction false} EntryConverts(e: seq<Entry>, cfg: Settings, i: nat)
    requires SavedEntries(e, cfg) && i < 6
    ensures Known(e[i].key) && Convert(e[i].key, e[i].val) == Some(SavedChanges(cfg)[i])
  {
    match i {
      case 0 => ConvertsText(cfg.host);
      case 1 => NumberReadsBack(cfg.modbusPort); ConvertsNumber(PrintInt(cfg.modbusPort), cfg.modbusPort);
      case 2 => NumberReadsBack(cfg.httpsPort); ConvertsNumber(PrintInt(cfg.httpsPort), cfg.httpsPort);
      case 3 => NumberReadsBack(cfg.refreshHz); ConvertsNumber(PrintInt(cfg.refreshHz), cfg.refreshHz);
      case 4 => ConvertsText(cfg.scanSubnet);
      case 5 => PortsReadBack(cfg.scanPorts); ConvertsPorts(JoinPorts(cfg.scanPorts), cfg.scanPorts);
    }
  }

  lemma {:induction false} EntriesAreGood(cfg: Settings)
    requires Savable(cfg)
    ensures GoodEntries(Entries(cfg, JoinPorts(cfg.scanPorts)))
  {
    HostIsNote();
    ModbusIsNote();
    HttpsIsNote();
    RefreshIsNote();
    ScanIsNote();
    SubnetIsNote();
    PortsIsNote();
    KeysAreGood();
    NumberOneLine(cfg.modbusPort);
    NumberOneLine(cfg.httpsPort);
    NumberOneLine(cfg.refreshHz);
    PortsOneLine(cfg.scanPorts);
  }

  lemma {:induction false} ChangesAreDone(entries: seq<Entry>, changes: seq<Change>)
    requires GoodEntries(entries) && |entries| == |changes|
    requires forall i :: 0 <= i < |entries| ==>
      Known(entries[i].key) && Convert(entries[i].key, entries[i].val) == Some(changes[i])
    ensures Changes(entries) == Done(changes)
  {
    if entries != [] {
      forall i | 0 <= i < |entries[1..]|
        ensures Known(entries[1..][i].key)
        ensures Convert(entries[1..][i].key, entries[1..][i].val) == Some(changes[1..][i])
      {
        assert entries[1..][i] == entries[i + 1];
      }
      ChangesAreDone(entries[1..], changes[1..]);
    }
  }

  lemma {:induction false} SavedEffects(cfg: Settings)
    requires Savable(cfg)
    ensures Effects("", Acts(SaveLines(cfg))) == Done(SavedChanges(cfg))
    ensures NoNewline(SaveLines(cfg))
  {
    var entries := Entries(cfg, JoinPorts(cfg.scanPorts));
    EntriesAreGood(cfg);
    EntriesAreSaved(cfg);
    forall i | 0 <= i < |entries|
      ensures Known(entries[i].key) && Convert(entries[i].key, entries[i].val) == Some(SavedChanges(cfg)[i])
    {
      EntryConverts(entries, cfg, i);
    }
    ChangesAreDone(entries, SavedChanges(cfg));
    HeaderThenLayout(entries);
  }

  lemma {:induction false} HeaderThenLayout(entries: seq<Entry>)
    requires GoodEntries(entries)
    ensures Effects("", Acts([HEADER] + Layout(entries))) == Changes(entries)
    ensures NoNewline([HEADER] + Layout(entries))
  {
    HeaderParses();
    LayoutEffects(Parse(HEADER).name, entries);
    LayoutNoNewline(entries);
    NoNewlineConcat([HEADER], Layout(entries));
    var lines := [HEADER] + Layout(entries);
    assert lines[1..] == Layout(entries);
    assert Acts(lines)[1..] == Acts(Layout(entries));
  }

  lemma {:induction false} SettleCons(cfg: Settings, change: Change, rest: seq<Change>)
    ensures Settle(cfg, Done([change] + rest)) == Settle(Apply(cfg, change), Done(rest))
  {
    assert ([change] + rest)[1..] == rest;
    ApplyIsSettle(cfg, change);
    SettleConcat(cfg, [Some(change)], Done(rest));
  }

  lemma {:induction false} SavedChangesRestore(cfg: Settings, base: Settings)
    requires base.configPath == cfg.configPath
    ensures Settle(base, Done(SavedChanges(cfg))) == cfg
  {
    var c := SavedChanges(cfg);
    var b1 := Apply(base, c[0]);
    var b2 := Apply(b1, c[1]);
    var b3 := Apply(b2, c[2]);
    var b4 := Apply(b3, c[3]);
    var b5 := Apply(b4, c[4]);
    assert c == [c[0]] + c[1..] && c[1..] == [c[1]] + c[2..] && c[2..] == [c[2]] + c[3..];
    assert c[3..] == [c[3]] + c[4..] && c[4..] == [c[4]] + c[5..] && c[5..] == [c[5]] + [];
    SettleCons(base, c[0], c[1..]);
    SettleCons(b1, c[1], c[2..]);
    SettleCons(b2, c[2], c[3..]);
    SettleCons(b3, c[3], c[4..]);
    SettleCons(b4, c[4], c[5..]);
    SettleCons(b5, c[5], []);
  }

  lemma {:induction false} NoneNotDone(changes: seq<Change>)
    ensures None !in Done(changes)
  {
    if changes != [] {
      NoneNotDone(changes[1..]);
    }
  }

  lemma {:induction false} SavableRoundTrip(cfg: Settings)
    requires Savable(cfg)
    ensures Load(cfg.configPath, Some(SaveText(cfg))) == Some(cfg)
  {
    SavedEffects(cfg);
    SplitUnlines(SaveLines(cfg));
    LoadMeansLastAssignments(cfg.configPath, SaveText(cfg));
    NoneNotDone(SavedChanges(cfg));
    SavedChangesRestore(cfg, DEFAULTS.(configPath := cfg.configPath));
  }

  // ----- loaded values can be saved

  lemma {:induction false} PairValueOneLine(raw: string)
    requires '\n' !in raw && Classify(raw).Pair?
    ensures OneLine(Classify(raw).val)
  {
    var line := Trim(raw);
    TrimTrims(raw);
    var eq := IndexOf(line, '=');
    TrimTrims(line[eq + 1..]);
  }

  predicate TextSavable(change: Option<Change>) {
    && (change.Some? && change.value.Host? ==> OneLine(change.value.text))
    && (change.Some? && change.value.ScanSubnet? ==> OneLine(change.value.text))
  }

  lemma {:induction false} ConvertSavable(key: string, val: string)
    requires Known(key) && OneLine(val)
    ensures TextSavable(Convert(key, val))
  {
  }

  lemma {:induction false} EffectsSavable(section: string, lines: seq<string>, change: Option<Change>)
    requires NoNewline(lines)
    requires change in Effects(section, Acts(lines))
    ensures TextSavable(change)
    decreases |lines|
  {
    var act := Parse(lines[0]);
    assert Acts(lines)[1..] == Acts(lines[1..]);
    if change in Effect(section, act) {
      var pair := Classify(lines[0]);
      PairValueOneLine(lines[0]);
      ConvertSavable(pair.key, pair.val);
    } else {
      EffectsSavable(NextSection(section, act), lines[1..], change);
    }
  }

  lemma {:induction false} DefaultsSavable(path: string)
    ensures Savable(DEFAULTS.(configPath := path))
  {
  }

  /** Whatever the text, the settings loaded from it can be saved. */
  lemma {:induction false} LoadedSavable(path: string, text: string)
    requires Load(path, Some(text)).Some?
    ensures Savable(Load(path, Some(text)).value) && Load(path, Some(text)).value.configPath == path
  {
    var lines := Split(text, '\n');
    var effects := Effects("", Acts(lines));
    LoadMeansLastAssignments(path, text);
    DefaultsSavable(path);
    var host, subnet := Last(effects, WHost), Last(effects, WScanSubnet);
    if host.Some? {
      EffectsSavable("", lines, host);
    }
    if subnet.Some? {
      EffectsSavable("", lines, subnet);
    }
  }

  // ----- main results

  /** Saving and loading gives the settings back exactly when host and subnet are trimmed single lines;
      ports, refresh rate and port list may be anything. */
  lemma {:induction false} RoundTrip(cfg: Settings)
    ensures Load(cfg.configPath, Some(SaveText(cfg))) == Some(cfg) <==> Savable(cfg)
  {
    if Savable(cfg) {
      SavableRoundTrip(cfg);
    }
    if Load(cfg.configPath, Some(SaveText(cfg))) == Some(cfg) {
      LoadedSavable(cfg.configPath, SaveText(cfg));
    }
  }

  /** Any text that loads at all has a normal form: what was loaded, saved, loads as the same settings. */
  lemma {:induction false} NormalForm(path: string, text: string)
    requires Load(path, Some(text)).Some?
    ensures Load(path, Some(SaveText(Load(path, Some(text)).value))) == Load(path, Some(text))
  {
    LoadedSavable(path, text);
    SavableRoundTrip(Load(path, Some(text)).value);
  }
}
