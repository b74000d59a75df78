/**
 The lines of a configuration file, one kind at a time: what counts as a comment, a header or an assignment, what
 each key sets, and how a list of ports is read.
 */
module ConfigLines {
  import opened Words
  import opened Text
  import opened ConfigLoader
  import opened ConfigSaver
  import opened ConfigLaws
  import opened ConfigRoundTrip

  // ----- blanks

  predicate Margin(c: char) {
    c == ' ' || c == '\t' || c == '\r' || c == '\n'
  }

  /** A text is left alone by trimming exactly when it neither starts nor ends with a blank. */
  lemma {:induction false} TrimmedIff(s: string)
    ensures Trim(s) == s <==> s == "" || (!Margin(s[0]) && !Margin(s[|s| - 1]))
  {
    TrimTrims(s);
    if s == "" || (!Margin(s[0]) && !Margin(s[|s| - 1])) {
      TrimOfTrimmed(s);
    }
  }

  lemma {:induction false} TrimLeftCut(s: string) returns (a: string)
    ensures AllBlank(a) && s == a + TrimLeft(s)
  {
    if s != "" && IsBlank(s[0]) {
      var rest := TrimLeftCut(s[1..]);
      a := [s[0]] + rest;
      assert s == [s[0]] + s[1..];
    } else {
      a := "";
    }
  }

  lemma {:induction false} TrimRightCut(s: string) returns (b: string)
    ensures AllBlank(b) && s == TrimRight(s) + b
  {
    if s != "" && IsBlank(s[|s| - 1]) {
      var rest := TrimRightCut(s[..|s| - 1]);
      b := rest + [s[|s| - 1]];
      assert s == s[..|s| - 1] + [s[|s| - 1]];
    } else {
      b := "";
    }
  }

  lemma {:induction false} TrimCut(s: string) returns (left: string, right: string)
    ensures AllBlank(left) && AllBlank(right) && s == left + (Trim(s) + right)
  {
    left := TrimLeftCut(s);
    right := TrimRightCut(TrimLeft(s));
  }

  lemma {:induction false} Regroup(a: string, left: string, t: string, right: string, b: string)
    ensures a + (left + (t + right)) + b == (a + left) + t + (right + b)
  {
  }

  /** Blanks around a text do not matter. */
  lemma {:induction false} TrimPadded(a: string, s: string, b: string)
    requires AllBlank(a) && AllBlank(b)
    ensures Trim(a + s + b) == Trim(s)
  {
    var left, right := TrimCut(s);
    TrimTrims(s);
    Regroup(a, left, Trim(s), right, b);
    TrimFindsCore(a + left, Trim(s), right + b);
  }

  predicate Margins(s: string) {
    forall i :: 0 <= i < |s| ==> s[i] == ' ' || s[i] == '\t' || s[i] == '\r'
  }

  /** Each line with margins around it. */
  function Padded(before: seq<string>, lines: seq<string>, after: seq<string>): seq<string>
    requires |before| == |lines| == |after|
  {
    if lines == [] then []
    else [before[0] + lines[0] + after[0]] + Padded(before[1..], lines[1..], after[1..])
  }

  lemma {:induction false} PaddedActs(before: seq<string>, lines: seq<string>, after: seq<string>)
    requires |before| == |lines| == |after| && NoNewline(lines)
    requires forall i :: 0 <= i < |lines| ==> Margins(before[i]) && Margins(after[i])
    ensures Acts(Padded(before, lines, after)) == Acts(lines) && NoNewline(Padded(before, lines, after))
  {
    if lines != [] {
      var first, rest := before[0] + lines[0] + after[0], Padded(before[1..], lines[1..], after[1..]);
      TrimPadded(before[0], lines[0], after[0]);
      PaddedActs(before[1..], lines[1..], after[1..]);
      assert ([first] + rest)[1..] == rest && Acts(lines)[1..] == Acts(lines[1..]);
      assert '\n' !in first;
      NoNewlineConcat([first], rest);
    }
  }

  /** Spaces, tabs and carriage returns around the lines change nothing: an indented file, or one written with CRLF,
      loads as the plain one. */
  lemma {:induction false} MarginsIgnored(path: string, before: seq<string>, lines: seq<string>, after: seq<string>)
    requires |before| == |lines| == |after| && NoNewline(lines)
    requires forall i :: 0 <= i < |lines| ==> Margins(before[i]) && Margins(after[i])
    ensures Load(path, Some(Unlines(Padded(before, lines, after)))) == Load(path, Some(Unlines(lines)))
  {
    PaddedActs(before, lines, after);
    LoadOfLines(path, Padded(before, lines, after), lines);
  }

  // ----- the kinds of lines

  predicate IsHeader(line: string) {
    |line| >= 2 && line[0] == '[' && line[|line| - 1] == ']'
  }

  /** Comments, blank lines, and whatever is neither a header nor holds an equals sign. */
  lemma {:induction false} IgnoredIff(raw: string)
    ensures var t := Trim(raw);
      Classify(raw) == Ignored <==>
      t == "" || t[0] == ';' || t[0] == '#' || (!IsHeader(t) && '=' !in t)
  {
  }

  lemma {:induction false} SectionIff(raw: string, name: string)
    ensures Classify(raw) == Section(name) <==> Trim(raw) == "[" + name + "]"
  {
    var t := Trim(raw);
    if t == "[" + name + "]" {
      assert t[1..|t| - 1] == name;
    }
    if Classify(raw) == Section(name) {
      assert t == [t[0]] + t[1..|t| - 1] + [t[|t| - 1]];
    }
  }

  predicate CutAt(t: string, key: string, val: string, left: string, right: string) {
    t == left + ['='] + right && '=' !in left && key == Trim(left) && val == Trim(right)
  }

  /** An assignment is cut at its first equals sign. */
  lemma {:induction false} PairIff(raw: string, key: string, val: string)
    ensures var t := Trim(raw);
      Classify(raw) == Pair(key, val) <==>
      t != "" && t[0] != ';' && t[0] != '#' && !IsHeader(t) && exists left, right :: CutAt(t, key, val, left, right)
  {
    var t := Trim(raw);
    if Classify(raw) == Pair(key, val) {
      var eq := IndexOf(t, '=');
      assert CutAt(t, key, val, t[..eq], t[eq + 1..]);
    }
    if t != "" && t[0] != ';' && t[0] != '#' && !IsHeader(t) {
      if left, right :| CutAt(t, key, val, left, right) {
        IndexOfConcat(left, '=', right);
        assert t[..|left|] == left && t[|left| + 1..] == right;
      }
    }
  }

  /** Keys other than the six mean nothing. */
  lemma {:induction false} OtherKeysIgnored(raw: string, key: string, val: string)
    requires Classify(raw) == Pair(key, val)
    requires key !in ["ip", "modbus_port", "https_port", "refresh_hz", "scan_subnet", "scan_ports"]
    ensures Parse(raw) == Nothing
  {
  }

  // ----- sections

  lemma {:induction false} NoEffects(path: string, text: string)
    requires Effects("", Acts(Split(text, '\n'))) == []
    ensures Load(path, Some(text)) == Some(Settings("", 502, 443, 1, "192.168.178.0/24", [502, 443], path))
  {
    LoadMeansLastAssignments(path, text);
  }

  lemma {:induction false} NoneOpens(lines: seq<string>)
    requires forall i :: 0 <= i < |lines| ==> Classify(lines[i]) != Section("solakon")
    ensures forall act :: act in Acts(lines) ==> !OpensOurs(act)
  {
    if lines != [] {
      NoneOpens(lines[1..]);
      assert Acts(lines) == [Parse(lines[0])] + Acts(lines[1..]);
    }
  }

  /** Only assignments behind a header [solakon] count: without one, a text loads as the defaults, whatever is in it. */
  lemma {:induction false} OutsideIgnored(path: string, lines: seq<string>)
    requires NoNewline(lines) && forall i :: 0 <= i < |lines| ==> Classify(lines[i]) != Section("solakon")
    ensures Load(path, Some(Unlines(lines))) ==
      Some(Settings("", 502, 443, 1, "192.168.178.0/24", [502, 443], path))
  {
    SplitUnlines(lines);
    NoneOpens(lines);
    ForeignBody("", Acts(lines));
    NoEffects(path, Unlines(lines));
  }

  // ----- the keys

  lemma {:induction false} SettleOne(cfg: Settings, change: Change)
    ensures Settle(cfg, [Some(change)]) == Apply(cfg, change) && None !in [Some(change)]
  {
    ApplyIsSettle(cfg, change);
  }

  /** A file of one assignment. */
  function OneLineFile(key: string, val: string): string {
    "[solakon]" + "\n" + (key + " = " + val + "\n")
  }

  lemma {:induction false} OneLineFileLines(key: string, val: string)
    ensures OneLineFile(key, val) == Unlines([HEADER, AssignmentLine(key, val)])
  {
    var lines := [HEADER, AssignmentLine(key, val)];
    assert lines[1..] == [lines[1]] && lines[1..][1..] == [];
    assert Unlines(lines[1..]) == lines[1] + "\n" + "";
    assert Unlines(lines) == HEADER + "\n" + (lines[1] + "\n");
  }

  lemma {:induction false} OneAssignment(path: string, key: string, val: string, change: Change)
    requires GoodKey(key) && Known(key) && OneLine(val) && Convert(key, val) == Some(change)
    ensures Load(path, Some(OneLineFile(key, val))) == Some(Apply(DEFAULTS.(configPath := path), change))
  {
    var e := Entry([], key, val);
    var lines := [HEADER, AssignmentLine(key, val)];
    OneLineFileLines(key, val);
    assert [e][1..] == [];
    assert Layout([e]) == [AssignmentLine(key, val)];
    assert [HEADER] + Layout([e]) == lines;
    HeaderThenLayout([e]);
    assert Changes([e]) == [Some(change)];
    SplitUnlines(lines);
    SettleOne(DEFAULTS.(configPath := path), change);
    LoadMeansLastAssignments(path, OneLineFile(key, val));
  }

  /** The defaults with one setting changed. */
  function Changed(path: string, change: Change): Settings {
    Apply(DEFAULTS.(configPath := path), change)
  }

  /** Each key sets its own setting, ports modulo 65536, and leaves the others at their defaults. */
  lemma {:induction false} ChangedIs(path: string, text: string, n: u16, hz: int32, ports: seq<u16>)
    ensures Changed(path, Host(text)) == Settings(text, 502, 443, 1, "192.168.178.0/24", [502, 443], path)
    ensures Changed(path, ModbusPort(n)) == Settings("", n, 443, 1, "192.168.178.0/24", [502, 443], path)
    ensures Changed(path, HttpsPort(n)) == Settings("", 502, n, 1, "192.168.178.0/24", [502, 443], path)
    ensures Changed(path, RefreshHz(hz)) == Settings("", 502, 443, hz, "192.168.178.0/24", [502, 443], path)
    ensures Changed(path, ScanSubnet(text)) == Settings("", 502, 443, 1, text, [502, 443], path)
    ensures Changed(path, ScanPorts(ports)) == Settings("", 502, 443, 1, "192.168.178.0/24", ports, path)
  {
  }

  lemma {:induction false} TextKeysMean(path: string, text: string)
    requires OneLine(text)
    ensures Load(path, Some(OneLineFile("ip", text))) == Some(Changed(path, Host(text)))
    ensures Load(path, Some(OneLineFile("scan_subnet", text))) == Some(Changed(path, ScanSubnet(text)))
  {
    KeysAreGood();
    ConvertsText(text);
    OneAssignment(path, "ip", text, Host(text));
    OneAssignment(path, "scan_subnet", text, ScanSubnet(text));
  }

  lemma {:induction false} NumberKeysMean(path: string, n: int32)
    ensures Load(path, Some(OneLineFile("modbus_port", PrintInt(n)))) == Some(Changed(path, ModbusPort(n % 65536)))
    ensures Load(path, Some(OneLineFile("https_port", PrintInt(n)))) == Some(Changed(path, HttpsPort(n % 65536)))
    ensures Load(path, Some(OneLineFile("refresh_hz", PrintInt(n)))) == Some(Changed(path, RefreshHz(n)))
  {
    KeysAreGood();
    NumberOneLine(n);
    NumberReadsBack(n);
    ConvertsNumber(PrintInt(n), n);
    OneAssignment(path, "modbus_port", PrintInt(n), ModbusPort(ToU16(n)));
    OneAssignment(path, "https_port", PrintInt(n), HttpsPort(ToU16(n)));
    OneAssignment(path, "refresh_hz", PrintInt(n), RefreshHz(n));
  }

  lemma {:induction false} PortsKeyMeans(path: string, ports: seq<u16>)
    ensures Load(path, Some(OneLineFile("scan_ports", JoinPorts(ports)))) == Some(Changed(path, ScanPorts(ports)))
  {
    KeysAreGood();
    PortsOneLine(ports);
    PortsReadBack(ports);
    ConvertsPorts(JoinPorts(ports), ports);
    OneAssignment(path, "scan_ports", JoinPorts(ports), ScanPorts(ports));
  }

  lemma {:induction false} OneMoreEffect(section: string, acts: seq<Act>, change: Option<Change>)
    requires Ours(SectionAfter(section, acts))
    ensures Effects(section, acts + [Set(change)]) == Effects(section, acts) + [change]
  {
    EffectsConcat(section, acts, [Set(change)]);
    OneLineEffects(SectionAfter(section, acts), Set(change));
  }

  /** One more assignment at the end of a file that loads, in a section [solakon], overrides its setting, or makes the
      loading fail when it does not convert. */
  lemma {:induction false} LastAssignmentWins(path: string, lines: seq<string>, key: string, val: string)
    requires NoNewline(lines) && SectionAfter("", Acts(lines)) == "solakon"
    requires GoodKey(key) && Known(key) && OneLine(val)
    requires Load(path, Some(Unlines(lines))).Some?
    ensures var before := Load(path, Some(Unlines(lines))).value;
      Load(path, Some(Unlines(lines + [AssignmentLine(key, val)]))) ==
      match Convert(key, val) case Some(change) => Some(Apply(before, change)) case None => None
  {
    var all := lines + [AssignmentLine(key, val)];
    assert '\n' !in " = " && '\n' !in AssignmentLine(key, val);
    NoNewlineConcat(lines, [AssignmentLine(key, val)]);
    SplitUnlines(lines);
    SplitUnlines(all);
    AssignmentParses(key, val);
    MapConcat(Parse, lines, [AssignmentLine(key, val)]);
    assert Acts([AssignmentLine(key, val)]) == [Set(Convert(key, val))];
    OneMoreEffect("", Acts(lines), Convert(key, val));
    LoadMeansLastAssignments(path, Unlines(lines));
    LoadMeansLastAssignments(path, Unlines(all));
    OneMoreSettled(DEFAULTS.(configPath := path), Effects("", Acts(lines)), Convert(key, val));
  }

  lemma {:induction false} OneMoreSettled(cfg: Settings, effects: seq<Option<Change>>, change: Option<Change>)
    requires None !in effects
    ensures change.Some? ==>
      None !in effects + [change] && Settle(cfg, effects + [change]) == Apply(Settle(cfg, effects), change.value)
    ensures change.None? ==> None in effects + [change]
  {
    if change.Some? {
      SettleConcat(cfg, effects, [change]);
      ApplyIsSettle(Settle(cfg, effects), change.value);
    } else {
      assert (effects + [change])[|effects|] == None;
    }
  }

  // ----- lists of ports

  lemma {:induction false} BlankIff(s: string)
    ensures AllBlank(s) <==> Trim(s) == ""
  {
    if AllBlank(s) {
      TrimPadded(s, "", "");
      assert s + "" + "" == s;
    }
    if Trim(s) == "" {
      var left, right := TrimCut(s);
    }
  }

  /** One entry of a list of ports: a blank one gives nothing, another one its number modulo 65536. */
  lemma {:induction false} OnePort(part: string)
    ensures Ports([part]) ==
      if AllBlank(part) then Some([])
      else match Stoi(Trim(part)) case Some(x) => Some([x % 65536]) case None => None
  {
    assert [part][1..] == [];
    BlankIff(part);
  }

  function PortsChange(ports: Option<seq<u16>>): Option<Change> {
    match ports case Some(ps) => Some(ScanPorts(ps)) case None => None
  }

  /** The list is cut at its commas. */
  lemma {:induction false} PortsCut(first: string, rest: string)
    requires ',' !in first
    ensures Convert("scan_ports", first + "," + rest) == PortsChange(Ports([first] + Split(rest, ',')))
    ensures Convert("scan_ports", first) == PortsChange(if first == "" then Some([]) else Ports([first]))
  {
    SplitFirst(first, ',', rest);
    if first != "" {
      SplitLast(first, ',');
    }
  }

  /** A list is read entry by entry, and fails when one of them does. */
  lemma {:induction false} PortsConcat(a: seq<string>, b: seq<string>)
    ensures Ports(a + b) ==
      if Ports(a).Some? && Ports(b).Some? then Some(Ports(a).value + Ports(b).value) else None
  {
    if a == [] {
      assert a + b == b;
      assert Ports(b).Some? ==> [] + Ports(b).value == Ports(b).value;
    } else {
      assert (a + b)[1..] == a[1..] + b;
      PortsConcat(a[1..], b);
      if Trim(a[0]) != "" && Stoi(Trim(a[0])).Some? && Ports(a[1..]).Some? && Ports(b).Some? {
        var p := [ToU16(Stoi(Trim(a[0])).value)];
        assert p + (Ports(a[1..]).value + Ports(b).value) == (p + Ports(a[1..]).value) + Ports(b).value;
      }
    }
  }
}
