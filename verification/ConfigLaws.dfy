/**
 What loading a configuration means: which assignments of a text count, and which of its lines do not.

 `Effects` reads off the changes a text asks for inside its [solakon] sections. Everything
 else about the text is noise: `LoadMeansLastAssignments` says so exactly.
 */
module ConfigLaws {
  import opened Words
  import opened Text
  import opened ConfigLoader
  import opened ConfigSaver

  /** The section in force after a line. */
  function NextSection(section: string, act: Act): string {
    if act.Enter? then act.name else section
  }

  function SectionAfter(section: string, acts: seq<Act>): string
    decreases |acts|
  {
    if acts == [] then section else SectionAfter(NextSection(section, acts[0]), acts[1..])
  }

  /** The change, if any, that a line makes when read inside `section`. */
  function Effect(section: string, act: Act): (e: seq<Option<Change>>)
    ensures |e| <= 1
  {
    if act.Set? && Ours(section) then [act.change] else []
  }

  /** The changes made inside [solakon], in order; None marks one that does not convert. */
  function Effects(section: string, acts: seq<Act>): seq<Option<Change>>
    decreases |acts|
  {
    if acts == [] then []
    else Effect(section, acts[0]) + Effects(NextSection(section, acts[0]), acts[1..])
  }

  datatype Which = WHost | WModbusPort | WHttpsPort | WRefreshHz | WScanSubnet | WScanPorts

  function WhichOf(change: Change): Which {
    match change
    case Host(_) => WHost
    case ModbusPort(_) => WModbusPort
    case HttpsPort(_) => WHttpsPort
    case RefreshHz(_) => WRefreshHz
    case ScanSubnet(_) => WScanSubnet
    case ScanPorts(_) => WScanPorts
  }

  /** The last change to one setting. */
  function Last(effects: seq<Option<Change>>, w: Which): (r: Option<Change>)
    ensures r.Some? ==> WhichOf(r.value) == w && r in effects
  {
    if effects == [] then None
    else if Last(effects[1..], w).Some? then Last(effects[1..], w)
    else if effects[0].Some? && WhichOf(effects[0].value) == w then effects[0]
    else None
  }

  /** Each setting from its own last change, or as it was. */
  function Settle(cfg: Settings, effects: seq<Option<Change>>): Settings {
    Settings(
      match Last(effects, WHost) case Some(Host(text)) => text case _ => cfg.host,
      match Last(effects, WModbusPort) case Some(ModbusPort(port)) => port case _ => cfg.modbusPort,
      match Last(effects, WHttpsPort) case Some(HttpsPort(port)) => port case _ => cfg.httpsPort,
      match Last(effects, WRefreshHz) case Some(RefreshHz(hz)) => hz case _ => cfg.refreshHz,
      match Last(effects, WScanSubnet) case Some(ScanSubnet(text)) => text case _ => cfg.scanSubnet,
      match Last(effects, WScanPorts) case Some(ScanPorts(ports)) => ports case _ => cfg.scanPorts,
      cfg.configPath)
  }

  lemma {:induction false} LastConcat(a: seq<Option<Change>>, b: seq<Option<Change>>, w: Which)
    ensures Last(a + b, w) == if Last(b, w).Some? then Last(b, w) else Last(a, w)
    decreases |a|
  {
    if a == [] {
      assert a + b == b;
    } else {
      assert (a + b)[1..] == a[1..] + b;
      LastConcat(a[1..], b, w);
    }
  }

  /** Later changes override earlier ones, setting by setting. */
  lemma {:induction false} SettleConcat(cfg: Settings, a: seq<Option<Change>>, b: seq<Option<Change>>)
    ensures Settle(cfg, a + b) == Settle(Settle(cfg, a), b)
  {
    LastConcat(a, b, WHost);
    LastConcat(a, b, WModbusPort);
    LastConcat(a, b, WHttpsPort);
    LastConcat(a, b, WRefreshHz);
    LastConcat(a, b, WScanSubnet);
    LastConcat(a, b, WScanPorts);
  }

  lemma {:induction false} ApplyIsSettle(cfg: Settings, change: Change)
    ensures Apply(cfg, change) == Settle(cfg, [Some(change)])
  {
    var e := [Some(change)];
    assert e[1..] == [];
    assert Last(e, WhichOf(change)) == Some(change);
    assert forall w :: w != WhichOf(change) ==> Last(e, w) == None;
  }

  lemma {:induction false} FoldMeansSettle(st: State, acts: seq<Act>)
    ensures Fold(st, acts) ==
      if None !in Effects(st.section, acts)
      then Some(State(Settle(st.cfg, Effects(st.section, acts)), SectionAfter(st.section, acts)))
      else None
    decreases |acts|
  {
    if acts != [] {
      var act := acts[0];
      var e := Effect(st.section, act);
      var rest := Effects(NextSection(st.section, act), acts[1..]);
      if None !in e {
        var st' := Step(st, act).value;
        if e != [] {
          ApplyIsSettle(st.cfg, act.change.value);
          SettleConcat(st.cfg, e, rest);
        } else {
          assert e + rest == rest;
        }
        FoldMeansSettle(st', acts[1..]);
      }
    }
  }

  /** Main result: loading fails exactly when some assignment does not convert; otherwise each
      setting depends only on its last assignment inside [solakon]. */
  lemma {:induction false} LoadMeansLastAssignments(path: string, text: string)
    ensures var effects := Effects("", Acts(Split(text, '\n')));
      Load(path, Some(text)) ==
      if None !in effects then Some(Settle(DEFAULTS.(configPath := path), effects)) else None
  {
    FoldMeansSettle(State(DEFAULTS.(configPath := path), ""), Acts(Split(text, '\n')));
  }

  // ----- noise

  lemma {:induction false} EffectsConcat(section: string, a: seq<Act>, b: seq<Act>)
    ensures Effects(section, a + b) == Effects(section, a) + Effects(SectionAfter(section, a), b)
    ensures SectionAfter(section, a + b) == SectionAfter(SectionAfter(section, a), b)
    decreases |a|
  {
    if a == [] {
      assert a + b == b;
    } else {
      assert (a + b)[1..] == a[1..] + b;
      var next := NextSection(section, a[0]);
      EffectsConcat(next, a[1..], b);
      var first, rest := Effect(section, a[0]), Effects(SectionAfter(next, a[1..]), b);
      assert first + (Effects(next, a[1..]) + rest) == (first + Effects(next, a[1..])) + rest;
    }
  }

  /** Lines that, read inside `section`, change nothing and lead back to `section`. */
  predicate Inert(section: string, acts: seq<Act>) {
    Effects(section, acts) == [] && SectionAfter(section, acts) == section
  }

  predicate NoNewline(lines: seq<string>) {
    forall i :: 0 <= i < |lines| ==> '\n' !in lines[i]
  }

  lemma {:induction false} NoNewlineConcat(a: seq<string>, b: seq<string>)
    requires NoNewline(a) && NoNewline(b)
    ensures NoNewline(a + b)
  {
  }

  lemma {:induction false} InertEffects(section: string, before: seq<Act>, noise: seq<Act>, after: seq<Act>)
    requires Inert(SectionAfter(section, before), noise)
    ensures Effects(section, before + noise + after) == Effects(section, before + after)
  {
    EffectsConcat(section, before + noise, after);
    EffectsConcat(section, before, noise);
    EffectsConcat(section, before, after);
    assert Effects(section, before) + [] == Effects(section, before);
  }

  lemma {:induction false} LoadOfLines(path: string, lines: seq<string>, lines': seq<string>)
    requires NoNewline(lines) && NoNewline(lines')
    requires Effects("", Acts(lines)) == Effects("", Acts(lines'))
    ensures Load(path, Some(Unlines(lines))) == Load(path, Some(Unlines(lines')))
  {
    LoadMeansLastAssignments(path, Unlines(lines));
    LoadMeansLastAssignments(path, Unlines(lines'));
    SplitUnlines(lines);
    SplitUnlines(lines');
  }

  /** Main result: inert lines may be inserted anywhere without changing what is loaded. */
  lemma {:induction false} InertLinesIgnored(path: string, before: seq<string>, noise: seq<string>, after: seq<string>)
    requires NoNewline(before) && NoNewline(noise) && NoNewline(after)
    requires Inert(SectionAfter("", Acts(before)), Acts(noise))
    ensures Load(path, Some(Unlines(before + noise + after))) == Load(path, Some(Unlines(before + after)))
  {
    NoNewlineConcat(before, noise);
    NoNewlineConcat(before + noise, after);
    NoNewlineConcat(before, after);
    MapConcat(Parse, before + noise, after);
    MapConcat(Parse, before, noise);
    MapConcat(Parse, before, after);
    InertEffects("", Acts(before), Acts(noise), Acts(after));
    LoadOfLines(path, before + noise + after, before + after);
  }

  lemma {:induction false} OneLineEffects(section: string, act: Act)
    ensures Effects(section, [act]) == Effect(section, act)
    ensures SectionAfter(section, [act]) == NextSection(section, act)
  {
    assert [act][1..] == [];
  }

  /** Which single lines are inert: blank lines, comments, lines without '=' and unknown keys anywhere,
      the header of the section already in force, and outside [solakon] every assignment. */
  lemma {:induction false} SingleLineInert(section: string, act: Act)
    ensures Inert(section, [act]) <==>
      match act
      case Nothing => true
      case Enter(name) => name == section
      case Set(_) => !Ours(section)
  {
    OneLineEffects(section, act);
  }

  predicate OpensOurs(act: Act) {
    act.Enter? && Ours(act.name)
  }

  /** A foreign section, even one whose values do not convert, is inert once [solakon] is reopened. */
  lemma {:induction false} ForeignSectionInert(section: string, header: Act, body: seq<Act>, back: Act)
    requires Ours(section) && header.Enter? && !OpensOurs(header) && OpensOurs(back)
    requires forall act :: act in body ==> !OpensOurs(act)
    ensures Inert(section, [header] + body + [back])
  {
    EffectsConcat(section, [header] + body, [back]);
    EffectsConcat(section, [header], body);
    OneLineEffects(section, header);
    OneLineEffects(SectionAfter(header.name, body), back);
    ForeignBody(header.name, body);
  }

  lemma {:induction false} ForeignBody(section: string, body: seq<Act>)
    requires !Ours(section)
    requires forall act :: act in body ==> !OpensOurs(act)
    ensures Effects(section, body) == []
    decreases |body|
  {
    if body != [] {
      assert !OpensOurs(body[0]);
      ForeignBody(NextSection(section, body[0]), body[1..]);
    }
  }

  // ----- saved values are read back

  /** A value that a line can carry: trimmed, on one line. */
  predicate OneLine(s: string) {
    Trimmed(s) && '\n' !in s
  }

  predicate GoodKey(key: string) {
    key != "" && OneLine(key) && '=' !in key && key[0] != ';' && key[0] != '#' && key[0] != '['
  }

  /** The line of a saved assignment, as it is after trimming. */
  function TrimmedAssignment(key: string, val: string): string {
    key + " " + "=" + (if val == "" then "" else " " + val)
  }

  lemma {:induction false} TrimAssignment(key: string, val: string)
    requires GoodKey(key) && OneLine(val)
    ensures Trim(AssignmentLine(key, val)) == TrimmedAssignment(key, val)
  {
    var line := TrimmedAssignment(key, val);
    assert line[0] == key[0];
    if val == "" {
      TrimFindsCore("", line, " ");
      assert AssignmentLine(key, val) == "" + line + " ";
    } else {
      assert AssignmentLine(key, val) == line;
      assert line[|line| - 1] == val[|val| - 1];
    }
  }

  lemma {:induction false} SplitAssignment(key: string, val: string)
    requires GoodKey(key) && OneLine(val)
    ensures var line := TrimmedAssignment(key, val);
      && IndexOf(line, '=') == |key| + 1 < |line|
      && Trim(line[..|key| + 1]) == key
      && Trim(line[|key| + 2..]) == val
  {
    var line := TrimmedAssignment(key, val);
    var tail := if val == "" then "" else " " + val;
    IndexOfConcat(key + " ", '=', tail);
    assert line == (key + " ") + "=" + tail;
    assert line[..|key| + 1] == "" + key + " ";
    TrimFindsCore("", key, " ");
    assert line[|key| + 2..] == tail;
    if val != "" {
      assert tail == " " + val + "";
      TrimFindsCore(" ", val, "");
    }
  }

  lemma {:induction false} ClassifyPair(line: string, eq: nat)
    requires line != "" && line[0] != ';' && line[0] != '#' && line[0] != '['
    requires IndexOf(line, '=') == eq < |line|
    ensures ClassifyTrimmed(line) == Pair(Trim(line[..eq]), Trim(line[eq + 1..]))
  {
  }

  lemma {:induction false} AssignmentLineParses(key: string, val: string)
    requires GoodKey(key) && OneLine(val)
    ensures Classify(AssignmentLine(key, val)) == Pair(key, val)
  {
    TrimAssignment(key, val);
    SplitAssignment(key, val);
    assert TrimmedAssignment(key, val)[0] == key[0];
    ClassifyPair(TrimmedAssignment(key, val), |key| + 1);
  }
}
