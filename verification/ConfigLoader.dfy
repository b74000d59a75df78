/**
 The INI configuration file: what `load` makes of a text.

 A `std::stoi` that throws is not caught anywhere in the program; `None` stands for that.
 */
module ConfigLoader {
  import opened Words
  import opened Text

  datatype Settings = Settings(
    host: string,
    modbusPort: u16,
    httpsPort: u16,
    refreshHz: int32,
    scanSubnet: string,
    scanPorts: seq<u16>,
    configPath: string)

  const DEFAULTS := Settings("", 502, 443, 1, "192.168.178.0/24", [502, 443], "")

  // ----- load

  datatype Line = Ignored | Section(name: string) | Pair(key: string, val: string)

  /** A line already trimmed. */
  function ClassifyTrimmed(line: string): Line {
    if line == "" || line[0] == ';' || line[0] == '#' then Ignored
    else if line[0] == '[' && line[|line| - 1] == ']' then Section(line[1..|line| - 1])
    else
      var eq := IndexOf(line, '=');
      if eq == |line| then Ignored else Pair(Trim(line[..eq]), Trim(line[eq + 1..]))
  }

  function Classify(raw: string): Line {
    ClassifyTrimmed(Trim(raw))
  }

  function Prepend(ports: seq<u16>, rest: Option<seq<u16>>): (r: Option<seq<u16>>)
    ensures ports == [] ==> r == rest
    ensures rest == Some([]) ==> r == Some(ports)
  {
    match rest
    case Some(ps) =>
      assert ports == [] ==> ports + ps == ps;
      assert ps == [] ==> ports + ps == ports;
      Some(ports + ps)
    case None => None
  }

  /** The ports of a list split at its commas; empty entries do not count. */
  function Ports(parts: seq<string>): Option<seq<u16>> {
    if parts == [] then Some([])
    else
      var part := Trim(parts[0]);
      if part == "" then Ports(parts[1..])
      else
        match Stoi(part)
        case Some(p) => Prepend([ToU16(p)], Ports(parts[1..]))
        case None => None
  }

  /** What one assignment does to the settings. */
  datatype Change =
    | Host(text: string)
    | ModbusPort(port: u16)
    | HttpsPort(port: u16)
    | RefreshHz(hz: int32)
    | ScanSubnet(text: string)
    | ScanPorts(ports: seq<u16>)

  function Apply(cfg: Settings, change: Change): Settings {
    match change
    case Host(text) => cfg.(host := text)
    case ModbusPort(port) => cfg.(modbusPort := port)
    case HttpsPort(port) => cfg.(httpsPort := port)
    case RefreshHz(hz) => cfg.(refreshHz := hz)
    case ScanSubnet(text) => cfg.(scanSubnet := text)
    case ScanPorts(ports) => cfg.(scanPorts := ports)
  }

  predicate Known(key: string) {
    || key == "ip" || key == "modbus_port" || key == "https_port"
    || key == "refresh_hz" || key == "scan_subnet" || key == "scan_ports"
  }

  /** The change that `key = val` asks for; None where the conversion throws. */
  function Convert(key: string, val: string): Option<Change>
    requires Known(key)
  {
    if key == "ip" then Some(Host(val))
    else if key == "modbus_port" then match Stoi(val) { case Some(x) => Some(ModbusPort(ToU16(x))) case None => None }
    else if key == "https_port" then match Stoi(val) { case Some(x) => Some(HttpsPort(ToU16(x))) case None => None }
    else if key == "refresh_hz" then match Stoi(val) { case Some(x) => Some(RefreshHz(x)) case None => None }
    else if key == "scan_subnet" then Some(ScanSubnet(val))
    else match Ports(Split(val, ',')) { case Some(ps) => Some(ScanPorts(ps)) case None => None }
  }

  predicate Ours(section: string) {
    section == "solakon"
  }

  /** What one line asks for; an assignment counts only inside [solakon]. */
  datatype Act = Nothing | Enter(name: string) | Set(change: Option<Change>)

  function ActOf(line: Line): Act {
    match line
    case Ignored => Nothing
    case Section(name) => Enter(name)
    case Pair(key, val) => if Known(key) then Set(Convert(key, val)) else Nothing
  }

  function Parse(raw: string): Act {
    ActOf(Classify(raw))
  }

  datatype State = State(cfg: Settings, section: string)

  function Step(st: State, act: Act): Option<State> {
    match act
    case Nothing => Some(st)
    case Enter(name) => Some(st.(section := name))
    case Set(change) =>
      if !Ours(st.section) then Some(st)
      else if change.None? then None
      else Some(st.(cfg := Apply(st.cfg, change.value)))
  }

  function Fold(st: State, acts: seq<Act>): Option<State>
    decreases |acts|
  {
    if acts == [] then Some(st)
    else match Step(st, acts[0])
         case Some(st') => Fold(st', acts[1..])
         case None => None
  }

  function Acts(lines: seq<string>): seq<Act> {
    Map(Parse, lines)
  }

  /** The settings a configuration file gives; `file` is None when there is none to open. */
  function Load(path: string, file: Option<string>): Option<Settings> {
    var cfg := DEFAULTS.(configPath := path);
    match file
    case None => Some(cfg)
    case Some(text) =>
      CfgOf(Fold(State(cfg, ""), Acts(Split(text, '\n'))))
  }

  method ReadPorts(val: string) returns (r: Option<seq<u16>>)
    ensures r == Ports(Split(val, ','))
  {
    var ports: seq<u16> := [];
    var ss := new InStream(val);
    ghost var left := Split(val, ',');
    var more, port := ss.GetLine(',');
    while more
      invariant fresh(ss)
      invariant left == if more then [port] + Split(ss.rest, ',') else []
      invariant Ports(Split(val, ',')) == Prepend(ports, Ports(left))
      decreases |left|
    {
      ghost var parts := left;
      left := Split(ss.rest, ',');
      assert parts[1..] == left;
      port := Trim(port);
      if port != "" {
        var p := Stoi(port);
        if p.None? {
          return None;
        }
        PrependConcat(ports, ToU16(p.value), Ports(left));
        ports := ports + [ToU16(p.value)];
      }
      more, port := ss.GetLine(',');
    }
    return Some(ports);
  }

  lemma {:induction false} PrependConcat(ports: seq<u16>, p: u16, rest: Option<seq<u16>>)
    ensures Prepend(ports, Prepend([p], rest)) == Prepend(ports + [p], rest)
  {
    if rest.Some? {
      assert ports + ([p] + rest.value) == ports + [p] + rest.value;
    }
  }

  function CfgOf(st: Option<State>): Option<Settings> {
    match st case Some(s) => Some(s.cfg) case None => None
  }

  lemma {:induction false} FoldCons(st: State, raw: string, rest: seq<string>)
    ensures Fold(st, Acts([raw] + rest)) ==
      match Step(st, Parse(raw)) case Some(st') => Fold(st', Acts(rest)) case None => None
  {
    assert ([raw] + rest)[1..] == rest;
    assert Acts([raw] + rest)[1..] == Acts(rest);
  }

  /** The settings read from one file. */
  method LoadFile(path: string, file: Option<string>) returns (r: Option<Settings>)
    ensures r == Load(path, file)
  {
    var cfg := DEFAULTS.(configPath := path);
    if file.None? {
      return Some(cfg);
    }
    var section, failed := "", false;
    var stream := new InStream(file.value);
    ghost var left := Split(file.value, '\n');
    var more, line := stream.GetLine('\n');
    while more
      invariant fresh(stream)
      invariant left == if more then [line] + Split(stream.rest, '\n') else []
      invariant Load(path, file) == CfgOf(Fold(State(cfg, section), Acts(left)))
      decreases |left|
    {
      FoldCons(State(cfg, section), line, Split(stream.rest, '\n'));
      left := Split(stream.rest, '\n');
      cfg, section, failed := HandleLine(cfg, section, Classify(line));
      if failed {
        return None;
      }
      more, line := stream.GetLine('\n');
    }
    return Some(cfg);
  }

  method HandleLine(start: Settings, section: string, line: Line)
    returns (cfg: Settings, next: string, failed: bool)
    ensures Step(State(start, section), ActOf(line)) == if failed then None else Some(State(cfg, next))
  {
    cfg, next, failed := start, section, false;
    match line {
      case Ignored =>
      case Section(name) =>
        next := name;
      case Pair(key, val) =>
        if Ours(section) && Known(key) {
          cfg, failed := AssignSetting(cfg, key, val);
        }
    }
  }

  method AssignSetting(start: Settings, key: string, val: string) returns (cfg: Settings, failed: bool)
    requires Known(key)
    ensures match Convert(key, val)
            case Some(change) => !failed && cfg == Apply(start, change)
            case None => failed
  {
    cfg, failed := start, false;
    if key == "ip" {
      cfg := cfg.(host := val);
    } else if key == "modbus_port" {
      match Stoi(val) { case Some(x) => cfg := cfg.(modbusPort := ToU16(x)); case None => failed := true; }
    } else if key == "https_port" {
      match Stoi(val) { case Some(x) => cfg := cfg.(httpsPort := ToU16(x)); case None => failed := true; }
    } else if key == "refresh_hz" {
      match Stoi(val) { case Some(x) => cfg := cfg.(refreshHz := x); case None => failed := true; }
    } else if key == "scan_subnet" {
      cfg := cfg.(scanSubnet := val);
    } else {
      var ports := ReadPorts(val);
      match ports { case Some(ps) => cfg := cfg.(scanPorts := ps); case None => failed := true; }
    }
  }

  // ----- which file

  /** What a path leads to. */
  datatype File = Missing | Unreadable | Readable(text: string)

  /** What paths lead to; the empty one leads nowhere. */
  type FileSystem = f: string -> File | f("") == Missing witness _ => Missing

  const HOME_FILE := "/.config/solakon-monitor/solakon.conf"

  /** The path given, else the file in the home directory if there is one, else the one in the current directory. */
  function ChosenPath(overridePath: string, home: Option<string>, files: FileSystem): string {
    if overridePath != "" then overridePath
    else
      var path := match home case Some(dir) => dir + HOME_FILE case None => "";
      if files(path) != Missing then path else "solakon.conf"
  }

  function TextOf(file: File): Option<string> {
    if file.Readable? then Some(file.text) else None
  }

  function LoadFrom(overridePath: string, home: Option<string>, files: FileSystem): Option<Settings> {
    var path := ChosenPath(overridePath, home, files);
    Load(path, TextOf(files(path)))
  }

  /** What a file gives: its text loaded, or the defaults when it is missing or cannot be opened. */
  ghost predicate LoadedFrom(r: Option<Settings>, path: string, files: FileSystem) {
    match files(path)
    case Readable(text) => r == Load(path, Some(text))
    case _ => r == Some(Settings("", 502, 443, 1, "192.168.178.0/24", [502, 443], path))
  }

  /** The file of --config is always the one loaded; without it the one in the home directory if it is there, and
      otherwise the one in the current directory. */
  lemma {:induction false} WhichFile(overridePath: string, dir: string, files: FileSystem)
    ensures overridePath != "" ==> forall home :: LoadedFrom(LoadFrom(overridePath, home, files), overridePath, files)
    ensures LoadedFrom(LoadFrom("", None, files), "solakon.conf", files)
    ensures var homeFile := dir + "/.config/solakon-monitor/solakon.conf";
      LoadedFrom(LoadFrom("", Some(dir), files), if files(homeFile) == Missing then "solakon.conf" else homeFile, files)
  {
  }

  /** With --config nothing else matters: neither the home directory nor any other file. */
  lemma {:induction false} OverrideAlone(overridePath: string, home: Option<string>, files: FileSystem,
                                         home': Option<string>, files': FileSystem)
    requires overridePath != "" && files(overridePath) == files'(overridePath)
    ensures LoadFrom(overridePath, home, files) == LoadFrom(overridePath, home', files')
  {
  }

  /** `load`: the settings of the file chosen, or the defaults when it is missing or cannot be opened. */
  method LoadSettings(overridePath: string, home: Option<string>, files: FileSystem) returns (r: Option<Settings>)
    ensures r == LoadFrom(overridePath, home, files)
    ensures overridePath != "" ==> LoadedFrom(r, overridePath, files)
    ensures r.Some? ==> r.value.configPath == ChosenPath(overridePath, home, files)
  {
    var path := "";
    if overridePath != "" {
      path := overridePath;
    } else {
      if home.Some? {
        path := home.value + HOME_FILE;
      }
      if files(path) == Missing {
        path := "solakon.conf";
      }
    }
    if files(path) == Missing {
      return Some(DEFAULTS.(configPath := path));
    }
    r := LoadFile(path, TextOf(files(path)));
    PathKept(path, TextOf(files(path)));
  }

  lemma {:induction false} FoldKeepsPath(st: State, acts: seq<Act>)
    requires Fold(st, acts).Some?
    ensures Fold(st, acts).value.cfg.configPath == st.cfg.configPath
    decreases |acts|
  {
    if acts != [] {
      FoldKeepsPath(Step(st, acts[0]).value, acts[1..]);
    }
  }

  lemma {:induction false} PathKept(path: string, file: Option<string>)
    ensures Load(path, file).Some? ==> Load(path, file).value.configPath == path
  {
    if file.Some? && Load(path, file).Some? {
      FoldKeepsPath(State(DEFAULTS.(configPath := path), ""), Acts(Split(file.value, '\n')));
    }
  }
}
