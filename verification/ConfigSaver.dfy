/** What `save` writes. */
module ConfigSaver {
  import opened Words
  import opened Text
  import opened ConfigLoader

  // Texts of more than forty characters are in two pieces: the verifier unrolls a literal character by character.
  // \U{C3}\U{BC} and \U{C3}\U{A4} are the two bytes of the German umlauts.
  const HEADER := "[solakon]"
  const HOST_NOTE := "; IP-Adresse des " + "Solakon ONE Wechselrichters"
  const MODBUS_NOTE := "; Modbus TCP Port (Standard: 502)"
  const HTTPS_NOTE := "; HTTPS Port f\U{C3}\U{BC}r " + "Web-Oberfl\U{C3}\U{A4}che (Standard: 443)"
  const REFRESH_NOTE := "; Aktualisierungsrate in Hz (1-60)"
  const SCAN_NOTE := "; Netzwerk-Scan-Einstellungen"
  const SUBNET_NOTE := "; Subnet zum Scannen (CIDR-Notation)"
  const PORTS_NOTE := "; Zu scannende Ports (kommagetrennt)"

  /** The ports in decimal, separated by commas. */
  function JoinPorts(ports: seq<u16>): string {
    if ports == [] then ""
    else if |ports| == 1 then PrintInt(ports[0])
    else PrintInt(ports[0]) + "," + JoinPorts(ports[1..])
  }

  function AssignmentLine(key: string, val: string): string {
    key + " = " + val
  }

  /** One setting: its comment lines, and the assignment. */
  datatype Entry = Entry(notes: seq<string>, key: string, val: string)

  function Entries(cfg: Settings, ports: string): (e: seq<Entry>)
    ensures |e| == 6
  {
    [Entry([HOST_NOTE], "ip", cfg.host),
     Entry([MODBUS_NOTE], "modbus_port", PrintInt(cfg.modbusPort)),
     Entry([HTTPS_NOTE], "https_port", PrintInt(cfg.httpsPort)),
     Entry([REFRESH_NOTE], "refresh_hz", PrintInt(cfg.refreshHz)),
     Entry([SCAN_NOTE, SUBNET_NOTE], "scan_subnet", cfg.scanSubnet),
     Entry([PORTS_NOTE], "scan_ports", ports)]
  }

  function EntryLines(e: Entry, last: bool): seq<string> {
    e.notes + [AssignmentLine(e.key, e.val)] + (if last then [] else [""])
  }

  /** The lines of the entries, with a blank line between neighbours. */
  function Layout(entries: seq<Entry>): seq<string> {
    if entries == [] then []
    else
      EntryLines(entries[0], |entries| == 1) + Layout(entries[1..])
  }

  function SaveLines(cfg: Settings): seq<string> {
    [HEADER] + Layout(Entries(cfg, JoinPorts(cfg.scanPorts)))
  }

  /** The text of the saved file. */
  function SaveText(cfg: Settings): string {
    Unlines(SaveLines(cfg))
  }

  lemma {:induction false} UnlinesConcat(a: seq<string>, b: seq<string>)
    ensures Unlines(a + b) == Unlines(a) + Unlines(b)
  {
    if a == [] {
      assert a + b == b;
    } else {
      assert (a + b)[1..] == a[1..] + b;
      UnlinesConcat(a[1..], b);
    }
  }

  /** An output stream, written line by line. */
  class OutStream {
    var text: string
    ghost var lines: seq<string>

    ghost predicate Valid()
      reads this
    {
      text == Unlines(lines)
    }

    constructor ()
      ensures Valid() && text == ""
    {
      text, lines := "", [];
    }

    method WriteLine(s: string)
      requires Valid()
      modifies this
      ensures Valid() && lines == old(lines) + [s]
    {
      text := text + s + "\n";
      UnlinesConcat(lines, [s]);
      assert Unlines([s]) == s + "\n";
      assert Unlines(lines) + s + "\n" == Unlines(lines) + (s + "\n");
      lines := lines + [s];
    }
  }

  method PrintPorts(ports: seq<u16>) returns (s: string)
    ensures s == JoinPorts(ports)
  {
    s := "";
    for i := 0 to |ports|
      invariant s == JoinPorts(ports[..i])
    {
      JoinSnoc(ports[..i], ports[i]);
      assert ports[..i] + [ports[i]] == ports[..i + 1];
      if i > 0 {
        s := s + ",";
      }
      s := s + PrintInt(ports[i]);
    }
    assert ports[..|ports|] == ports;
  }

  lemma {:induction false} JoinSnoc(ports: seq<u16>, p: u16)
    ensures JoinPorts(ports + [p]) == JoinPorts(ports) + (if ports == [] then "" else ",") + PrintInt(p)
  {
    if |ports| > 1 {
      assert (ports + [p])[1..] == ports[1..] + [p];
      JoinSnoc(ports[1..], p);
    } else if |ports| == 1 {
      assert (ports + [p])[1..] == [p];
    }
  }

  /** Writes the i-th setting, and a blank line unless it is the last one. */
  method WriteSetting(file: OutStream, entries: seq<Entry>, i: nat, ghost all: seq<string>)
    requires file.Valid() && i < |entries|
    requires file.lines + Layout(entries[i..]) == all
    modifies file
    ensures file.Valid()
    ensures if i + 1 < |entries| then file.lines + Layout(entries[i + 1..]) == all else file.lines == all
  {
    ghost var before := file.lines;
    var e := entries[i];
    for j := 0 to |e.notes|
      invariant file.Valid() && file.lines == before + e.notes[..j]
    {
      file.WriteLine(e.notes[j]);
    }
    file.WriteLine(e.key + " = " + e.val);
    if i + 1 < |entries| {
      file.WriteLine("");
    }
    assert file.lines == before + EntryLines(e, i + 1 == |entries|);
    assert entries[i..][1..] == entries[i + 1..];
  }

  /** `save`: without a path, or when the file cannot be opened, nothing is written. */
  method SaveSettings(cfg: Settings, canOpen: bool, file: OutStream) returns (ok: bool)
    requires file.Valid() && file.lines == []
    modifies file
    ensures ok == (cfg.configPath != "" && canOpen)
    ensures file.text == if ok then SaveText(cfg) else ""
  {
    if cfg.configPath == "" {
      return false;
    }
    if !canOpen {
      return false;
    }
    var ports := PrintPorts(cfg.scanPorts);
    var e := Entries(cfg, ports);
    ghost var all := SaveLines(cfg);
    file.WriteLine(HEADER);
    assert e[0..] == e;
    WriteSetting(file, e, 0, all);
    WriteSetting(file, e, 1, all);
    WriteSetting(file, e, 2, all);
    WriteSetting(file, e, 3, all);
    WriteSetting(file, e, 4, all);
    WriteSetting(file, e, 5, all);
    return true;
  }
}
