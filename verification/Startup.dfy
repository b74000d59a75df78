/**
 Starting up: the command line, the configuration files and a prompt decide together what the program
 connects to. A host typed in is saved for the next run.
 */
module Startup {
  import opened Words
  import opened Text
  import opened ConfigLoader
  import opened ConfigSaver
  import opened ConfigLaws
  import opened ConfigRoundTrip
  import Arguments

  /** A conversion throws, the program gives up, or it goes on to connect. */
  datatype Outcome = Throws | Aborts | Starts(settings: Settings)

  function DefaultPath(home: Option<string>): (path: string) {
    match home case Some(dir) => dir + HOME_FILE case None => "solakon.conf"
  }

  /** The first of three texts that is not empty, if any. */
  function FirstGiven(a: string, b: string, c: string): string {
    if a != "" then a else if b != "" then b else c
  }

  /** Neither the command line nor the file it goes with names a host. */
  predicate Asks(cfg: Arguments.Config, loaded: Option<Settings>) {
    cfg.host == "" && loaded.Some? && loaded.value.host == ""
  }

  /** The settings that file, command line and prompt agree on. */
  predicate Agreed(cfg: Arguments.Config, home: Option<string>, files: FileSystem, typed: string, loaded: Settings,
                   s: Settings)
  {
    var asks := Asks(cfg, Some(loaded));
    && s.host == FirstGiven(cfg.host, loaded.host, typed) && s.host != ""
    && s.modbusPort == (if asks || cfg.modbusPort != 502 then cfg.modbusPort else loaded.modbusPort)
    && s.refreshHz == (if cfg.refreshHz != 1 then cfg.refreshHz else loaded.refreshHz)
    && (s.httpsPort, s.scanSubnet, s.scanPorts) == (loaded.httpsPort, loaded.scanSubnet, loaded.scanPorts)
    && s.configPath == (if asks then DefaultPath(home) else ChosenPath(cfg.configPath, home, files))
  }

  /** How a start ends. A host is asked for only when the standard file names none either. */
  predicate Decided(cfg: Arguments.Config, home: Option<string>, files: FileSystem, typed: string, r: Outcome) {
    var loaded, standard := LoadFrom(cfg.configPath, home, files), LoadFrom("", home, files);
    && (r.Throws? <==> loaded.None? || (Asks(cfg, loaded) && standard.None?))
    && (r.Aborts? <==> Asks(cfg, loaded) && standard.Some? && (standard.value.host != "" || typed == ""))
    && (r.Starts? ==> Agreed(cfg, home, files, typed, loaded.value, r.settings))
  }

  /** What is saved: the settings after asking for a host, when the file can be opened. */
  function Saved(cfg: Arguments.Config, loaded: Option<Settings>, canOpen: bool, r: Outcome): string {
    if r.Starts? && Asks(cfg, loaded) && canOpen then SaveText(r.settings) else ""
  }

  method Configure(cfg: Arguments.Config, home: Option<string>, files: FileSystem, typed: string, canOpen: bool,
                   file: OutStream)
    returns (r: Outcome)
    requires file.Valid() && file.lines == []
    modifies file
    ensures Decided(cfg, home, files, typed, r)
    ensures file.text == Saved(cfg, LoadFrom(cfg.configPath, home, files), canOpen, r)
  {
    var loaded := LoadSettings(cfg.configPath, home, files);
    if loaded.None? {
      return Throws;
    }
    var settings := loaded.value;
    if cfg.host != "" {
      settings := settings.(host := cfg.host);
    }
    if cfg.modbusPort != 502 {
      settings := settings.(modbusPort := cfg.modbusPort);
    }
    if cfg.refreshHz != 1 {
      settings := settings.(refreshHz := cfg.refreshHz);
    }
    if settings.host == "" {
      var check := LoadSettings("", home, files);
      if check.None? {
        return Throws;
      }
      if check.value.configPath == "" {
        return Aborts;
      }
      if check.value.host == "" {
        if typed == "" {
          return Aborts;
        }
        settings := settings.(host := typed);
        settings := settings.(modbusPort := cfg.modbusPort);
        settings := settings.(configPath := DefaultPath(home));
        var _ := SaveSettings(settings, canOpen, file);
      } else {
        return Aborts;
      }
    }
    return Starts(settings);
  }

  lemma {:induction false} LoadKeepsPath(overridePath: string, home: Option<string>, files: FileSystem)
    ensures var r := LoadFrom(overridePath, home, files);
      r.Some? ==> r.value.configPath == ChosenPath(overridePath, home, files)
  {
    var path := ChosenPath(overridePath, home, files);
    PathKept(path, TextOf(files(path)));
  }

  /** Loading always names a file, so the advice for the case that it names none is never given. */
  lemma {:induction false} StandardHasPath(home: Option<string>, files: FileSystem)
    ensures LoadFrom("", home, files).Some? ==> LoadFrom("", home, files).value.configPath != ""
  {
    LoadKeepsPath("", home, files);
  }

  /** There is exactly one way for a start to end. */
  lemma {:induction false} OneOutcome(cfg: Arguments.Config, home: Option<string>, files: FileSystem, typed: string,
                                      r: Outcome, r': Outcome)
    requires Decided(cfg, home, files, typed, r) && Decided(cfg, home, files, typed, r')
    ensures r == r'
  {
  }

  /** Without --config the program starts exactly when its file loads and a host is given somewhere. */
  lemma {:induction false} StartsIff(cfg: Arguments.Config, home: Option<string>, files: FileSystem, typed: string,
                                     r: Outcome)
    requires Decided(cfg, home, files, typed, r) && cfg.configPath == ""
    ensures var loaded := LoadFrom("", home, files);
      r.Starts? <==> loaded.Some? && FirstGiven(cfg.host, loaded.value.host, typed) != ""
  {
  }

  // ----- the next run

  lemma {:induction false} LoadedSubnet(overridePath: string, home: Option<string>, files: FileSystem)
    ensures var r := LoadFrom(overridePath, home, files); r.Some? ==> OneLine(r.value.scanSubnet)
  {
    var path := ChosenPath(overridePath, home, files);
    var text := TextOf(files(path));
    if text.None? {
      DefaultsSavable(path);
    } else if Load(path, text).Some? {
      LoadedSavable(path, text.value);
    }
  }

  /** No option of the command line bears on what to connect to. */
  predicate Bare(cfg: Arguments.Config) {
    cfg.host == "" && cfg.configPath == "" && cfg.modbusPort == 502 && cfg.refreshHz == 1
  }

  lemma {:induction false} SavedIsChosen(home: Option<string>, files: FileSystem)
    requires files(DefaultPath(home)) != Missing
    ensures ChosenPath("", home, files) == DefaultPath(home)
  {
  }

  lemma {:induction false} SavedTextNotEmpty(cfg: Settings)
    ensures SaveText(cfg) != ""
  {
    assert SaveLines(cfg)[0] == HEADER && |HEADER| > 0;
    assert SaveText(cfg) == HEADER + "\n" + Unlines(SaveLines(cfg)[1..]);
  }

  /** Something is written exactly when a host was asked for, given, and the file could be opened; and what is written
      loads as the settings started with exactly when the host was typed as one trimmed line. */
  lemma {:induction false} SavedMeans(cfg: Arguments.Config, home: Option<string>, files: FileSystem, typed: string,
                                      canOpen: bool, r: Outcome)
    requires Decided(cfg, home, files, typed, r)
    ensures var loaded := LoadFrom(cfg.configPath, home, files);
      var text := Saved(cfg, loaded, canOpen, r);
      && (text != "" <==> Asks(cfg, loaded) && r.Starts? && canOpen)
      && (text != "" ==> r.settings.host == typed && r.settings.configPath == DefaultPath(home))
      && (text != "" ==> (Load(DefaultPath(home), Some(text)) == Some(r.settings) <==> OneLine(typed)))
  {
    var loaded := LoadFrom(cfg.configPath, home, files);
    if Asks(cfg, loaded) && r.Starts? && canOpen {
      LoadedSubnet(cfg.configPath, home, files);
      SavedTextNotEmpty(r.settings);
      RoundTrip(r.settings);
    }
  }

  /** Main result: after a host was typed in and saved, the next run without options, with nothing typed in, starts
      with the same settings exactly when the host was typed without blanks around it. */
  lemma {:induction false} NextRun(cfg: Arguments.Config, home: Option<string>, files: FileSystem, typed: string,
                                   r: Outcome, next: Arguments.Config, later: FileSystem, r': Outcome)
    requires Decided(cfg, home, files, typed, r) && r.Starts? && Asks(cfg, LoadFrom(cfg.configPath, home, files))
    requires later(DefaultPath(home)) == Readable(Saved(cfg, LoadFrom(cfg.configPath, home, files), true, r))
    requires Bare(next) && Decided(next, home, later, "", r')
    ensures r' == r <==> OneLine(typed)
  {
    SavedMeans(cfg, home, files, typed, true, r);
    SavedIsChosen(home, later);
    LoadKeepsPath("", home, later);
  }

  // ----- which port

  /** The port asked for last is the one connected to: with a host typed in, exactly when it is a port; otherwise exactly
      when it is a port other than 502, or is 502 or 0 and is the one in the file. */
  lemma {:induction false} PortOverrides(before: seq<Arguments.Opt>, n: int32, after: seq<Arguments.Opt>,
                                         home: Option<string>, files: FileSystem, typed: string, r: Outcome)
    requires forall o :: o in after ==> !o.Port?
    requires Decided(Arguments.Meaning(before + [Arguments.Port(n)] + after), home, files, typed, r) && r.Starts?
    ensures var cfg := Arguments.Meaning(before + [Arguments.Port(n)] + after);
      var loaded := LoadFrom(cfg.configPath, home, files);
      r.settings.modbusPort == n <==>
      if !Asks(cfg, loaded) && (n == 502 || n == 0) then loaded.value.modbusPort == n else 1 <= n <= 65535
  {
    Arguments.LastGiven(before, Arguments.Port(n), after, Arguments.PortIn, 502);
  }
}
