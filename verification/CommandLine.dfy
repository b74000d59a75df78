/**
 The text of a command line: how every option is spelled, and that the parser reads back what was spelled.
 */
module CommandLine {
  import opened Words
  import opened Arguments

  /** An option as a user means it. */
  datatype Wish =
    | AskHelp(short: bool)
    | UseConfig(path: string)
    | DoScan
    | UsePort(short: bool, arg: string)
    | RunOnce
    | PrintJson
    | Serve
    | ServeOn(arg: string)
    | Every(arg: string)
    | ShowArt
    | ConnectTo(name: string)
    | Unknown(arg: string)

  function Spelled(w: Wish): (args: seq<string>)
    ensures args != []
  {
    match w
    case AskHelp(short) => [if short then "-h" else "--help"]
    case UseConfig(path) => ["--config", path]
    case DoScan => ["--scan"]
    case UsePort(short, arg) => [if short then "-p" else "--port", arg]
    case RunOnce => ["--once"]
    case PrintJson => ["--json"]
    case Serve => ["--server"]
    case ServeOn(arg) => ["--server", arg]
    case Every(arg) => ["--interval", arg]
    case ShowArt => ["--art"]
    case ConnectTo(name) => [name]
    case Unknown(arg) => [arg]
  }

  /** What the parser should make of it. */
  function Wished(w: Wish, atoi: Atoi): Opt {
    match w
    case AskHelp(_) => Help
    case UseConfig(path) => ConfigPath(path)
    case DoScan => Scan
    case UsePort(_, arg) => Port(atoi(arg))
    case RunOnce => Once
    case PrintJson => Json
    case Serve => ServerHere
    case ServeOn(arg) => ServerOn(atoi(arg))
    case Every(arg) => Interval(atoi(arg))
    case ShowArt => Art
    case ConnectTo(name) => Host(name)
    case Unknown(_) => Nothing
  }

  predicate Dash(arg: string) {
    arg != "" && arg[0] == '-'
  }

  predicate OptionWord(arg: string) {
    || arg == "--help" || arg == "-h" || arg == "--config" || arg == "--scan" || arg == "--port" || arg == "-p"
    || arg == "--once" || arg == "--json" || arg == "--server" || arg == "--interval" || arg == "--art"
  }

  /** A host does not start with a dash, nor does the port behind --server; an unknown option does. */
  predicate Sound(w: Wish) {
    match w
    case ServeOn(arg) => !Dash(arg)
    case ConnectTo(name) => !Dash(name)
    case Unknown(arg) => Dash(arg) && !OptionWord(arg)
    case _ => true
  }

  /** A host straight behind a bare --server would be taken for its port. */
  predicate Fits(ws: seq<Wish>) {
    && (forall i :: 0 <= i < |ws| ==> Sound(ws[i]))
    && forall i :: 0 <= i < |ws| - 1 ==> !(ws[i].Serve? && ws[i + 1].ConnectTo?)
  }

  /** Nothing, or an option word at the end without its argument. */
  predicate Tail(tail: seq<string>) {
    tail == [] || tail == ["--config"] || tail == ["--port"] || tail == ["-p"] || tail == ["--interval"]
  }

  function Line(ws: seq<Wish>, tail: seq<string>): seq<string> {
    if ws == [] then tail else Spelled(ws[0]) + Line(ws[1..], tail)
  }

  function AllWished(ws: seq<Wish>, atoi: Atoi): (opts: seq<Opt>)
    ensures |opts| == |ws|
    ensures forall i :: 0 <= i < |ws| ==> opts[i] == Wished(ws[i], atoi)
  {
    if ws == [] then [] else [Wished(ws[0], atoi)] + AllWished(ws[1..], atoi)
  }

  function Unfinished(tail: seq<string>): seq<Opt> {
    if tail == [] then [] else [Nothing]
  }

  // ----- the words

  lemma {:induction false} ShortWords()
    ensures WordOf("-h") == HelpWord && WordOf("-p") == PortWord
    ensures Dash("-h") && Dash("-p")
  {
  }

  lemma {:induction false} HelpAndConfig()
    ensures WordOf("--help") == HelpWord && WordOf("--config") == ConfigWord
    ensures Dash("--help") && Dash("--config")
  {
  }

  lemma {:induction false} ScanAndPort()
    ensures WordOf("--scan") == ScanWord && WordOf("--port") == PortWord
    ensures Dash("--scan") && Dash("--port")
  {
    assert "--scan"[2] == 's' && "--port"[2] == 'p' && "--help"[2] == 'h';
  }

  lemma {:induction false} OnceAndJson()
    ensures WordOf("--once") == OnceWord && WordOf("--json") == JsonWord
    ensures Dash("--once") && Dash("--json")
  {
    assert "--once"[2] == 'o' && "--json"[2] == 'j' && "--scan"[2] == 's' && "--port"[2] == 'p' && "--help"[2] == 'h';
  }

  lemma {:induction false} ServerAndInterval()
    ensures WordOf("--server") == ServerWord && WordOf("--interval") == IntervalWord
    ensures Dash("--server") && Dash("--interval")
  {
    assert "--server"[2] == 's' && "--config"[2] == 'c';
  }

  lemma {:induction false} ArtWordIs()
    ensures WordOf("--art") == ArtWord && Dash("--art")
  {
  }

  lemma {:induction false} OtherWord(arg: string)
    requires !OptionWord(arg)
    ensures WordOf(arg) == if Dash(arg) then Dashed else Plain
  {
  }

  lemma {:induction false} WordsDash(arg: string)
    requires OptionWord(arg)
    ensures Dash(arg)
  {
  }

  // ----- reading back

  /** The word an option starts with. */
  function HeadWord(w: Wish): Word {
    match w
    case AskHelp(_) => HelpWord
    case UseConfig(_) => ConfigWord
    case DoScan => ScanWord
    case UsePort(_, _) => PortWord
    case RunOnce => OnceWord
    case PrintJson => JsonWord
    case Serve => ServerWord
    case ServeOn(_) => ServerWord
    case Every(_) => IntervalWord
    case ShowArt => ArtWord
    case ConnectTo(_) => Plain
    case Unknown(_) => Dashed
  }

  lemma {:induction false} HeadRead(w: Wish)
    requires Sound(w)
    ensures WordOf(Spelled(w)[0]) == HeadWord(w)
    ensures !w.ConnectTo? ==> Dash(Spelled(w)[0])
  {
    match w
    case AskHelp(_) => ShortWords(); HelpAndConfig();
    case UseConfig(_) => HelpAndConfig();
    case DoScan => ScanAndPort();
    case UsePort(_, _) => ShortWords(); ScanAndPort();
    case RunOnce => OnceAndJson();
    case PrintJson => OnceAndJson();
    case Serve => ServerAndInterval();
    case ServeOn(_) => ServerAndInterval();
    case Every(_) => ServerAndInterval();
    case ShowArt => ArtWordIs();
    case ConnectTo(name) => NoOptionWord(name);
    case Unknown(arg) => OtherWord(arg);
  }

  lemma {:induction false} NoOptionWord(name: string)
    requires !Dash(name)
    ensures WordOf(name) == Plain
  {
    if OptionWord(name) {
      WordsDash(name);
    }
    OtherWord(name);
  }

  lemma {:induction false} WishLexeme(w: Wish, next: seq<string>, atoi: Atoi)
    requires Sound(w) && (w.Serve? && next != [] ==> Dash(next[0]))
    ensures LexemeAt(Spelled(w)[0], Spelled(w)[1..] + next, atoi) == Lexeme(Wished(w, atoi), |Spelled(w)|)
  {
    HeadRead(w);
    assert |Spelled(w)| == 2 ==> (Spelled(w)[1..] + next)[0] == Spelled(w)[1];
    assert |Spelled(w)| == 1 ==> Spelled(w)[1..] + next == next;
  }

  lemma {:induction false} OneLexeme(args: seq<string>, opt: Opt, width: nat, atoi: Atoi)
    requires args != [] && LexemeAt(args[0], args[1..], atoi) == Lexeme(opt, width) && 1 <= width <= |args|
    ensures Options(args, atoi) == [opt] + Options(args[width..], atoi)
  {
  }

  /** One option in front of other arguments. */
  lemma {:induction false} FirstRead(w: Wish, next: seq<string>, atoi: Atoi)
    requires Sound(w) && (w.Serve? && next != [] ==> Dash(next[0]))
    ensures Options(Spelled(w) + next, atoi) == [Wished(w, atoi)] + Options(next, atoi)
  {
    var args := Spelled(w) + next;
    WishLexeme(w, next, atoi);
    assert args[0] == Spelled(w)[0] && args[1..] == Spelled(w)[1..] + next;
    OneLexeme(args, Wished(w, atoi), |Spelled(w)|, atoi);
    assert args[|Spelled(w)|..] == next;
  }

  lemma {:induction false} TailRead(tail: seq<string>, atoi: Atoi)
    requires Tail(tail)
    ensures Options(tail, atoi) == Unfinished(tail) && (tail != [] ==> Dash(tail[0]))
  {
    if tail != [] {
      ShortWords();
      HelpAndConfig();
      ScanAndPort();
      ServerAndInterval();
      assert tail[1..] == [];
      OneLexeme(tail, Nothing, 1, atoi);
    }
  }

  lemma {:induction false} LineHead(ws: seq<Wish>, tail: seq<string>)
    requires Fits(ws) && Tail(tail) && Line(ws, tail) != [] && (ws != [] ==> !ws[0].ConnectTo?)
    ensures Dash(Line(ws, tail)[0])
  {
    if ws == [] {
      TailRead(tail, _ => 0);
    } else {
      HeadRead(ws[0]);
    }
  }

  lemma {:induction false} FitsRest(ws: seq<Wish>)
    requires Fits(ws) && ws != []
    ensures Fits(ws[1..])
  {
  }

  /** What follows a bare --server starts with a dash. */
  lemma {:induction false} NextDashes(ws: seq<Wish>, tail: seq<string>)
    requires Fits(ws) && Tail(tail) && ws != []
    ensures var next := Line(ws[1..], tail); ws[0].Serve? && next != [] ==> Dash(next[0])
  {
    FitsRest(ws);
    if ws[0].Serve? && Line(ws[1..], tail) != [] {
      assert |ws| > 1 ==> !ws[1].ConnectTo?;
      LineHead(ws[1..], tail);
    }
  }

  lemma {:induction false} LineCons(ws: seq<Wish>, tail: seq<string>, atoi: Atoi)
    requires ws != []
    ensures Line(ws, tail) == Spelled(ws[0]) + Line(ws[1..], tail)
    ensures AllWished(ws, atoi) == [Wished(ws[0], atoi)] + AllWished(ws[1..], atoi)
  {
  }

  lemma {:induction false} Regroup(o: Opt, a: seq<Opt>, b: seq<Opt>)
    ensures [o] + (a + b) == ([o] + a) + b
  {
  }

  /** Main result: the parser reads back whatever options were spelled, in order; an option word at the end that lacks
      its argument means nothing. */
  lemma {:induction false} ReadBack(ws: seq<Wish>, tail: seq<string>, atoi: Atoi)
    requires Fits(ws) && Tail(tail)
    ensures Options(Line(ws, tail), atoi) == AllWished(ws, atoi) + Unfinished(tail)
  {
    if ws == [] {
      TailRead(tail, atoi);
    } else {
      var rest := ws[1..];
      FitsRest(ws);
      NextDashes(ws, tail);
      LineCons(ws, tail, atoi);
      FirstRead(ws[0], Line(rest, tail), atoi);
      ReadBack(rest, tail, atoi);
      Regroup(Wished(ws[0], atoi), AllWished(rest, atoi), Unfinished(tail));
    }
  }

  // ----- every command line is spelled

  lemma {:induction false} SpelledCons(w: Wish, ws: seq<Wish>, tail: seq<string>)
    requires Sound(w) && Fits(ws) && (w.Serve? && ws != [] ==> !ws[0].ConnectTo?)
    ensures Fits([w] + ws) && Line([w] + ws, tail) == Spelled(w) + Line(ws, tail)
  {
    assert ([w] + ws)[1..] == ws;
  }

  /** The option at the start of the arguments, unless it lacks its argument. */
  function FirstWish(args: seq<string>): (w: Option<Wish>)
    requires args != []
    ensures w.Some? ==> Sound(w.value) && Spelled(w.value) <= args
    ensures w.Some? && w.value.Serve? && |args| > 1 ==> Dash(args[1])
    ensures w.None? ==> Tail(args)
  {
    var arg := args[0];
    if !OptionWord(arg) then Some(if Dash(arg) then Unknown(arg) else ConnectTo(arg))
    else if arg == "-h" then Some(AskHelp(true))
    else if arg == "--help" then Some(AskHelp(false))
    else if arg == "--scan" then Some(DoScan)
    else if arg == "--once" then Some(RunOnce)
    else if arg == "--json" then Some(PrintJson)
    else if arg == "--art" then Some(ShowArt)
    else if |args| == 1 then if arg == "--server" then Some(Serve) else None
    else if arg == "--server" then Some(if Dash(args[1]) then Serve else ServeOn(args[1]))
    else if arg == "--config" then Some(UseConfig(args[1]))
    else if arg == "--interval" then Some(Every(args[1]))
    else Some(UsePort(arg == "-p", args[1]))
  }

  lemma {:induction false} LineStarts(ws: seq<Wish>, tail: seq<string>)
    requires ws != []
    ensures Line(ws, tail) != [] && Line(ws, tail)[0] == Spelled(ws[0])[0]
  {
  }

  /** Whatever the arguments, they are some list of options spelled out, so reading back says what every command line
      means. */
  lemma {:induction false} EveryLineIsSpelled(args: seq<string>) returns (ws: seq<Wish>, tail: seq<string>)
    ensures Fits(ws) && Tail(tail) && Line(ws, tail) == args
    decreases |args|
  {
    if args == [] || FirstWish(args) == None {
      ws, tail := [], args;
    } else {
      var w := FirstWish(args).value;
      var next := args[|Spelled(w)|..];
      ws, tail := EveryLineIsSpelled(next);
      if w.Serve? && ws != [] {
        LineStarts(ws, tail);
        assert next[0] == args[1];
      }
      SpelledCons(w, ws, tail);
      ws := [w] + ws;
      assert args == Spelled(w) + next;
    }
  }

  // ----- what the text means

  /** The settings of a command line. */
  function Meant(ws: seq<Wish>, tail: seq<string>, atoi: Atoi): Config {
    Meaning(Options(Line(ws, tail), atoi))
  }

  lemma {:induction false} WishedIn(ws: seq<Wish>, tail: seq<string>, atoi: Atoi, o: Opt)
    requires Fits(ws) && Tail(tail) && !o.Nothing?
    ensures o in Options(Line(ws, tail), atoi) <==> exists w :: w in ws && Wished(w, atoi) == o
  {
    ReadBack(ws, tail, atoi);
    var opts := AllWished(ws, atoi);
    if o in opts {
      var i :| 0 <= i < |opts| && opts[i] == o;
      assert ws[i] in ws;
    }
    if w :| w in ws && Wished(w, atoi) == o {
      var i :| 0 <= i < |ws| && ws[i] == w;
      assert opts[i] == o;
    }
  }

  lemma {:induction false} OneWish(ws: seq<Wish>, tail: seq<string>, atoi: Atoi, o: Opt, w: Wish)
    requires Fits(ws) && Tail(tail) && !o.Nothing?
    requires forall x :: Wished(x, atoi) == o <==> x == w
    ensures o in Options(Line(ws, tail), atoi) <==> w in ws
  {
    WishedIn(ws, tail, atoi, o);
    if w in ws {
      assert Wished(w, atoi) == o;
    }
  }

  lemma {:induction false} HelpWished(ws: seq<Wish>, tail: seq<string>, atoi: Atoi)
    requires Fits(ws) && Tail(tail)
    ensures Help in Options(Line(ws, tail), atoi) <==> AskHelp(true) in ws || AskHelp(false) in ws
  {
    WishedIn(ws, tail, atoi, Help);
    assert Wished(AskHelp(true), atoi) == Help && Wished(AskHelp(false), atoi) == Help;
    if w :| w in ws && Wished(w, atoi) == Help {
      assert w == AskHelp(true) || w == AskHelp(false);
    }
  }

  lemma {:induction false} SimpleWishes(atoi: Atoi)
    ensures forall x :: Wished(x, atoi) == Once <==> x == RunOnce
    ensures forall x :: Wished(x, atoi) == Json <==> x == PrintJson
    ensures forall x :: Wished(x, atoi) == Scan <==> x == DoScan
    ensures forall x :: Wished(x, atoi) == Art <==> x == ShowArt
  {
  }

  /** Each switch is on exactly when one of its words was given. */
  lemma {:induction false} SwitchesIff(ws: seq<Wish>, tail: seq<string>, atoi: Atoi)
    requires Fits(ws) && Tail(tail)
    ensures Meant(ws, tail, atoi).once <==> RunOnce in ws
    ensures Meant(ws, tail, atoi).json <==> PrintJson in ws
    ensures Meant(ws, tail, atoi).scan <==> DoScan in ws
    ensures Meant(ws, tail, atoi).art <==> ShowArt in ws
    ensures Meant(ws, tail, atoi).help <==> AskHelp(true) in ws || AskHelp(false) in ws
  {
    SimpleWishes(atoi);
    OneWish(ws, tail, atoi, Once, RunOnce);
    OneWish(ws, tail, atoi, Json, PrintJson);
    OneWish(ws, tail, atoi, Scan, DoScan);
    OneWish(ws, tail, atoi, Art, ShowArt);
    HelpWished(ws, tail, atoi);
  }

  predicate ServerWish(w: Wish) {
    w.Serve? || w.ServeOn?
  }

  predicate ServerOpt(o: Opt) {
    o.ServerHere? || o.ServerOn?
  }

  lemma {:induction false} ServerWished(ws: seq<Wish>, tail: seq<string>, atoi: Atoi, i: nat)
    ensures var all := AllWished(ws, atoi) + Unfinished(tail);
      (i < |ws| && ServerWish(ws[i])) <==> (i < |all| && ServerOpt(all[i]))
  {
  }

  lemma {:induction false} ServerMeant(opts: seq<Opt>)
    ensures Meaning(opts).server <==> exists i: nat :: i < |opts| && ServerOpt(opts[i])
  {
    if i: nat :| i < |opts| && ServerOpt(opts[i]) {
      assert opts[i] in opts;
    }
  }

  /** The server runs exactly when --server was given, with or without a port. */
  lemma {:induction false} ServerIff(ws: seq<Wish>, tail: seq<string>, atoi: Atoi)
    requires Fits(ws) && Tail(tail)
    ensures Meant(ws, tail, atoi).server <==> exists i: nat :: i < |ws| && ServerWish(ws[i])
  {
    var all := AllWished(ws, atoi) + Unfinished(tail);
    ReadBack(ws, tail, atoi);
    ServerMeant(all);
    if i: nat :| i < |ws| && ServerWish(ws[i]) {
      ServerWished(ws, tail, atoi, i);
    }
    if i: nat :| i < |all| && ServerOpt(all[i]) {
      ServerWished(ws, tail, atoi, i);
    }
  }

  lemma {:induction false} AllWishedConcat(a: seq<Wish>, w: Wish, b: seq<Wish>, atoi: Atoi)
    ensures AllWished(a + [w] + b, atoi) == AllWished(a, atoi) + [Wished(w, atoi)] + AllWished(b, atoi)
  {
  }

  /** None of these options gives a value. */
  ghost predicate Silent<T>(ws: seq<Wish>, atoi: Atoi, value: Opt -> Option<T>) {
    value(Nothing).None? && forall w :: w in ws ==> value(Wished(w, atoi)).None?
  }

  lemma {:induction false} SilentOpts<T>(ws: seq<Wish>, tail: seq<string>, atoi: Atoi, value: Opt -> Option<T>)
    requires Silent(ws, atoi, value)
    ensures forall o :: o in AllWished(ws, atoi) + Unfinished(tail) ==> value(o).None?
  {
    var opts := AllWished(ws, atoi) + Unfinished(tail);
    forall o | o in opts
      ensures value(o).None?
    {
      var i :| 0 <= i < |opts| && opts[i] == o;
      assert i < |ws| ==> ws[i] in ws;
    }
  }

  lemma {:induction false} LineOptions(before: seq<Wish>, w: Wish, after: seq<Wish>, tail: seq<string>, atoi: Atoi)
    requires Fits(before + [w] + after) && Tail(tail)
    ensures Options(Line(before + [w] + after, tail), atoi) ==
      AllWished(before, atoi) + [Wished(w, atoi)] + (AllWished(after, atoi) + Unfinished(tail))
  {
    ReadBack(before + [w] + after, tail, atoi);
    AllWishedConcat(before, w, after, atoi);
  }

  /** An option that gives a value, with none behind it that gives one of the same kind. */
  lemma {:induction false} LastWish<T>(before: seq<Wish>, w: Wish, after: seq<Wish>, tail: seq<string>, atoi: Atoi,
                                       value: Opt -> Option<T>, otherwise: T)
    requires Fits(before + [w] + after) && Tail(tail)
    requires value(Wished(w, atoi)).Some? && Silent(after, atoi, value)
    ensures Last(Options(Line(before + [w] + after, tail), atoi), value, otherwise) == value(Wished(w, atoi)).value
  {
    LineOptions(before, w, after, tail, atoi);
    SilentOpts(after, tail, atoi, value);
    LastGiven(AllWished(before, atoi), Wished(w, atoi), AllWished(after, atoi) + Unfinished(tail), value, otherwise);
  }

  /** The last host and the last path given are the ones used. */
  lemma {:induction false} TextsGiven(before: seq<Wish>, w: Wish, after: seq<Wish>, tail: seq<string>, atoi: Atoi)
    requires Fits(before + [w] + after) && Tail(tail)
    ensures w.ConnectTo? && (forall x :: x in after ==> !x.ConnectTo?) ==>
      Meant(before + [w] + after, tail, atoi).host == w.name
    ensures w.UseConfig? && (forall x :: x in after ==> !x.UseConfig?) ==>
      Meant(before + [w] + after, tail, atoi).configPath == w.path
  {
    if w.ConnectTo? && forall x :: x in after ==> !x.ConnectTo? {
      LastWish(before, w, after, tail, atoi, HostIn, "");
    }
    if w.UseConfig? && forall x :: x in after ==> !x.UseConfig? {
      LastWish(before, w, after, tail, atoi, PathIn, "");
    }
  }

  /** So are the last numbers: a port modulo 65536 or 502, a server port in range or 8080, a rate kept within 1 to 60. */
  lemma {:induction false} NumbersGiven(before: seq<Wish>, w: Wish, after: seq<Wish>, tail: seq<string>, atoi: Atoi)
    requires Fits(before + [w] + after) && Tail(tail)
    ensures w.UsePort? && (forall x :: x in after ==> !x.UsePort?) ==>
      var n := atoi(w.arg) % 65536;
      Meant(before + [w] + after, tail, atoi).modbusPort == if n == 0 then 502 else n
    ensures w.ServeOn? && (forall x :: x in after ==> !x.ServeOn?) ==>
      var n := atoi(w.arg);
      Meant(before + [w] + after, tail, atoi).serverPort == if 1 <= n <= 65535 then n else 8080
    ensures w.Every? && (forall x :: x in after ==> !x.Every?) ==>
      var n := atoi(w.arg);
      Meant(before + [w] + after, tail, atoi).refreshHz == if n < 1 then 1 else if n > 60 then 60 else n
  {
    if w.UsePort? && forall x :: x in after ==> !x.UsePort? {
      LastWish(before, w, after, tail, atoi, PortIn, 502);
    }
    if w.ServeOn? && forall x :: x in after ==> !x.ServeOn? {
      LastWish(before, w, after, tail, atoi, ServerPortIn, 8080);
    }
    if w.Every? && forall x :: x in after ==> !x.Every? {
      LastWish(before, w, after, tail, atoi, RateIn, 1);
    }
  }

  lemma {:induction false} LastNone<T>(opts: seq<Opt>, value: Opt -> Option<T>, otherwise: T)
    requires forall o :: o in opts ==> value(o).None?
    ensures Last(opts, value, otherwise) == otherwise
  {
    if opts != [] {
      LastNone(opts[..|opts| - 1], value, otherwise);
    }
  }

  lemma {:induction false} NoWish<T>(ws: seq<Wish>, tail: seq<string>, atoi: Atoi,
                                     value: Opt -> Option<T>, otherwise: T)
    requires Fits(ws) && Tail(tail) && Silent(ws, atoi, value)
    ensures Last(Options(Line(ws, tail), atoi), value, otherwise) == otherwise
  {
    ReadBack(ws, tail, atoi);
    SilentOpts(ws, tail, atoi, value);
    LastNone(AllWished(ws, atoi) + Unfinished(tail), value, otherwise);
  }

  /** What is not given has its default. */
  lemma {:induction false} TextsNotGiven(ws: seq<Wish>, tail: seq<string>, atoi: Atoi)
    requires Fits(ws) && Tail(tail)
    ensures (forall w :: w in ws ==> !w.ConnectTo?) ==> Meant(ws, tail, atoi).host == ""
    ensures (forall w :: w in ws ==> !w.UseConfig?) ==> Meant(ws, tail, atoi).configPath == ""
  {
    if forall w :: w in ws ==> !w.ConnectTo? {
      NoWish(ws, tail, atoi, HostIn, "");
    }
    if forall w :: w in ws ==> !w.UseConfig? {
      NoWish(ws, tail, atoi, PathIn, "");
    }
  }

  lemma {:induction false} PortsNotGiven(ws: seq<Wish>, tail: seq<string>, atoi: Atoi)
    requires Fits(ws) && Tail(tail)
    ensures (forall w :: w in ws ==> !w.UsePort?) ==> Meant(ws, tail, atoi).modbusPort == 502
    ensures (forall w :: w in ws ==> !w.ServeOn?) ==> Meant(ws, tail, atoi).serverPort == 8080
  {
    if forall w :: w in ws ==> !w.UsePort? {
      NoWish(ws, tail, atoi, PortIn, 502);
    }
    if forall w :: w in ws ==> !w.ServeOn? {
      NoWish(ws, tail, atoi, ServerPortIn, 8080);
    }
  }

  lemma {:induction false} RateNotGiven(ws: seq<Wish>, tail: seq<string>, atoi: Atoi)
    requires Fits(ws) && Tail(tail)
    ensures (forall w :: w in ws ==> !w.Every?) ==> Meant(ws, tail, atoi).refreshHz == 1
  {
    if forall w :: w in ws ==> !w.Every? {
      NoWish(ws, tail, atoi, RateIn, 1);
    }
  }
}
