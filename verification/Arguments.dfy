/**
 The command line: one pass over the arguments, in which some options consume the argument behind them.

 `atoi` is a parameter. An argument is a text without its terminating zero, so the first character of the empty
 one counts as different from '-'.
 */
module Arguments {
  import opened Words

  datatype Config = Config(
    host: string,
    refreshHz: int32,
    modbusPort: u16,
    once: bool,
    json: bool,
    server: bool,
    serverPort: int32,
    help: bool,
    scan: bool,
    art: bool,
    configPath: string)

  const DEFAULTS := Config("", 1, 502, false, false, false, 8080, false, false, false, "")

  type Atoi = string -> int32

  predicate IsDashed(arg: string) {
    arg != "" && arg[0] == '-'
  }

  /** The argument of --port: cut to 16 bits, and 0 replaced. */
  function PortOf(n: int32): u16 {
    if ToU16(n) < 1 then 502 else ToU16(n)
  }

  /** The argument of --server. */
  function ServerPortOf(n: int32): int32 {
    if n < 1 || n > 65535 then 8080 else n
  }

  /** The argument of --interval. */
  function RateOf(n: int32): int32 {
    if n < 1 then 1 else if n > 60 then 60 else n
  }

  // ----- the options on the command line

  datatype Opt =
    | Help | Scan | Once | Json | Art
    | ConfigPath(path: string)
    | Port(n: int32)
    | ServerHere
    | ServerOn(n: int32)
    | Interval(n: int32)
    | Host(name: string)
    | Nothing

  /** An option and the number of arguments it takes up. */
  datatype Lexeme = Lexeme(opt: Opt, width: nat)

  /** What an argument is compared with. */
  datatype Word =
    | HelpWord | ConfigWord | ScanWord | PortWord | OnceWord | JsonWord
    | ServerWord | IntervalWord | ArtWord | Plain | Dashed

  function WordOf(arg: string): Word {
    if arg == "--help" || arg == "-h" then HelpWord
    else if arg == "--config" then ConfigWord
    else if arg == "--scan" then ScanWord
    else if arg == "--port" || arg == "-p" then PortWord
    else if arg == "--once" then OnceWord
    else if arg == "--json" then JsonWord
    else if arg == "--server" then ServerWord
    else if arg == "--interval" then IntervalWord
    else if arg == "--art" then ArtWord
    else if IsDashed(arg) then Dashed
    else Plain
  }

  /** The option that starts at an argument; `next` are the arguments behind it. */
  function LexemeOf(word: Word, arg: string, next: seq<string>, atoi: Atoi): Lexeme {
    match word
    case HelpWord => Lexeme(Help, 1)
    case ConfigWord => if next != [] then Lexeme(ConfigPath(next[0]), 2) else Lexeme(Nothing, 1)
    case ScanWord => Lexeme(Scan, 1)
    case PortWord => if next != [] then Lexeme(Port(atoi(next[0])), 2) else Lexeme(Nothing, 1)
    case OnceWord => Lexeme(Once, 1)
    case JsonWord => Lexeme(Json, 1)
    case ServerWord =>
      if next != [] && !IsDashed(next[0]) then Lexeme(ServerOn(atoi(next[0])), 2) else Lexeme(ServerHere, 1)
    case IntervalWord => if next != [] then Lexeme(Interval(atoi(next[0])), 2) else Lexeme(Nothing, 1)
    case ArtWord => Lexeme(Art, 1)
    case Plain => Lexeme(Host(arg), 1)
    case Dashed => Lexeme(Nothing, 1)
  }

  function LexemeAt(arg: string, next: seq<string>, atoi: Atoi): Lexeme {
    LexemeOf(WordOf(arg), arg, next, atoi)
  }

  /** The options of a list of arguments. */
  function Options(args: seq<string>, atoi: Atoi): seq<Opt>
    decreases |args|
  {
    if args == [] then []
    else
      var l := LexemeAt(args[0], args[1..], atoi);
      [l.opt] + if 1 <= l.width <= |args| then Options(args[l.width..], atoi) else []
  }

  // ----- what the options mean

  /** The value the last option with one gives, or the default. */
  function Last<T>(opts: seq<Opt>, value: Opt -> Option<T>, otherwise: T): T {
    if opts == [] then otherwise
    else
      match value(opts[|opts| - 1])
      case Some(v) => v
      case None => Last(opts[..|opts| - 1], value, otherwise)
  }

  function HostIn(o: Opt): Option<string> { if o.Host? then Some(o.name) else None }
  function RateIn(o: Opt): Option<int32> { if o.Interval? then Some(RateOf(o.n)) else None }
  function PortIn(o: Opt): Option<u16> { if o.Port? then Some(PortOf(o.n)) else None }
  function ServerPortIn(o: Opt): Option<int32> { if o.ServerOn? then Some(ServerPortOf(o.n)) else None }
  function PathIn(o: Opt): Option<string> { if o.ConfigPath? then Some(o.path) else None }

  /** Every setting is what its last option says, and a switch is on when its option occurs. */
  function Meaning(opts: seq<Opt>): Config {
    Config(
      Last(opts, HostIn, ""),
      Last(opts, RateIn, 1),
      Last(opts, PortIn, 502),
      Once in opts,
      Json in opts,
      exists o :: o in opts && (o.ServerHere? || o.ServerOn?),
      Last(opts, ServerPortIn, 8080),
      Help in opts,
      Scan in opts,
      Art in opts,
      Last(opts, PathIn, ""))
  }

  lemma {:induction false} LastHolds<T>(opts: seq<Opt>, value: Opt -> Option<T>, otherwise: T, good: T -> bool)
    requires good(otherwise) && forall o :: value(o).Some? ==> good(value(o).value)
    ensures good(Last(opts, value, otherwise))
  {
    if opts != [] && value(opts[|opts| - 1]).None? {
      LastHolds(opts[..|opts| - 1], value, otherwise, good);
    }
  }

  /** Whatever the command line says, the rate and the ports are usable. */
  lemma {:induction false} MeaningInRange(opts: seq<Opt>)
    ensures var cfg := Meaning(opts);
      1 <= cfg.refreshHz <= 60 && 1 <= cfg.modbusPort && 1 <= cfg.serverPort <= 65535
  {
    LastHolds(opts, RateIn, 1, n => 1 <= n <= 60);
    LastHolds(opts, PortIn, 502, n => 1 <= n);
    LastHolds(opts, ServerPortIn, 8080, n => 1 <= n <= 65535);
  }

  /** The value of the last option that gives one. */
  lemma {:induction false} LastGiven<T>(before: seq<Opt>, o: Opt, after: seq<Opt>, value: Opt -> Option<T>, otherwise: T)
    requires value(o).Some? && forall x :: x in after ==> value(x).None?
    ensures Last(before + [o] + after, value, otherwise) == value(o).value
    decreases |after|
  {
    var opts := before + [o] + after;
    if after == [] {
      assert opts == before + [o];
    } else {
      var last := |after| - 1;
      assert opts[..|opts| - 1] == before + [o] + after[..last];
      assert opts[|opts| - 1] == after[last];
      LastGiven(before, o, after[..last], value, otherwise);
    }
  }

  function Distance(x: int, y: int): nat {
    if x < y then y - x else x - y
  }

  /** The rate is the usable one nearest to the one asked for last. */
  lemma {:induction false} NearestRate(before: seq<Opt>, n: int32, after: seq<Opt>)
    requires forall o :: o in after ==> !o.Interval?
    ensures var rate := Meaning(before + [Interval(n)] + after).refreshHz;
      1 <= rate <= 60 && forall m :: 1 <= m <= 60 ==> Distance(rate, n) <= Distance(m, n)
  {
    LastGiven(before, Interval(n), after, RateIn, 1);
  }

  /** The server port asked for last is the one used exactly when it is a port, and otherwise it is 8080. */
  lemma {:induction false} ServerPortIff(before: seq<Opt>, n: int32, after: seq<Opt>)
    requires forall o :: o in after ==> !o.ServerOn?
    ensures var port := Meaning(before + [ServerOn(n)] + after).serverPort;
      (port == n <==> 1 <= n <= 65535) && (port == n || port == 8080)
  {
    LastGiven(before, ServerOn(n), after, ServerPortIn, 8080);
  }

  /** One more option. */
  function Step(cfg: Config, o: Opt): Config {
    match o
    case Help => cfg.(help := true)
    case Scan => cfg.(scan := true)
    case Once => cfg.(once := true)
    case Json => cfg.(json := true)
    case Art => cfg.(art := true)
    case ConfigPath(path) => cfg.(configPath := path)
    case Port(n) => cfg.(modbusPort := PortOf(n))
    case ServerHere => cfg.(server := true)
    case ServerOn(n) => cfg.(server := true, serverPort := ServerPortOf(n))
    case Interval(n) => cfg.(refreshHz := RateOf(n))
    case Host(name) => cfg.(host := name)
    case Nothing => cfg
  }

  lemma {:induction false} MeaningOfOneMore(opts: seq<Opt>, o: Opt)
    ensures Meaning(opts + [o]) == Step(Meaning(opts), o)
  {
    assert (opts + [o])[..|opts|] == opts;
    assert o in opts + [o];
  }

  lemma {:induction false} WidthFits(arg: string, next: seq<string>, atoi: Atoi)
    ensures 1 <= LexemeAt(arg, next, atoi).width <= 1 + |next|
  {
  }

  function Fold(cfg: Config, opts: seq<Opt>): Config {
    if opts == [] then cfg else Step(Fold(cfg, opts[..|opts| - 1]), opts[|opts| - 1])
  }

  /** Taking the options one by one gives every setting its last option. */
  lemma {:induction false} FoldIsMeaning(opts: seq<Opt>)
    ensures Fold(DEFAULTS, opts) == Meaning(opts)
  {
    if opts != [] {
      var last := |opts| - 1;
      FoldIsMeaning(opts[..last]);
      MeaningOfOneMore(opts[..last], opts[last]);
      assert opts[..last] + [opts[last]] == opts;
    }
  }

  lemma {:induction false} FoldFirst(cfg: Config, o: Opt, opts: seq<Opt>)
    ensures Fold(cfg, [o] + opts) == Fold(Step(cfg, o), opts)
  {
    var all := [o] + opts;
    if opts == [] {
      assert all[..0] == [];
    } else {
      assert all[..|all| - 1] == [o] + opts[..|opts| - 1];
      FoldFirst(cfg, o, opts[..|opts| - 1]);
    }
  }

  // ----- the loop

  /** The configuration after the arguments from the i-th on. */
  function Rest(args: seq<string>, i: nat, cfg: Config, atoi: Atoi): Config
    requires i <= |args|
  {
    Fold(cfg, Options(args[i..], atoi))
  }

  lemma {:induction false} RestUnfolds(args: seq<string>, i: nat, cfg: Config, atoi: Atoi)
    requires i < |args|
    ensures var l := LexemeAt(args[i], args[i + 1..], atoi);
      1 <= l.width <= |args| - i && Rest(args, i, cfg, atoi) == Rest(args, i + l.width, Step(cfg, l.opt), atoi)
  {
    var rest := args[i..];
    var l := LexemeAt(args[i], args[i + 1..], atoi);
    assert rest[1..] == args[i + 1..];
    WidthFits(args[i], args[i + 1..], atoi);
    assert rest[l.width..] == args[i + l.width..];
    FoldFirst(cfg, l.opt, Options(args[i + l.width..], atoi));
  }

  method TakePort(n: int32) returns (port: u16)
    ensures port == PortOf(n)
  {
    port := ToU16(n);
    if port < 1 {
      port := 502;
    }
  }

  method TakeServerPort(n: int32) returns (port: int32)
    ensures port == ServerPortOf(n)
  {
    port := n;
    if port < 1 || port > 65535 {
      port := 8080;
    }
  }

  method TakeRate(n: int32) returns (rate: int32)
    ensures rate == RateOf(n)
  {
    rate := n;
    if rate < 1 {
      rate := 1;
    }
    if rate > 60 {
      rate := 60;
    }
  }

  /** The body of the loop: the new configuration, and the last argument taken. */
  method ParseOne(args: seq<string>, at: nat, word: Word, before: Config, atoi: Atoi) returns (cfg: Config, i: nat)
    requires at < |args|
    ensures var l := LexemeOf(word, args[at], args[at + 1..], atoi);
      cfg == Step(before, l.opt) && i + 1 == at + l.width
  {
    cfg, i := before, at;
    var argc := |args|;
    if word.HelpWord? {
      cfg := cfg.(help := true);
    } else if word.ConfigWord? {
      if i + 1 < argc {
        i := i + 1;
        cfg := cfg.(configPath := args[i]);
      }
    } else if word.ScanWord? {
      cfg := cfg.(scan := true);
    } else if word.PortWord? {
      if i + 1 < argc {
        i := i + 1;
        var port := TakePort(atoi(args[i]));
        cfg := cfg.(modbusPort := port);
      }
    } else if word.OnceWord? {
      cfg := cfg.(once := true);
    } else if word.JsonWord? {
      cfg := cfg.(json := true);
    } else if word.ServerWord? {
      cfg := cfg.(server := true);
      if i + 1 < argc && !IsDashed(args[i + 1]) {
        i := i + 1;
        var port := TakeServerPort(atoi(args[i]));
        cfg := cfg.(serverPort := port);
      }
    } else if word.IntervalWord? && i + 1 < argc {
      i := i + 1;
      var rate := TakeRate(atoi(args[i]));
      cfg := cfg.(refreshHz := rate);
    } else if word.ArtWord? {
      cfg := cfg.(art := true);
    } else if word.Plain? {
      cfg := cfg.(host := args[i]);
    }
  }

  method ParseNext(args: seq<string>, at: nat, before: Config, atoi: Atoi) returns (cfg: Config, i: nat)
    requires at < |args|
    ensures at <= i < |args|
    ensures Rest(args, i + 1, cfg, atoi) == Rest(args, at, before, atoi)
  {
    RestUnfolds(args, at, before, atoi);
    cfg, i := ParseOne(args, at, WordOf(args[at]), before, atoi);
  }

  /** The arguments behind the program name. */
  method ParseArgs(args: seq<string>, atoi: Atoi) returns (cfg: Config)
    ensures cfg == Meaning(Options(args, atoi))
  {
    cfg := DEFAULTS;
    var i := 0;
    while i < |args|
      invariant 0 <= i <= |args|
      invariant Rest(args, i, cfg, atoi) == Rest(args, 0, DEFAULTS, atoi)
    {
      cfg, i := ParseNext(args, i, cfg, atoi);
      i := i + 1;
    }
    assert args[0..] == args;
    FoldIsMeaning(Options(args, atoi));
  }
}
