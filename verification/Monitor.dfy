/** A run of the monitor: the command line feeds the refresh loop. */
module Monitor {
  import opened Words
  import Arguments
  import ConfigLoader
  import Pacing
  import Startup

  /** The fetches of a connected monitor, in terminal or in server mode; the server loop knows no --once. */
  method Run(args: seq<string>, atoi: Arguments.Atoi, start: int, clock: seq<int>) returns (fetched: seq<int>)
    requires Pacing.Monotone(start, clock)
    ensures var cfg := Arguments.Meaning(Arguments.Options(args, atoi));
      1 <= cfg.refreshHz <= 60 &&
      fetched == if cfg.once && !cfg.server then clock[..if clock == [] then 0 else 1]
                 else Pacing.Fetches(start, clock, Pacing.Wait(cfg.refreshHz))
  {
    var cfg := Arguments.ParseArgs(args, atoi);
    Arguments.MeaningInRange(Arguments.Options(args, atoi));
    if !cfg.server {
      fetched := Pacing.RefreshLoop(start, clock, cfg.refreshHz, cfg.once);
    } else {
      fetched := Pacing.RefreshLoop(start, clock, cfg.refreshHz, false);
    }
  }

  /** Whatever the command line and the clock: the fetches, times the interval, fit into the elapsed milliseconds. */
  lemma {:induction false} RunKeepsInterval(args: seq<string>, atoi: Arguments.Atoi, start: int, clock: seq<int>)
    requires Pacing.Monotone(start, clock)
    ensures var hz := Arguments.Meaning(Arguments.Options(args, atoi)).refreshHz;
      1 <= hz <= 60 && Pacing.End(start, clock) >= start &&
      |Pacing.Fetches(start, clock, Pacing.Wait(hz))| * Pacing.Interval(hz)
        <= Pacing.Milliseconds(Pacing.End(start, clock) - start)
  {
    Arguments.MeaningInRange(Arguments.Options(args, atoi));
    var hz := Arguments.Meaning(Arguments.Options(args, atoi)).refreshHz;
    var n, time := |Pacing.Fetches(start, clock, Pacing.Wait(hz))|, Pacing.End(start, clock) - start;
    Pacing.NotTooOften(start, clock, Pacing.Wait(hz));
    InMilliseconds(n, Pacing.Interval(hz), time);
  }

  lemma {:induction false} InMilliseconds(n: nat, ms: nat, time: int)
    requires n * (ms * Pacing.MS) <= time
    ensures time >= 0 && n * ms <= Pacing.Milliseconds(time)
  {
    assert n * (ms * Pacing.MS) == (n * ms) * Pacing.MS;
    Pacing.WholeMilliseconds(time, n * ms);
  }

  /** Two rates, possibly unusable ones, make the loop fetch at the same readings in every run. */
  ghost predicate SamePace(a: int, b: int) {
    && a != 0 && b != 0
    && forall start: int, clock: seq<int> :: Pacing.Monotone(start, clock) ==> SameFetches(start, clock, a, b)
  }

  predicate SameFetches(start: int, clock: seq<int>, a: int, b: int)
    requires a != 0 && b != 0
  {
    Pacing.Fetches(start, clock, Pacing.WaitOf(a)) == Pacing.Fetches(start, clock, Pacing.WaitOf(b))
  }

  /** The loops take the rate of the command line and not that of the settings. Whatever the file holds, its rate is
      followed in every run exactly when the command line gives another rate than 1, or the one in the file is 1. */
  lemma {:induction false} FileRateFollowedIff(opts: seq<Arguments.Opt>, home: Option<string>,
                                               files: ConfigLoader.FileSystem, typed: string, r: Startup.Outcome)
    requires Startup.Decided(Arguments.Meaning(opts), home, files, typed, r) && r.Starts?
    ensures var cfg := Arguments.Meaning(opts);
      SamePace(cfg.refreshHz, r.settings.refreshHz) <==>
      cfg.refreshHz != 1 || ConfigLoader.LoadFrom(cfg.configPath, home, files).value.refreshHz == 1
  {
    var cfg := Arguments.Meaning(opts);
    Arguments.MeaningInRange(opts);
    var hz := r.settings.refreshHz;
    if cfg.refreshHz == 1 && hz != 1 && hz != 0 {
      SecondMissed(hz);
    }
  }

  lemma {:induction false} ShorterWait(hz: int)
    requires hz != 0 && hz != 1
    ensures Pacing.WaitOf(hz) < Pacing.WaitOf(1)
  {
    if hz > 1 {
      assert 1000 / hz <= 500;
    }
  }

  /** At one fetch per second nothing is fetched when any other rate has its first one. */
  lemma {:induction false} SecondMissed(hz: int)
    requires hz != 0 && hz != 1
    ensures !SamePace(1, hz)
  {
    ShorterWait(hz);
    var wait := Pacing.WaitOf(hz);
    var now := if wait > 0 then wait else 0;
    var clock := [now];
    assert clock[1..] == [];
    assert Pacing.Monotone(0, clock);
    assert Pacing.Fetches(0, clock, wait) == clock + Pacing.Fetches(now, [], wait);
    assert Pacing.Fetches(0, clock, Pacing.WaitOf(1)) == [];
    assert !SameFetches(0, clock, 1, hz);
  }
}
