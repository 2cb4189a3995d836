/** The dashboard loop of `main()`: the panels are fetched once at start, then
    every tick refreshes the clock reading `ct` on every fourth beat, redraws
    the time panel, re-fetches the battery panel when 300 seconds have passed
    since its last fetch and the network panel when 3600 have, and shows the
    three panels, until the stop flag is set or the process exits. */
module Dashboard {
  import opened Wrappers
  import opened Text
  import opened Json
  import opened Panels
  import opened Clock
  import opened Power
  import opened Network

  const RefreshPerSecond: nat := 4
  const PowerInterval: int := 300
  const NetworkInterval: int := 3600

  const PowerErrorPanel: Panel := Panel(Text("\U{26A0}\U{FE0F}  Error fetching power data"), "red", None)
  const NetworkErrorPanel: Panel := Panel(Text("\U{26A0}\U{FE0F}  Error fetching network data"), "red", None)
  /** A panel variable that was never assigned (the process exited first). */
  const Unassigned: Panel := Panel(Text(""), "", None)

  // ---------------------------------------------------------------------------
  // The safe wrappers

  /** `try: return fetch() except Exception: return placeholder`. `sys.exit`
      raises `SystemExit`, which is not an `Exception`, so it escapes. */
  function Safe(fetched: Outcome<Panel>, placeholder: Panel): Outcome<Panel>
  {
    match fetched
    case Ok(panel) => Ok(panel)
    case Raised(Error) => Ok(placeholder)
    case Raised(SystemExit) => Raised(SystemExit)
  }

  /** What `get_power_visual_safe()` does with the cache `file` and
      `cache_mtime` at time `now`: the panel (or the exit), and the cache after. */
  datatype PowerFetch = PowerFetch(panel: Outcome<Panel>, file: Option<CacheFile>, mtime: int)

  function PowerVisualSafe(file: Option<CacheFile>, mtime: int, now: int, run: ProfilerRun, writable: bool): PowerFetch
  {
    var step := PowerData(file, mtime, now, run, writable);
    var visual := match step.result
      case Ok(info) => Ok(PowerVisual(info, 1, step.mtime))
      case Raised(k) => Raised(k);
    PowerFetch(Safe(visual, PowerErrorPanel), step.file, step.mtime)
  }

  /** `get_network_panel_safe()`. */
  function NetworkPanelSafe(run: ProfilerRun): Outcome<Panel>
  {
    Safe(NetworkPanelOf(run), NetworkErrorPanel)
  }

  /** A wrapper hands a fetched panel through unchanged, turns every ordinary
      error into its red placeholder, and lets only the exit through. */
  lemma SafeWrapper(fetched: Outcome<Panel>, placeholder: Panel)
    ensures fetched.Ok? ==> Safe(fetched, placeholder) == fetched
    ensures fetched == Raised(Error) ==> Safe(fetched, placeholder) == Ok(placeholder)
    ensures Safe(fetched, placeholder).Raised? <==> fetched == Raised(SystemExit)
    ensures Safe(fetched, placeholder) != Raised(Error)
  {
  }

  /** The battery placeholder has a red border; the battery panel is the one
      drawn from the data `get_power_data` returned, stamped with the new
      `cache_mtime`, and the fetch exits exactly when `get_power_data` does. */
  lemma SafePowerFetch(file: Option<CacheFile>, mtime: int, now: int, run: ProfilerRun, writable: bool)
    ensures PowerErrorPanel.borderStyle == "red"
    ensures var step, fetch := PowerData(file, mtime, now, run, writable), PowerVisualSafe(file, mtime, now, run, writable);
      && fetch.file == step.file && fetch.mtime == step.mtime
      && (step.result.Ok? ==> fetch.panel == Ok(PowerVisual(step.result.value, 1, step.mtime)))
      && (step.result == Raised(Error) ==> fetch.panel == Ok(PowerErrorPanel))
      && (fetch.panel.Raised? <==> step.result == Raised(SystemExit))
  {
  }

  /** The network placeholder has a red border, and the network fetch exits
      only when `system_profiler` cannot be run or prints something that is
      not JSON. */
  lemma SafeNetworkFetch(run: ProfilerRun)
    ensures NetworkErrorPanel.borderStyle == "red"
    ensures NetworkPanelSafe(run).Raised? <==> run.Unavailable? || run.parsed.None?
    ensures NetworkPanelOf(run) == Raised(Error) ==> NetworkPanelSafe(run) == Ok(NetworkErrorPanel)
    ensures NetworkPanelOf(run).Ok? ==> NetworkPanelSafe(run) == NetworkPanelOf(run)
  {
    NetworkPanelExits(run);
  }

  /** A record whose type or name cannot be put in a table cell makes the
      network fetch show the red placeholder instead of the table. */
  lemma UnrenderableNetworkPlaceholder(data: Json, entries: seq<Json>, infos: seq<Interface>)
    requires Get(data, "SPNetworkDataType", JList([])).Ok?
    requires DictEntries(Get(data, "SPNetworkDataType", JList([])).value) == Ok(entries)
    requires ExtractAll(entries) == Ok(infos) && Sortable(infos)
    requires exists i :: 0 <= i < |infos| && !Shown(infos[i])
    ensures NetworkPanelSafe(Printed(Some(data))) == Ok(NetworkErrorPanel)
  {
    NetworkPanelRows(data, entries, infos);
  }

  /** One interface whose `_name` is the number 5: the record is read with
      type 5 and the default name and order, and its row cannot be added. */
  lemma NumericNamePlaceholder()
    ensures NetworkPanelSafe(Printed(Some(JObject(map["SPNetworkDataType" := JList([JObject(map["_name" := JInt(5)])])]))))
      == Ok(NetworkErrorPanel)
  {
    var m := map["_name" := JInt(5)];
    var data := JObject(map["SPNetworkDataType" := JList([JObject(m)])]);
    AddressesAbsent(m, "IPv4");
    AddressesAbsent(m, "IPv6");
    MacAbsent(m);
    ExtractFields(m);
    var info := ExtractInterface(JObject(m)).value;
    assert info.interfaceType == JInt(5);
    assert ExtractAll([JObject(m)]).Ok?;
    var infos := ExtractAll([JObject(m)]).value;
    assert |infos| == 1 && infos[0] == info;
    UnrenderableNetworkPlaceholder(data, [JObject(m)], infos);
  }

  // ---------------------------------------------------------------------------
  // The loop

  /** Where an exception other than the wrappers' escapes the loop body, if
      anywhere: before the panels are built (the memory or terminal reading,
      the time formatting) or while showing them (the live update). */
  datatype Fault = NoFault | BeforePanels | WhileRendering

  /** What one pass of the loop observes: the time `time.time()` returns, the
      formatted time of day, where an exception is raised, and what the
      fetches would find. */
  datatype TickInput = TickInput(
    clock: int,
    timeText: string,
    fault: Fault,
    powerRun: ProfilerRun,
    cacheWritable: bool,
    networkRun: ProfilerRun)

  /** The loop's variables, the power cache, the boot time, the stop flag, and
      whether `SystemExit` has ended the process. `frame` is what the live
      display last showed. */
  datatype LoopState = LoopState(
    beats: nat,
    ct: int,
    lastPower: int,
    lastNetwork: int,
    panelPower: Panel,
    panelNetwork: Panel,
    frame: Option<seq<Panel>>,
    cacheFile: Option<CacheFile>,
    cacheMtime: int,
    bootTime: int,
    stopped: bool,
    exited: bool)

  predicate Running(s: LoopState)
  {
    !s.stopped && !s.exited
  }

  /** What the loop body calls, as functions of what they observe: the
      battery panel `get_power_visual_safe()` draws from the cache file,
      `cache_mtime` and the tick (with the cache it leaves behind), the panel
      `get_network_panel_safe()` draws from the tick, and the time panel drawn
      from `time_str` and `up_for`. The properties of the loop below hold for
      any such functions; `Program` holds the ones `main()` calls. */
  datatype Calls = Calls(
    power: (Option<CacheFile>, int, TickInput) -> PowerFetch,
    network: TickInput -> Outcome<Panel>,
    timePanel: (string, int) -> Panel)

  const Program: Calls := Calls(
    (file: Option<CacheFile>, mtime: int, t: TickInput) => PowerVisualSafe(file, mtime, t.clock, t.powerRun, t.cacheWritable),
    (t: TickInput) => NetworkPanelSafe(t.networkRun),
    (timeText: string, upFor: int) => TimePanel(timeText, upFor))

  /** The time panel: the big clock and the uptime line. */
  function TimePanel(timeText: string, upFor: int): Panel
  {
    Panel(Clock(AsciiTime(timeText), UptimeStr(upFor)), "dim green", None)
  }

  /** The start of `main()` at time `clock`: both panels fetched once, and the
      loop variables set. */
  function Start(bootTime: int, file: Option<CacheFile>, mtime: int, clock: int,
                 powerRun: ProfilerRun, writable: bool, networkRun: ProfilerRun): LoopState
  {
    var power := PowerVisualSafe(file, mtime, clock, powerRun, writable);
    if power.panel.Raised? then
      LoopState(0, clock, clock, clock, Unassigned, Unassigned, None, power.file, power.mtime, bootTime, false, true)
    else
      var network := NetworkPanelSafe(networkRun);
      if network.Raised? then
        LoopState(0, clock, clock, clock, power.panel.value, Unassigned, None, power.file, power.mtime, bootTime, false, true)
      else
        LoopState(0, clock, clock, clock, power.panel.value, network.value, None, power.file, power.mtime, bootTime, false, false)
  }

  predicate PowerDue(s: LoopState)
  {
    s.ct - s.lastPower >= PowerInterval
  }

  predicate NetworkDue(s: LoopState)
  {
    s.ct - s.lastNetwork >= NetworkInterval
  }

  /** `up_for = ct - BOOT_TIME`. */
  function UpFor(s: LoopState): int
  {
    s.ct - s.bootTime
  }

  /** `if beats % REFRESH_PER_SECOND == 0: ct = time.time()`. */
  function ReadClock(s: LoopState, t: TickInput): LoopState
  {
    s.(ct := if s.beats % RefreshPerSecond == 0 then t.clock else s.ct)
  }

  /** The battery gate, the fetch returning `fetch`: once due, the fetch time
      is recorded and the cache moved, and the fetched panel installed or the
      process ended. */
  function PowerGate(s: LoopState, fetch: PowerFetch): LoopState
  {
    if !PowerDue(s) then s
    else
      s.(lastPower := s.ct, cacheFile := fetch.file, cacheMtime := fetch.mtime,
         panelPower := if fetch.panel.Ok? then fetch.panel.value else s.panelPower,
         exited := fetch.panel.Raised?)
  }

  /** The network gate, the fetch returning `panel`. */
  function NetworkGate(s: LoopState, panel: Outcome<Panel>): LoopState
  {
    if !NetworkDue(s) then s
    else
      s.(lastNetwork := s.ct,
         panelNetwork := if panel.Ok? then panel.value else s.panelNetwork,
         exited := panel.Raised?)
  }

  /** Both gates, the battery's first; the network's is skipped once the
      battery fetch has ended the process. */
  function Gates(s: LoopState, t: TickInput, env: Calls): LoopState
  {
    var s1 := PowerGate(s, env.power(s.cacheFile, s.cacheMtime, t));
    if s1.exited then s1 else NetworkGate(s1, env.network(t))
  }

  /** `live.update(Columns([panel_network, panel_power, panel_time]))`, the
      sleep and `beats += 1`, unless the process has exited or one of them
      raises. */
  function Finish(s: LoopState, fault: Fault, timePanel: Panel): LoopState
  {
    if s.exited then s
    else if fault == WhileRendering then s.(stopped := true)
    else s.(frame := Some([s.panelNetwork, s.panelPower, timePanel]), beats := s.beats + 1)
  }

  /** The body of the loop once `ct` is read, `timePanel` being the time panel
      it draws: the gates, then the frame. */
  function Pass(s: LoopState, t: TickInput, env: Calls, timePanel: Panel): LoopState
  {
    if t.fault == BeforePanels then s.(stopped := true)
    else Finish(Gates(s, t, env), t.fault, timePanel)
  }

  /** One check of `while not STOP_EVENT.is_set()` and, if not stopped, one
      pass of the body, `env` doing the calls. */
  function Step(s: LoopState, t: TickInput, env: Calls): LoopState
  {
    if !Running(s) then s
    else
      var s0 := ReadClock(s, t);
      Pass(s0, t, env, env.timePanel(t.timeText, UpFor(s0)))
  }

  function Run(s: LoopState, ts: seq<TickInput>, env: Calls): LoopState
    decreases |ts|
  {
    if ts == [] then s else Run(Step(s, ts[0], env), ts[1..], env)
  }

  // ---------------------------------------------------------------------------
  // Properties of the loop, for any fetches

  /** Once the stop flag is set, or the process has exited, no body runs again. */
  lemma {:induction false} StoppedStaysStopped(s: LoopState, ts: seq<TickInput>, env: Calls)
    requires !Running(s)
    ensures Run(s, ts, env) == s
    decreases |ts|
  {
    if ts != [] {
      StoppedStaysStopped(Step(s, ts[0], env), ts[1..], env);
    }
  }

  /** `ct` is read from the clock exactly on the ticks where `beats` is a
      multiple of 4, and otherwise keeps its value. */
  lemma ClockReadEveryFourthBeat(s: LoopState, t: TickInput, env: Calls)
    requires Running(s)
    ensures Step(s, t, env).ct == if s.beats % 4 == 0 then t.clock else s.ct
  {
  }

  /** The battery panel is re-fetched exactly when `ct - last_power_update >=
      300` (with the `ct` of this tick): then `last_power_update` becomes `ct`
      and the cache moves as the fetch moved it; otherwise the cache, the
      panel and `last_power_update` are left alone. Unless that fetch ended
      the process, the network panel likewise with 3600 seconds. */
  lemma GatesFetchWhenDue(s: LoopState, t: TickInput, env: Calls)
    requires Running(s) && t.fault != BeforePanels
    ensures var ct := if s.beats % 4 == 0 then t.clock else s.ct;
      var s' := Step(s, t, env);
      var fetch := env.power(s.cacheFile, s.cacheMtime, t);
      var network := env.network(t);
      && (ct - s.lastPower >= 300 ==>
            s'.lastPower == ct && s'.cacheFile == fetch.file && s'.cacheMtime == fetch.mtime
            && (fetch.panel.Ok? ==> s'.panelPower == fetch.panel.value)
            && (fetch.panel.Raised? ==> s'.exited))
      && (ct - s.lastPower < 300 ==>
            s'.lastPower == s.lastPower && s'.cacheFile == s.cacheFile && s'.cacheMtime == s.cacheMtime
            && s'.panelPower == s.panelPower)
      && (ct - s.lastPower < 300 || fetch.panel.Ok? ==>
            && (ct - s.lastNetwork >= 3600 ==>
                  s'.lastNetwork == ct
                  && (network.Ok? ==> s'.panelNetwork == network.value)
                  && (network.Raised? ==> s'.exited))
            && (ct - s.lastNetwork < 3600 ==> s'.lastNetwork == s.lastNetwork && s'.panelNetwork == s.panelNetwork))
  {
  }

  /** A completed tick shows the network, battery and time panels, in that
      order, the time panel drawn from the formatted time and the uptime
      since boot, and counts one more beat. */
  lemma CompletedTickShowsFrame(s: LoopState, t: TickInput, env: Calls)
    requires Running(s) && t.fault == NoFault && Running(Step(s, t, env))
    ensures var s' := Step(s, t, env);
      && s'.beats == s.beats + 1
      && s'.frame == Some([s'.panelNetwork, s'.panelPower, env.timePanel(t.timeText, s'.ct - s.bootTime)])
  {
  }

  /** `main()`'s time panel holds the five-line clock of the time text and
      the uptime line, in a dim green border. */
  lemma ProgramTimePanel(timeText: string, upFor: int)
    ensures var p := Program.timePanel(timeText, upFor);
      && p.content == Clock(AsciiTime(timeText), UptimeStr(upFor))
      && |SplitLines(p.content.bigTime)| == 5
      && p.borderStyle == "dim green"
  {
    AsciiTimeFiveLines(timeText);
  }

  /** An exception in the body sets the stop flag (unless a fetch before it
      already ended the process) and counts no beat. */
  lemma FaultStops(s: LoopState, t: TickInput, env: Calls)
    requires Running(s) && t.fault != NoFault
    ensures !Running(Step(s, t, env))
    ensures Step(s, t, env).beats == s.beats
    ensures t.fault == BeforePanels ==> Step(s, t, env).stopped
  {
  }

  /** The process ends in a tick exactly when a fetch that was due returned the
      exit: fetch errors other than the exit only replace a panel. */
  lemma ExitsOnlyOnFetchExit(s: LoopState, t: TickInput, env: Calls)
    requires Running(s)
    ensures var s0 := ReadClock(s, t);
      Step(s, t, env).exited <==>
        && t.fault != BeforePanels
        && ((PowerDue(s0) && env.power(s.cacheFile, s.cacheMtime, t).panel.Raised?)
            || (NetworkDue(s0) && (!PowerDue(s0) || env.power(s.cacheFile, s.cacheMtime, t).panel.Ok?)
                && env.network(t).Raised?))
  {
  }

  /** With `main()`'s own fetches, only `sys.exit` ends the process: a
      failing `system_profiler` run for the battery, a cache that cannot be
      written, a network run that cannot start or prints no JSON. */
  lemma ErrorsDoNotExit(s: LoopState, t: TickInput)
    requires Running(s)
    requires PowerData(s.cacheFile, s.cacheMtime, t.clock, t.powerRun, t.cacheWritable).result != Raised(SystemExit)
    requires NetworkPanelOf(t.networkRun) != Raised(SystemExit)
    ensures !Step(s, t, Program).exited
    ensures t.fault == NoFault ==> Running(Step(s, t, Program))
  {
    ProgramFetchesOk(s, t);
    NoExitWhenFetchesOk(s, t, Program);
  }

  /** Outside `SystemExit`, main's wrapped fetches never raise. */
  lemma ProgramFetchesOk(s: LoopState, t: TickInput)
    requires PowerData(s.cacheFile, s.cacheMtime, t.clock, t.powerRun, t.cacheWritable).result != Raised(SystemExit)
    requires NetworkPanelOf(t.networkRun) != Raised(SystemExit)
    ensures Program.power(s.cacheFile, s.cacheMtime, t).panel.Ok? && Program.network(t).Ok?
  {
    SafePowerFetch(s.cacheFile, s.cacheMtime, t.clock, t.powerRun, t.cacheWritable);
    SafeNetworkFetch(t.networkRun);
  }

  /** A tick whose fetches return panels does not end the loop, and without a
      fault the loop goes on. */
  lemma NoExitWhenFetchesOk(s: LoopState, t: TickInput, env: Calls)
    requires Running(s)
    requires env.power(s.cacheFile, s.cacheMtime, t).panel.Ok? && env.network(t).Ok?
    ensures !Step(s, t, env).exited
    ensures t.fault == NoFault ==> Running(Step(s, t, env))
  {
    ExitsOnlyOnFetchExit(s, t, env);
  }

  /** The cadence invariant: `last_update <= ct` always, and while the loop
      runs, neither refresh is overdue. */
  predicate Cadence(s: LoopState)
  {
    && s.lastPower <= s.ct && s.lastNetwork <= s.ct
    && (Running(s) ==> s.ct - s.lastPower < PowerInterval && s.ct - s.lastNetwork < NetworkInterval)
  }

  lemma StartKeepsCadence(bootTime: int, file: Option<CacheFile>, mtime: int, clock: int,
                          powerRun: ProfilerRun, writable: bool, networkRun: ProfilerRun)
    ensures Cadence(Start(bootTime, file, mtime, clock, powerRun, writable, networkRun))
  {
  }

  /** With a clock that does not go back, each tick keeps the invariant. */
  lemma StepKeepsCadence(s: LoopState, t: TickInput, env: Calls)
    requires Cadence(s) && s.ct <= t.clock
    ensures Cadence(Step(s, t, env))
    ensures Step(s, t, env).ct <= t.clock
  {
  }

  predicate ClockMonotone(ts: seq<TickInput>)
  {
    forall i, j :: 0 <= i < j < |ts| ==> ts[i].clock <= ts[j].clock
  }

  /** Over any run with a clock that does not go back, the invariant holds. */
  lemma {:induction false} RunKeepsCadence(s: LoopState, ts: seq<TickInput>, env: Calls)
    requires Cadence(s) && ClockMonotone(ts)
    requires ts != [] ==> s.ct <= ts[0].clock
    ensures Cadence(Run(s, ts, env))
    decreases |ts|
  {
    if ts != [] {
      StepKeepsCadence(s, ts[0], env);
      var rest := ts[1..];
      assert ClockMonotone(rest) by {
        forall i, j | 0 <= i < j < |rest| ensures rest[i].clock <= rest[j].clock {
          assert rest[i] == ts[i + 1] && rest[j] == ts[j + 1];
        }
      }
      if rest != [] {
        assert rest[0] == ts[1];
      }
      RunKeepsCadence(Step(s, ts[0], env), rest, env);
    }
  }

  /** The beat counter counts the completed ticks, so it never grows faster than the ticks. */
  lemma {:induction false} BeatsBounded(s: LoopState, ts: seq<TickInput>, env: Calls)
    ensures s.beats <= Run(s, ts, env).beats <= s.beats + |ts|
    decreases |ts|
  {
    if ts != [] {
      BeatsBounded(Step(s, ts[0], env), ts[1..], env);
    }
  }

  lemma StoppedOrDone(s: LoopState, ts: seq<TickInput>, env: Calls)
    requires ts == [] || !Running(s)
    ensures Run(s, ts, env) == s
  {
    if ts != [] {
      StoppedStaysStopped(s, ts, env);
    }
  }

  // ---------------------------------------------------------------------------
  // The loop as the program runs it

  /** The variables of `main()` and the power cache they drive. */
  class Dashboard {
    var beats: nat
    var ct: int
    var lastPowerUpdate: int
    var lastNetworkUpdate: int
    var panelPower: Panel
    var panelNetwork: Panel
    var frame: Option<seq<Panel>>
    var stopEvent: bool
    var exited: bool
    const bootTime: int
    const power: PowerCache

    function State(): LoopState
      reads this, power
    {
      LoopState(beats, ct, lastPowerUpdate, lastNetworkUpdate, panelPower, panelNetwork, frame,
                power.file, power.cacheMtime, bootTime, stopEvent, exited)
    }

    /** `get_power_visual_safe()`. */
    method GetPowerVisualSafe(now: int, run: ProfilerRun, writable: bool) returns (r: Outcome<Panel>)
      modifies power
      ensures var fetch := PowerVisualSafe(old(power.file), old(power.cacheMtime), now, run, writable);
        r == fetch.panel && power.file == fetch.file && power.cacheMtime == fetch.mtime
    {
      var data := power.GetPowerData(now, run, writable);
      match data
      case Ok(info) =>
        return Ok(PowerVisual(info, 1, power.cacheMtime));
      case Raised(Error) =>
        return Ok(PowerErrorPanel);
      case Raised(SystemExit) =>
        return Raised(SystemExit);
    }

    /** `get_network_panel_safe()`. */
    static method GetNetworkPanelSafe(run: ProfilerRun) returns (r: Outcome<Panel>)
      ensures r == NetworkPanelSafe(run)
    {
      var panel := GetNetworkPanel(run);
      match panel
      case Ok(p) => return Ok(p);
      case Raised(Error) => return Ok(NetworkErrorPanel);
      case Raised(SystemExit) => return Raised(SystemExit);
    }

    /** The start of `main()`: the first fetches, then `beats`, `ct` and the
        last-update times. */
    constructor(boot: int, cache: PowerCache, clock: int, powerRun: ProfilerRun, writable: bool, networkRun: ProfilerRun)
      modifies cache
      ensures power == cache
      ensures State() == Start(boot, old(cache.file), old(cache.cacheMtime), clock, powerRun, writable, networkRun)
    {
      bootTime := boot;
      power := cache;
      beats := 0;
      ct := clock;
      lastPowerUpdate := clock;
      lastNetworkUpdate := clock;
      frame := None;
      stopEvent := false;
      panelPower := Unassigned;
      panelNetwork := Unassigned;
      exited := false;
      new;
      var p := GetPowerVisualSafe(clock, powerRun, writable);
      if p.Raised? {
        exited := true;
        return;
      }
      panelPower := p.value;
      var n := GetNetworkPanelSafe(networkRun);
      if n.Raised? {
        exited := true;
        return;
      }
      panelNetwork := n.value;
    }

    /** The key press or the interrupt handler setting `STOP_EVENT`. */
    method RequestStop()
      modifies this
      ensures State() == old(State()).(stopped := true)
    {
      stopEvent := true;
    }

    /** `if beats % REFRESH_PER_SECOND == 0: ct = time.time()`. */
    method UpdateClock(t: TickInput)
      modifies this`ct
      ensures State() == ReadClock(old(State()), t)
    {
      if beats % RefreshPerSecond == 0 {
        ct := t.clock;
      }
    }

    /** The battery gate. */
    method UpdatePower(t: TickInput)
      modifies this`lastPowerUpdate, this`panelPower, this`exited, power
      ensures State() == PowerGate(old(State()), Program.power(old(power.file), old(power.cacheMtime), t))
    {
      if ct - lastPowerUpdate >= PowerInterval {
        lastPowerUpdate := ct;
        var p := GetPowerVisualSafe(t.clock, t.powerRun, t.cacheWritable);
        if p.Raised? {
          exited := true;
          return;
        }
        panelPower := p.value;
        exited := false;
      }
    }

    /** The network gate. */
    method UpdateNetwork(t: TickInput)
      modifies this`lastNetworkUpdate, this`panelNetwork, this`exited
      ensures State() == NetworkGate(old(State()), Program.network(t))
    {
      if ct - lastNetworkUpdate >= NetworkInterval {
        lastNetworkUpdate := ct;
        var n := GetNetworkPanelSafe(t.networkRun);
        if n.Raised? {
          exited := true;
          return;
        }
        panelNetwork := n.value;
        exited := false;
      }
    }

    /** `panel_time`: the big clock of `time_str` and the uptime line. */
    static method DrawTimePanel(timeText: string, upFor: int) returns (p: Panel)
      ensures p == TimePanel(timeText, upFor)
    {
      var bigTime := GenerateAsciiTime(timeText);
      var uptime := UptimeStr(upFor);
      p := Panel(Clock(bigTime, uptime), "dim green", None);
    }

    /** Both gates. */
    method UpdatePanels(t: TickInput)
      modifies this, power
      ensures State() == Gates(old(State()), t, Program)
    {
      UpdatePower(t);
      if exited {
        return;
      }
      UpdateNetwork(t);
    }

    /** Showing the frame, the sleep and the beat. */
    method Render(fault: Fault, panelTime: Panel)
      modifies this
      ensures State() == Finish(old(State()), fault, panelTime)
    {
      if exited {
        return;
      }
      if fault == WhileRendering {
        stopEvent := true;
        return;
      }
      frame := Some([panelNetwork, panelPower, panelTime]);
      beats := beats + 1;
    }

    /** One pass of the body once `ct` is read and the time panel drawn. */
    method RunBody(t: TickInput, panelTime: Panel)
      modifies this, power
      ensures State() == Pass(old(State()), t, Program, panelTime)
    {
      if t.fault == BeforePanels {
        stopEvent := true;
        return;
      }
      UpdatePanels(t);
      Render(t.fault, panelTime);
    }

    /** One check of the loop condition and, unless stopped, one pass of the body. */
    method Tick(t: TickInput)
      modifies this, power
      ensures State() == Step(old(State()), t, Program)
    {
      if stopEvent || exited {
        return;
      }
      UpdateClock(t);
      var panelTime := DrawTimePanel(t.timeText, UpFor(State()));
      RunBody(t, panelTime);
    }

    /** `while not STOP_EVENT.is_set(): ...` over the passes `ts`. */
    method RunLoop(ts: seq<TickInput>)
      modifies this, power
      ensures State() == Run(old(State()), ts, Program)
    {
      var i := 0;
      while i < |ts| && !stopEvent && !exited
        invariant 0 <= i <= |ts|
        invariant Run(old(State()), ts, Program) == Run(State(), ts[i..], Program)
        decreases |ts| - i
      {
        Tick(ts[i]);
        assert ts[i..][1..] == ts[i + 1..];
        i := i + 1;
      }
      StoppedOrDone(State(), ts[i..], Program);
    }
  }
}
