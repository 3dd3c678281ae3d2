/** Runs in which the daemon does not do what one would expect. Each is possible for every configuration
    in which the first backend accepts some candidate of a feedback. */
module OddRuns {
  import opened Text
  import opened Theming
  import opened Resolver
  import opened Handles
  import opened HandleInvariants
  import opened Reconnection
  import opened Daemon
  import opened Agreement
  import opened Runs
  import opened CacheKeys
  import opened Clashes
  import opened Isolation

  /** Backend 0 accepts a candidate for the `i`-th feedback of the application, whose own directories do
      not share cache keys. */
  ghost predicate Accepts(cfg: Config, theme: string, app: string, i: nat)
    requires ValidConfig(cfg)
  {
    var lists := ListsFor(cfg, theme, app);
    KeysApart(cfg, 1, {app}, {theme}) && i < |lists| && Scan(cfg.disk, lists[i], 0).Some?
  }

  /** One common feedback, for which backend 0 has data. */
  function SmallConfig(): Config {
    var fs := FileSystem("/usr", map[DEFAULT_THEME := Theme(NoFile, ["a"], map[])]);
    var dir := CommonDir(fs, DEFAULT_THEME) + "a";
    Config(fs, Disk(ThemePrefix(fs), {dir}, map[(0, dir) := Ready]))
  }

  lemma SmallConfigAccepts()
    ensures ValidConfig(SmallConfig()) && Accepts(SmallConfig(), DEFAULT_THEME, "x", 0)
  {
    var cfg := SmallConfig();
    var fs, dir := cfg.fs, CommonDir(cfg.fs, DEFAULT_THEME) + "a";
    assert Ranked(fs, map[]);
    PlainNamesFit(fs, "x");
    FittingAppsAreApart(cfg, 1, {"x"}, {DEFAULT_THEME});
    hide KeysApart;
    assert ValidName("a");
    assert Filter(["a"], ValidName) == ["a"] + Filter([], ValidName);
    assert FeedbackNames(fs, "x") == ["a"];
    assert EffectiveChain(fs, DEFAULT_THEME) == [DEFAULT_THEME];
    assert ThemeCandidates(fs, DEFAULT_THEME, "x", "a") == [dir];
    assert ChainCandidates(fs, [], "x", "a") == [];
    assert ChainCandidates(fs, [DEFAULT_THEME], "x", "a") == [dir] + [];
    assert '-' !in "a";
    assert DirLists(fs, DEFAULT_THEME, "x")[0] == [dir];
    assert Sample(cfg.disk, dir, 0) == Ready;
  }

  /** A daemon without sessions and handles, in which nothing is pending. */
  ghost predicate Quiet(cfg: Config, d: State, theme: string)
    requires ValidConfig(cfg)
  {
    && d.queue == [] && d.sessions == map[] && d.store.live == map[] && d.theme == theme && |d.backends| == 1
    && d.nextSession == 0 && d.apps == {} && d.themes == {theme}
  }

  /** In an agreeing daemon, the directory that the scan gives is that of a live handle. */
  lemma ShownIsLive(cfg: Config, d: State, s: nat, i: nat, b: nat)
    requires ValidConfig(cfg) && DaemonInv(cfg, d) && s in d.sessions
    requires SlotsAgree(cfg, d.store, d.theme, d.sessions[s], b)
    requires i < |ListsFor(cfg, d.theme, d.sessions[s].app)|
    requires Scan(cfg.disk, ListsFor(cfg, d.theme, d.sessions[s].app)[i], b).Some?
    ensures exists id :: id in d.store.live && d.store.live[id].backend == b
  {
    hide ValidConfig, ListsFor, NamesFor, Scan, StoreInv, CountsInv, WantedBy, SessionsOk, QueueOk, Synced, KeysApart;
    SyncIsAgreement(cfg, d.store, d.theme, d.sessions[s], b);
    ListsFit(cfg, d.theme, d.sessions[s].app);
    var name := NamesFor(cfg, d.sessions[s].app)[i];
    var slot := d.sessions[s].hash[name][b];
    RowsLookup(d.sessions);
    assert View(d.store, slot).Some?;
    assert Rows(d.sessions)[Fb(s, name)][b] == slot;
  }

  /** A session is set up while the backend is down, and then an attempt marks the backend. */
  lemma MarkDisagrees(cfg: Config, states: seq<State>, actions: seq<Action>, theme: string, app: string, i: nat)
      returns (states': seq<State>, actions': seq<Action>)
    requires ValidConfig(cfg) && IsRun(cfg, states, actions) && Accepts(cfg, theme, app, i)
    requires var d := states[|actions|];
             Quiet(cfg, d, theme) && !IsUp(d, 0) && (d.backends[0].inFlight || d.backends[0].overtaken)
    ensures IsRun(cfg, states', actions') && actions' == actions + [OpenSession(app), SetupTimer(0), MarkConnected(0)]
    ensures var d, d' := states[|actions|], states'[|actions'|];
            d'.queue == [] && d'.backends == [Marked(d.backends[0])] && IsUp(d', 0) && d'.theme == theme &&
            0 in d'.sessions && d'.sessions[0].finished && !SlotsAgree(cfg, d'.store, d'.theme, d'.sessions[0], 0)
  {
    hide ValidConfig, DaemonInv, ListsFor, NamesFor, Scan, SlotsAgree, Next, Enabled, Reachable, KeysApart;
    var d0 := states[|actions|];
    LastIsReachable(cfg, states, actions);
    var d1, d2 := OpenAndSetUp(cfg, d0, app);
    ReachableKeeps(cfg, d0);
    ReachableKeeps(cfg, d1);
    ReachableKeeps(cfg, d2);
    NothingIsLoaded(cfg, d0, d1, d2, app);
    MarkingLeavesSlots(cfg, d2);
    var d3 := Next(cfg, d2, MarkConnected(0));
    Extend(cfg, states, actions, OpenSession(app), d1);
    Extend(cfg, states + [d1], actions + [OpenSession(app)], SetupTimer(0), d2);
    Extend(cfg, states + [d1] + [d2], actions + [OpenSession(app)] + [SetupTimer(0)], MarkConnected(0), d3);
    states' := states + [d1] + [d2] + [d3];
    actions' := actions + [OpenSession(app)] + [SetupTimer(0)] + [MarkConnected(0)];
    if SlotsAgree(cfg, d3.store, d3.theme, d3.sessions[0], 0) {
      NextIsReachable(cfg, d2, MarkConnected(0));
      ReachableKeeps(cfg, d3);
      ShownIsLive(cfg, d3, 0, i, 0);
    }
  }

  lemma LastIsReachable(cfg: Config, states: seq<State>, actions: seq<Action>)
    requires ValidConfig(cfg) && IsRun(cfg, states, actions)
    ensures Reachable(cfg, states[|actions|])
  {
    hide ValidConfig, Enabled, Next;
  }

  /** Agreement is about announced connections: between the moment an attempt marks its backend Connected
      and its result, nothing is pending and the slots of the backend are empty. */
  lemma MarkedBackendDisagrees(cfg: Config, theme: string, app: string, i: nat)
      returns (states: seq<State>, actions: seq<Action>)
    requires ValidConfig(cfg) && Accepts(cfg, theme, app, i)
    ensures IsRun(cfg, states, actions) && forall k :: 0 <= k < |actions| ==> !actions[k].LoseConnection?
    ensures var d := states[|actions|];
            d.queue == [] && IsUp(d, 0) && d.backends[0].timer.None? && !d.backends[0].overtaken &&
            0 in d.sessions && d.sessions[0].finished && !SlotsAgree(cfg, d.store, d.theme, d.sessions[0], 0)
  {
    hide ValidConfig, SlotsAgree, Accepts, Enabled, Next;
    var start := Initially(theme, 1);
    assert start.backends == [Attempt(INITIAL)];
    states, actions := MarkDisagrees(cfg, [start], [], theme, app, i);
  }

  /** An attempt that has been overtaken may mark its backend when no attempt is in flight any more; then
      the timer is running. */
  lemma OvertakenBackendDisagrees(cfg: Config, theme: string, app: string, i: nat)
      returns (states: seq<State>, actions: seq<Action>)
    requires ValidConfig(cfg) && Accepts(cfg, theme, app, i)
    ensures IsRun(cfg, states, actions)
    ensures var d := states[|actions|];
            d.queue == [] && IsUp(d, 0) && !d.backends[0].inFlight && d.backends[0].timer.Some? &&
            0 in d.sessions && d.sessions[0].finished && !SlotsAgree(cfg, d.store, d.theme, d.sessions[0], 0)
  {
    hide ValidConfig, SlotsAgree, Accepts, IsRun;
    states, actions := Overtaken(theme).0, Overtaken(theme).1;
    OvertakenIsRun(cfg, theme);
    states, actions := MarkDisagrees(cfg, states, actions, theme, app, i);
  }

  /** The first attempt is overtaken, because a loss is reported before it ends, and the second one fails. */
  function Overtaken(theme: string): (seq<State>, seq<Action>) {
    ([Alone(theme, Backend(Disconnected, 0, None, true, false, false), []),
      Alone(theme, Backend(Connecting, 1, Some(1000), true, false, false), [Lost(0)]),
      Alone(theme, Backend(Connecting, 1, Some(1000), true, false, false), []),
      Alone(theme, Backend(Connecting, 1, None, true, true, false), []),
      Alone(theme, Backend(Connecting, 2, Some(5000), false, true, false), [])],
     [LoseConnection(0, false, false), Deliver([]), TimerFires(0), AttemptDone(0, false)])
  }

  lemma OvertakenIsRun(cfg: Config, theme: string)
    requires ValidConfig(cfg)
    ensures IsRun(cfg, Overtaken(theme).0, Overtaken(theme).1)
  {
    hide ValidConfig;
    var states, actions := Overtaken(theme).0, Overtaken(theme).1;
    assert Initially(theme, 1) == states[0];
    assert [Lost(0)][1..] == [];
    forall i | 0 <= i < |actions|
      ensures Enabled(cfg, states[i], actions[i]) && states[i + 1] == Next(cfg, states[i], actions[i])
    {
      var d, d' := states[i], Next(cfg, states[i], actions[i]);
      assert d'.backends == [d'.backends[0]];
    }
  }

  lemma MarkingLeavesSlots(cfg: Config, d: State)
    requires ValidConfig(cfg) && |d.backends| == 1 && (d.backends[0].inFlight || d.backends[0].overtaken)
    ensures Enabled(cfg, d, MarkConnected(0))
    ensures var d' := Next(cfg, d, MarkConnected(0));
            IsUp(d', 0) && d' == d.(backends := [Marked(d.backends[0])])
  {
  }

  lemma NothingIsLoaded(cfg: Config, d0: State, d1: State, d2: State, app: string)
    requires ValidConfig(cfg) && DaemonInv(cfg, d0) && DaemonInv(cfg, d1) && DaemonInv(cfg, d2)
    requires d0.store.live == map[] && d0.queue == [] && Up(d0) == {}
    requires Enabled(cfg, d0, OpenSession(app)) && d1 == Next(cfg, d0, OpenSession(app))
    requires Enabled(cfg, d1, SetupTimer(d0.nextSession)) && d2 == Next(cfg, d1, SetupTimer(d0.nextSession))
    ensures d2.store.live == map[]
  {
    hide ValidConfig, DaemonInv, LoadSession;
    IsolatedExactlyWhen(cfg, d0, OpenSession(app));
    IsolatedExactlyWhen(cfg, d1, SetupTimer(d0.nextSession));
    LoadedLeavesBackends(cfg, d1, d0.nextSession);
    assert forall b: nat :: IsUp(d2, b) ==> b in Up(d0);
    assert d2.store.live.Keys == {};
  }

  lemma LoadedLeavesBackends(cfg: Config, d: State, s: nat)
    requires ValidConfig(cfg) && s in d.sessions
    ensures LoadSession(cfg, d, s, d.theme, true).backends == d.backends &&
            LoadSession(cfg, d, s, d.theme, true).queue == d.queue
  {
  }

  /** A daemon with one backend and no sessions. */
  function Alone(theme: string, bk: Backend, queue: seq<Event>): State {
    State(Store(map[], map[], 0, []), theme, [bk], map[], [], 0, queue, {}, {theme})
  }

  /** The backend marks itself, loses the connection and establishes it, and the timer of the loss fires. */
  function SurvivedLoss(theme: string): (seq<State>, seq<Action>) {
    var connected := Backend(Connected, 0, Some(1000), false, false, true);
    ([Alone(theme, Backend(Disconnected, 0, None, true, false, false), []),
      Alone(theme, Backend(Connected, 0, None, true, false, false), []),
      Alone(theme, Backend(Connecting, 1, Some(1000), true, false, false), [Lost(0)]),
      Alone(theme, connected, [Lost(0), Established(0)]),
      Alone(theme, connected, [Established(0)]),
      Alone(theme, connected, []),
      Alone(theme, connected.(timer := None, inFlight := true), [])],
     [MarkConnected(0), LoseConnection(0, false, false), AttemptDone(0, true), Deliver([]), Deliver([]), TimerFires(0)])
  }

  lemma SurvivedLossIsRun(cfg: Config, theme: string)
    requires ValidConfig(cfg)
    ensures IsRun(cfg, SurvivedLoss(theme).0, SurvivedLoss(theme).1)
  {
    hide ValidConfig;
    var states, actions := SurvivedLoss(theme).0, SurvivedLoss(theme).1;
    assert Initially(theme, 1) == states[0];
    assert [Lost(0), Established(0)][1..] == [Established(0)] && [Established(0)][1..] == [];
    forall i | 0 <= i < |actions|
      ensures Enabled(cfg, states[i], actions[i]) && states[i + 1] == Next(cfg, states[i], actions[i])
    {
      var d, d' := states[i], Next(cfg, states[i], actions[i]);
      assert d'.backends == [d'.backends[0]];
    }
  }

  /** Isolation can be broken although every loss is reported by a Connected backend: one that is reported
      while the attempt that marked the backend is unfinished starts the timer, which the success of the
      attempt does not stop; so another attempt runs while the backend is in use, and when that fails
      the handles stay without any notice. */
  lemma OverlappingAttemptBreaksIsolation(cfg: Config, theme: string, app: string, i: nat)
      returns (states: seq<State>, actions: seq<Action>)
    requires ValidConfig(cfg) && Accepts(cfg, theme, app, i)
    ensures IsRun(cfg, states, actions) && actions != []
    ensures forall k :: 0 <= k < |actions| && actions[k].LoseConnection? ==> IsUp(states[k], actions[k].backend)
    ensures SilentEnd(states[|actions| - 1], actions[|actions| - 1]) && !Isolated(states[|actions|])
    ensures |actions| > 3 && !GoodLoss(states[1], actions[1], 0)
    ensures 0 < |states[3].backends| && !Exclusive(MachineOf(states[3], 0))
  {
    hide ValidConfig, DaemonInv, ListsFor, NamesFor, Scan, SlotsAgree, Isolated, SilentEnd, Next, Enabled, Reachable,
         KeysApart;
    states, actions := SurvivedLoss(theme).0, SurvivedLoss(theme).1;
    SurvivedLossIsRun(cfg, theme);
    LastIsReachable(cfg, states, actions);
    var d7, d8 := OpenAndSetUp(cfg, states[6], app);
    Extend(cfg, states, actions, OpenSession(app), d7);
    Extend(cfg, states + [d7], actions + [OpenSession(app)], SetupTimer(0), d8);
    ReachableKeeps(cfg, d8);
    assert d8.apps == {app};
    FailureIsSilent(cfg, d8, i);
    var end := AttemptDone(0, false);
    var d9 := Next(cfg, d8, end);
    Extend(cfg, states + [d7] + [d8], actions + [OpenSession(app)] + [SetupTimer(0)], end, d9);
    states, actions := states + [d7] + [d8] + [d9], actions + [OpenSession(app)] + [SetupTimer(0)] + [end];
  }

  lemma FailureIsSilent(cfg: Config, d: State, i: nat)
    requires ValidConfig(cfg) && DaemonInv(cfg, d) && Safe(cfg, d) && d.queue == [] && IsAnnounced(d, 0) &&
             d.backends[0].inFlight
    requires 0 in d.sessions && d.sessions[0].finished && Accepts(cfg, d.theme, d.sessions[0].app, i)
    ensures Enabled(cfg, d, AttemptDone(0, false)) && SilentEnd(d, AttemptDone(0, false))
    ensures !Isolated(Next(cfg, d, AttemptDone(0, false)))
  {
    hide ValidConfig, DaemonInv, ListsFor, NamesFor, Scan, SlotsAgree;
    QuietMeansAgreement(cfg, d);
    ShownIsLive(cfg, d, 0, i, 0);
    var id :| id in d.store.live && d.store.live[id].backend == 0;
    var d' := Next(cfg, d, AttemptDone(0, false));
    assert id in d'.store.live && !IsUp(d', 0) && Lost(0) !in d'.queue;
  }

  /** Two applications with a feedback of their own, for which backend 0 has data; the second one is named
      like the first one followed by the theme prefix. */
  const SECOND: string := "x/usr/share/themes"

  function TwoApps(): Config {
    var fs := FileSystem("/usr", map[DEFAULT_THEME := Theme(NoFile, [], map["x" := ["a"], SECOND := ["a"]])]);
    var dir, dir' := AppDir(fs, DEFAULT_THEME, "x") + "a", AppDir(fs, DEFAULT_THEME, SECOND) + "a";
    Config(fs, Disk(ThemePrefix(fs), {dir, dir'}, map[(0, dir) := Ready, (0, dir') := Ready]))
  }

  lemma TwoAppsList(app: string)
    requires app == "x" || app == SECOND
    ensures ValidConfig(TwoApps()) && PrefixApart(TwoApps().fs)
    ensures var cfg := TwoApps();
            var dir := AppDir(cfg.fs, DEFAULT_THEME, app) + "a";
            |ListsFor(cfg, DEFAULT_THEME, app)| == 1 && ListsFor(cfg, DEFAULT_THEME, app)[0] == [dir] &&
            forall path :: Gives(cfg.disk, [dir], 0, path) <==> path == dir
  {
    var cfg := TwoApps();
    var fs, dir := cfg.fs, AppDir(cfg.fs, DEFAULT_THEME, app) + "a";
    assert Ranked(fs, map[]);
    TwoAppsPrefix();
    TwoAppsNames(app);
    hide AppNames, CommonNames, FeedbackNames;
    assert EffectiveChain(fs, DEFAULT_THEME) == [DEFAULT_THEME];
    assert ThemeCandidates(fs, DEFAULT_THEME, app, "a") == [dir];
    assert ChainCandidates(fs, [], app, "a") == [];
    assert ChainCandidates(fs, [DEFAULT_THEME], app, "a") == [dir] + [];
    assert '-' !in "a";
    assert DirLists(fs, DEFAULT_THEME, app)[0] == [dir];
    assert Sample(cfg.disk, dir, 0) == Ready;
  }

  lemma TwoAppsNames(app: string)
    requires app == "x" || app == SECOND
    ensures var fs := TwoApps().fs;
            AppNames(fs, DEFAULT_THEME, app) == ["a"] && CommonNames(fs, DEFAULT_THEME) == [] &&
            FeedbackNames(fs, app) == ["a"]
  {
    var fs := TwoApps().fs;
    assert fs.themes[DEFAULT_THEME].apps[app] == ["a"] && fs.themes[DEFAULT_THEME].common == [];
    assert ValidName("a");
    assert Filter(["a"], ValidName) == ["a"] + Filter([], ValidName);
    assert Without(["a"], []) == ["a"] + Without([], []);
  }

  lemma TwoAppsPrefix()
    ensures PrefixApart(TwoApps().fs)
  {
    var p, own := "/usr/share/themes", "/" + MEEGOTOUCH + "/";
    assert ThemePrefix(TwoApps().fs) == p;
    assert own[0] == '/' && own[1] == 'm' && |own| == 12 && |p| == 17;
    forall i ensures !OccursAt(p, own, i) {
      if 0 <= i && i + |own| <= |p| {
        assert p[i..i + |own|][0] == p[i] && p[i..i + |own|][1] == p[i + 1];
      }
    }
  }

  /** For this installation there is a run after which nothing is pending and slots of an announced backend
      do not agree with the resolver. */
  lemma SharedKeysDisagree()
    ensures ValidConfig(TwoApps()) && !AlwaysAgrees(TwoApps(), 1, {"x", SECOND}, {DEFAULT_THEME})
  {
    var cfg, apps, themes := TwoApps(), {"x", SECOND}, {DEFAULT_THEME};
    TwoAppsList("x");
    TwoAppsList(SECOND);
    AppsCanCollide(cfg.fs, cfg.disk, "a", 0);
    hide ValidConfig, ListsFor, AppDir, Key, Gives, PrefixApart;
    var dir, dir' := AppDir(cfg.fs, DEFAULT_THEME, "x") + "a", AppDir(cfg.fs, DEFAULT_THEME, SECOND) + "a";
    assert "x" in apps && SECOND in apps && DEFAULT_THEME in themes;
    assert IsWanted(cfg, apps, themes, 0, dir);
    assert Clash(cfg, DEFAULT_THEME, SECOND, 0, 0, 0, dir);
    ClashMeansDisagreement(cfg, 1, apps, themes, DEFAULT_THEME, SECOND, 0, 0, 0, dir);
  }
}
