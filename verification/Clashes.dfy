/** When cache keys are shared: slots agree with the resolver in every run exactly if no directory that is
    searched for a list has the key of a directory wanted by another one. */
module Clashes {
  import opened Text
  import opened Theming
  import opened Resolver
  import opened CacheKeys
  import opened Handles
  import opened HandleInvariants
  import opened Sessions
  import opened Daemon
  import opened Agreement
  import opened Runs

  // Names that bring no prefix in

  lemma {:induction false} ScanIsListed(disk: Disk, dirs: seq<string>, b: nat)
    ensures Scan(disk, dirs, b).Some? ==> Scan(disk, dirs, b).value.path in dirs
  {
    hide Sample;
    if dirs != [] {
      ScanIsListed(disk, dirs[1..], b);
    }
  }

  lemma WantedIsClean(cfg: Config, apps: set<string>, themes: set<string>, b: nat, path: string)
    requires ValidConfig(cfg) && IsWanted(cfg, apps, themes, b, path) && forall a :: a in apps ==> AppFits(cfg.fs, a)
    ensures CleanPath(cfg.disk.prefix, path) && Sample(cfg.disk, path, b) != Empty
  {
    hide DirLists, WellFormed, AppFits, Scan, CleanPath, Sample;
    var t, a, i: nat :| t in themes && a in apps && i < |ListsFor(cfg, t, a)| &&
        Gives(cfg.disk, ListsFor(cfg, t, a)[i], b, path);
    FittingAppsAreClean(cfg.fs, t, a);
    ScanIsListed(cfg.disk, ListsFor(cfg, t, a)[i], b);
    ScanIsSample(cfg.disk, ListsFor(cfg, t, a)[i], b);
  }

  /** Applications whose names do not bring the theme prefix in once more never clash. */
  lemma FittingAppsAreApart(cfg: Config, n: nat, apps: set<string>, themes: set<string>)
    requires ValidConfig(cfg) && forall a :: a in apps ==> AppFits(cfg.fs, a)
    ensures KeysApart(cfg, n, apps, themes)
  {
    hide DirLists, WellFormed, AppFits, Scan, CleanPath, Sample, IsWanted, Apart;
    var wanted := WantedBy(cfg, apps, themes);
    forall t, a, i: nat, b: nat | t in themes && a in apps && i < |ListsFor(cfg, t, a)| && b < n
      ensures Apart(cfg.disk, wanted, ListsFor(cfg, t, a)[i], b)
    {
      var dirs := ListsFor(cfg, t, a)[i];
      FittingAppsAreClean(cfg.fs, t, a);
      forall path | (b, path) in wanted ensures CleanPath(cfg.disk.prefix, path) && Sample(cfg.disk, path, b) != Empty {
        WantedIsClean(cfg, apps, themes, b, path);
      }
      CleanDirsAreApart(cfg.disk, wanted, dirs, b);
    }
  }

  // What a load finds instead

  /** No directory before the `k`-th has the key of a wanted one. */
  ghost predicate NoneBefore(disk: Disk, wanted: Wishes, dirs: seq<string>, b: nat, k: nat) {
    forall j: nat, path :: j < k && j < |dirs| && (b, path) in wanted ==> Key(disk, dirs[j], b) != Key(disk, path, b)
  }

  lemma MissesUnwanted(disk: Disk, wanted: Wishes, st: Store, path: string, b: nat)
    requires StoreInv(disk, st) && WantedStore(wanted, st)
    requires forall other :: (b, other) in wanted ==> Key(disk, path, b) != Key(disk, other, b)
    ensures SearchFromCache(disk, st, path, b).None?
  {
    hide RemoveAll, Hex, Replay, ReadyData, Key, Sample;
    var hit := SearchFromCache(disk, st, path, b);
    if hit.Some? {
      KeyTellsBackend(disk, path, b, st.live[hit.value].path, st.live[hit.value].backend);
    }
  }

  /** A cached handle with the key of a searched directory is taken, whatever its own directory is. */
  lemma {:induction false} FirstLoadIsCaught(disk: Disk, wanted: Wishes, up: set<nat>, st: Store, dirs: seq<string>,
                                             b: nat, k: nat, id: Id)
    requires StoreInv(disk, st) && WantedStore(wanted, st) && Searched(disk, dirs, b, k) &&
             NoneBefore(disk, wanted, dirs, b, k)
    requires SearchFromCache(disk, st, dirs[k], b) == Some(id)
    ensures FirstLoad(disk, up, st, dirs, b).1 == Some(id)
    decreases k
  {
    hide Key, CacheInv, LiveInv, Sample;
    if k > 0 {
      assert Sample(disk, dirs[0], b) == Empty;
      MissesUnwanted(disk, wanted, st, dirs[0], b);
      LoadHandleKeeps(disk, up, st, dirs[0], b);
      var r := LoadHandle(disk, up, st, dirs[0], b);
      assert r.1.None? && r.0 == st.(nextId := st.nextId + 1) by { UnsampledIsMissed(disk, up, st, dirs[0], b); }
      forall j: nat | j < k ensures dirs[1..][j] == dirs[j + 1] { }
      FirstLoadIsCaught(disk, wanted, up, r.0, dirs[1..], b, k - 1, id);
    }
  }

  lemma UnsampledIsMissed(disk: Disk, up: set<nat>, st: Store, path: string, b: nat)
    requires SearchFromCache(disk, st, path, b).None? && Sample(disk, path, b) == Empty
    ensures LoadHandle(disk, up, st, path, b) == (st.(nextId := st.nextId + 1), None)
  {
  }

  predicate Shows(st: Store, slot: Option<Id>, path: string) {
    View(st, slot).Some? && View(st, slot).value.path == path
  }

  /** The slot shows a directory with the key of the `k`-th in the list, which is searched and the first
      with the key of a wanted one. */
  ghost predicate Trapped(disk: Disk, wanted: Wishes, w: World, g: Fb, dirs: seq<string>, b: nat, k: nat,
                          path: string) {
    && g in w.rows && b < |w.rows[g]| && Shows(w.store, w.rows[g][b], path)
    && Searched(disk, dirs, b, k) && NoneBefore(disk, wanted, dirs, b, k) && Key(disk, dirs[k], b) == Key(disk, path, b)
  }

  lemma SlotIsCaught(disk: Disk, wanted: Wishes, up: set<nat>, w: World, f: Fb, g: Fb, dirs: seq<string>, b: nat,
                     k: nat, path: string)
    requires Inv(disk, w) && WantedStore(wanted, w.store) && Trapped(disk, wanted, w, g, dirs, b, k, path)
    requires f in w.rows && b < |w.rows[f]|
    ensures var r := SwapSlot(disk, up, w.store, w.rows[f][b], dirs, b); Shows(r.0, r.1, path)
  {
    hide RemoveAll, Hex, Replay, ReadyData, Key, CountsInv, NoneBefore, FirstLoad, Sample;
    var id := w.rows[g][b].value;
    assert SearchFromCache(disk, w.store, dirs[k], b) == Some(id);
    FirstLoadIsCaught(disk, wanted, up, w.store, dirs, b, k, id);
    FirstLoadKeeps(disk, up, w.store, dirs, b);
    SwapSlotKeeps(disk, up, w, f, b, dirs);
  }

  lemma {:induction false} RowIsCaught(disk: Disk, wanted: Wishes, up: set<nat>, w: World, f: Fb, g: Fb,
                                       dirs: seq<string>, c: nat, b: nat, k: nat, path: string)
    requires Inv(disk, w) && WantedStore(wanted, w.store) && WantedDirs(disk, wanted, up, dirs)
    requires Trapped(disk, wanted, w, g, dirs, b, k, path) && f in w.rows && f != g && c <= b < |w.rows[f]|
    ensures var r := LoadRow(disk, up, w.store, w.rows[f], dirs, c); Shows(r.0, r.1[b], path)
    decreases b - c
  {
    hide Inv, WantedStore, SwapSlot, WantedDirs, Key, Searched, NoneBefore;
    var step := SwapSlot(disk, up, w.store, w.rows[f][c], dirs, c);
    var w1 := WithSlot(w, step.0, f, c, step.1);
    SwapSlotKeeps(disk, up, w, f, c, dirs);
    assert w1.rows[f] == w.rows[f][c := step.1] && w1.rows[g] == w.rows[g];
    if c == b {
      SlotIsCaught(disk, wanted, up, w, f, g, dirs, b, k, path);
      LoadRowKeeps(disk, wanted, up, w1, f, dirs, b + 1);
    } else {
      SwapSlotScans(disk, wanted, up, w, f, c, dirs);
      RowIsCaught(disk, wanted, up, w1, f, g, dirs, c + 1, b, k, path);
    }
  }

  /** A session that is set up while another one shows the directory shows it too. */
  lemma {:induction false} ListsAreCaught(disk: Disk, wanted: Wishes, up: set<nat>, n: nat, others: map<Fb, Row>,
                                          s: nat, st: Store, hash: Hash, lists: seq<seq<string>>, g: Fb,
                                          i: nat, b: nat, k: nat, path: string)
    requires Foreign(others, s) && Inv(disk, World(st, Beside(others, s, hash))) && DistinctNames(lists)
    requires forall j :: 0 <= j < |lists| ==> NameOf(lists[j]) !in hash
    requires WantedStore(wanted, st) && WantedLists(disk, wanted, up, lists) && i < |lists| && b < n
    requires Trapped(disk, wanted, World(st, others), g, lists[i], b, k, path)
    ensures var r := LoadLists(disk, up, n, st, hash, lists, true);
            var name := NameOf(lists[i]);
            name in r.1 && |r.1[name]| == n && Shows(r.0, r.1[name][b], path)
    decreases i
  {
    hide Inv, WantedStore, WantedDirs, LoadList, Beside, NameOf, Key, Searched, NoneBefore, View;
    var name, rest := NameOf(lists[0]), lists[1..];
    LoadListKeeps(disk, wanted, up, n, others, s, st, hash, lists[0], true);
    var r1 := LoadList(disk, up, n, st, hash, lists[0], true);
    NamesOfCons(lists);
    forall j | 0 <= j < |rest| ensures NameOf(rest[j]) !in r1.1 && NameOf(rest[j]) != name && rest[j] == lists[j + 1] {
    }
    assert DistinctNames(rest);
    assert SameSlot(st, r1.0, others[g][b]);
    if i == 0 {
      ListIsCaught(disk, wanted, up, n, others, s, st, hash, lists[0], g, b, k, path);
      LoadListsKeeps(disk, wanted, up, n, others, s, r1.0, r1.1, rest, true);
      forall m | m in NamesOf(rest) ensures m != name {
      }
      assert RowSame(r1.0, LoadLists(disk, up, n, st, hash, lists, true).0, r1.1[name]);
    } else {
      ListsAreCaught(disk, wanted, up, n, others, s, r1.0, r1.1, rest, g, i - 1, b, k, path);
    }
  }

  lemma ListIsCaught(disk: Disk, wanted: Wishes, up: set<nat>, n: nat, others: map<Fb, Row>, s: nat, st: Store,
                     hash: Hash, dirs: seq<string>, g: Fb, b: nat, k: nat, path: string)
    requires Foreign(others, s) && Inv(disk, World(st, Beside(others, s, hash))) && NameOf(dirs) !in hash
    requires WantedStore(wanted, st) && WantedDirs(disk, wanted, up, dirs) && b < n
    requires Trapped(disk, wanted, World(st, others), g, dirs, b, k, path)
    ensures var r := LoadList(disk, up, n, st, hash, dirs, true);
            var name := NameOf(dirs);
            name in r.1 && |r.1[name]| == n && Shows(r.0, r.1[name][b], path)
  {
    hide Inv, WantedStore, WantedDirs, Beside, NameOf, Key, NoneBefore, View, LoadRow;
    var name := NameOf(dirs);
    var w := World(st, Beside(others, s, hash));
    var w1 := World(st, Beside(others, s, hash[name := NullRow(n)]));
    FreshBeside(others, s, hash, name);
    NewFeedbackKeeps(disk, w, Fb(s, name), n);
    BesideUpdate(others, s, hash, name, NullRow(n));
    BesideLookup(others, s, hash[name := NullRow(n)]);
    assert w1.rows[g] == others[g] && w1.rows[Fb(s, name)] == NullRow(n) && dirs != [];
    RowIsCaught(disk, wanted, up, w1, Fb(s, name), g, dirs, 0, b, k, path);
  }

  // A run in which slots disagree

  lemma StartIsReachable(cfg: Config, theme: string, n: nat)
    requires ValidConfig(cfg)
    ensures Reachable(cfg, Initially(theme, n))
  {
    hide ValidConfig, Next, Enabled;
    assert IsRun(cfg, [Initially(theme, n)], []);
  }

  lemma Extend(cfg: Config, states: seq<State>, actions: seq<Action>, a: Action, d: State)
    requires ValidConfig(cfg) && IsRun(cfg, states, actions)
    requires Enabled(cfg, states[|actions|], a) && d == Next(cfg, states[|actions|], a)
    ensures IsRun(cfg, states + [d], actions + [a])
  {
    hide ValidConfig, Enabled, Next;
  }

  lemma NextIsReachable(cfg: Config, d: State, a: Action)
    requires ValidConfig(cfg) && Reachable(cfg, d) && Enabled(cfg, d, a)
    ensures Reachable(cfg, Next(cfg, d, a))
  {
    hide ValidConfig, Enabled, Next;
    var states, actions :| IsRun(cfg, states, actions) && states[|states| - 1] == d;
    var d' := Next(cfg, d, a);
    Extend(cfg, states, actions, a, d');
    assert (states + [d'])[|states + [d']| - 1] == d';
  }

  /** The daemon as it is when only backend `b` has been connected. */
  ghost predicate Waiting(cfg: Config, d: State, theme: string, n: nat, b: nat)
    requires ValidConfig(cfg)
  {
    && Reachable(cfg, d) && |d.backends| == n && IsAnnounced(d, b) && d.queue == [] && d.theme == theme
    && d.sessions == map[] && d.listeners == [] && d.nextSession == 0 && d.apps == {} && d.themes == {theme}
  }

  lemma OneBackendConnects(cfg: Config, theme: string, n: nat, b: nat) returns (d: State)
    requires ValidConfig(cfg) && b < n
    ensures Waiting(cfg, d, theme, n, b)
  {
    hide ValidConfig, Reachable;
    var d0 := Initially(theme, n);
    StartIsReachable(cfg, theme, n);
    NextIsReachable(cfg, d0, AttemptDone(b, true));
    var d1 := Next(cfg, d0, AttemptDone(b, true));
    assert d1.queue == [Established(b)];
    NextIsReachable(cfg, d1, Deliver([]));
    d := Next(cfg, d1, Deliver([]));
  }

  /** `d'` is what becomes of `d` when a session is opened and set up. */
  ghost predicate SetUp(d: State, d': State, app: string) {
    && d'.queue == d.queue && d'.backends == d.backends && d'.theme == d.theme && d'.themes == d.themes
    && d'.listeners == d.listeners + [d.nextSession] && d'.nextSession == d.nextSession + 1 && d'.apps == d.apps + {app}
    && d.nextSession in d'.sessions && d'.sessions[d.nextSession].finished && d'.sessions[d.nextSession].app == app
    && forall t :: t in d.sessions && t != d.nextSession ==> t in d'.sessions && d'.sessions[t] == d.sessions[t]
  }

  lemma OpenAndSetUp(cfg: Config, d: State, app: string) returns (d1: State, d2: State)
    requires ValidConfig(cfg) && Reachable(cfg, d)
    ensures Enabled(cfg, d, OpenSession(app)) && d1 == Next(cfg, d, OpenSession(app)) && Reachable(cfg, d1)
    ensures Enabled(cfg, d1, SetupTimer(d.nextSession)) && d2 == Next(cfg, d1, SetupTimer(d.nextSession)) &&
            Reachable(cfg, d2)
    ensures SetUp(d, d2, app)
  {
    hide ValidConfig, Reachable, LoadLists, ListsFor;
    d1 := Next(cfg, d, OpenSession(app));
    NextIsReachable(cfg, d, OpenSession(app));
    d2 := Next(cfg, d1, SetupTimer(d.nextSession));
    NextIsReachable(cfg, d1, SetupTimer(d.nextSession));
  }

  /** The slot of session `s` for its `i`-th feedback and backend `b` shows this directory. */
  ghost predicate SlotShows(cfg: Config, d: State, s: nat, i: nat, b: nat, path: string)
    requires ValidConfig(cfg)
  {
    s in d.sessions &&
    var names, hash := NamesFor(cfg, d.sessions[s].app), d.sessions[s].hash;
    i < |names| && names[i] in hash && b < |hash[names[i]]| && Shows(d.store, hash[names[i]][b], path)
  }

  lemma AgreeingShows(cfg: Config, d: State, s: nat, i: nat, b: nat, path: string)
    requires ValidConfig(cfg) && s in d.sessions && d.sessions[s].finished && IsAnnounced(d, b)
    requires AllAgree(cfg, d)
    requires i < |ListsFor(cfg, d.theme, d.sessions[s].app)|
    ensures Gives(cfg.disk, ListsFor(cfg, d.theme, d.sessions[s].app)[i], b, path) <==> SlotShows(cfg, d, s, i, b, path)
  {
    hide ValidConfig, ListsFor, NamesFor, Scan, View;
    ListsFit(cfg, d.theme, d.sessions[s].app);
    assert SlotsAgree(cfg, d.store, d.theme, d.sessions[s], b);
    SyncIsAgreement(cfg, d.store, d.theme, d.sessions[s], b);
  }

  /** A session that is set up while a slot of another one holds it in a trap. */
  lemma SetUpIsCaught(cfg: Config, d: State, wanted: Wishes, s: nat, t: nat, j: nat, i: nat, b: nat, k: nat,
                      path: string)
    requires ValidConfig(cfg) && DaemonInv(cfg, d) && Enabled(cfg, d, SetupTimer(t)) && s != t && b < |d.backends|
    requires d.sessions[t].app in d.apps && WantedBy(cfg, d.apps, d.themes) <= wanted
    requires SlotShows(cfg, d, s, j, b, path) && i < |ListsFor(cfg, d.theme, d.sessions[t].app)|
    requires var dirs := ListsFor(cfg, d.theme, d.sessions[t].app)[i];
             Searched(cfg.disk, dirs, b, k) && NoneBefore(cfg.disk, wanted, dirs, b, k) &&
             Key(cfg.disk, dirs[k], b) == Key(cfg.disk, path, b)
    ensures SlotShows(cfg, Next(cfg, d, SetupTimer(t)), t, i, b, path)
  {
    hide ValidConfig, ListsFor, NamesFor, WantedBy, Key, NoneBefore, Inv, LoadLists, QueueOk, Synced, KeysApart, Rows,
         Beside, NameOf, View;
    hide Searched, DistinctNames, Foreign;
    var x := d.sessions[t];
    var others, lists := Rows(d.sessions - {t}), ListsFor(cfg, d.theme, x.app);
    SplitRows(d.sessions, t);
    ListsFit(cfg, d.theme, x.app);
    ListsAreWanted(cfg, d, d.theme, x.app);
    RowsLookup(d.sessions - {t});
    assert x.hash == map[];
    var w := WantedBy(cfg, d.apps, d.themes);
    NoneBeforeFewer(cfg.disk, w, wanted, lists[i], b, k);
    var g := Fb(s, NamesFor(cfg, d.sessions[s].app)[j]);
    assert others[g] == d.sessions[s].hash[g.name];
    ListsAreCaught(cfg.disk, w, Up(d), |d.backends|, others, t, d.store, x.hash, lists, g, i, b, k, path);
  }

  lemma NoneBeforeFewer(disk: Disk, wanted: Wishes, wanted': Wishes, dirs: seq<string>, b: nat, k: nat)
    requires wanted <= wanted' && NoneBefore(disk, wanted', dirs, b, k)
    ensures NoneBefore(disk, wanted, dirs, b, k)
  {
    hide Key;
  }

  /** Reloading another session leaves the slot. */
  lemma OtherReloadShows(cfg: Config, d: State, s: nat, t: nat, theme: string, i: nat, b: nat, path: string)
    requires ValidConfig(cfg) && DaemonInv(cfg, d) && s != t && t in d.sessions && theme in d.themes
    requires SlotShows(cfg, d, s, i, b, path)
    ensures SlotShows(cfg, LoadSession(cfg, d, t, theme, false), s, i, b, path)
  {
    hide ValidConfig, ListsFor, NamesFor, Inv, QueueOk, Synced, KeysApart, WantedBy, Rows, LoadSession, AllScan;
    var d' := LoadSession(cfg, d, t, theme, false);
    LoadedSession(cfg, d, t, theme, false);
    LoadedQueueOnly(cfg, d, t, theme);
    OthersAreSame(d.sessions, t, d.store, d'.store, s, b);
  }

  lemma LoadedQueueOnly(cfg: Config, d: State, t: nat, theme: string)
    requires ValidConfig(cfg) && t in d.sessions
    ensures var d' := LoadSession(cfg, d, t, theme, false);
            d' == d.(store := d'.store, sessions := d.sessions[t := d'.sessions[t]])
  {
    hide ValidConfig, LoadLists;
  }

  /** The `k`-th directory of this list is searched and has the key of a directory that is wanted for
      another list, and the scan of the list gives something else. */
  ghost predicate Clash(cfg: Config, t: string, a: string, i: nat, b: nat, k: nat, path: string)
    requires ValidConfig(cfg)
  {
    i < |ListsFor(cfg, t, a)| &&
    var dirs := ListsFor(cfg, t, a)[i];
    Searched(cfg.disk, dirs, b, k) && Key(cfg.disk, dirs[k], b) == Key(cfg.disk, path, b) &&
      !Gives(cfg.disk, dirs, b, path)
  }

  /** The first session is set up under the theme that wants the directory; then the theme changes, and the
      second session is set up before the first has been told. */
  lemma ClashingRun(cfg: Config, n: nat, wanted: Wishes, t: string, a: string, i: nat, t': string, a': string, i': nat,
                    b: nat, k: nat, path: string) returns (d: State)
    requires ValidConfig(cfg) && b < n && Clash(cfg, t, a, i, b, k, path)
    requires NoneBefore(cfg.disk, wanted, ListsFor(cfg, t, a)[i], b, k) && WantedBy(cfg, {a, a'}, {t, t'}) <= wanted
    requires i' < |ListsFor(cfg, t', a')| && Gives(cfg.disk, ListsFor(cfg, t', a')[i'], b, path)
    ensures Reachable(cfg, d) && |d.backends| == n && d.apps <= {a, a'} && d.themes <= {t, t'}
    ensures d.queue == [] && !AllAgree(cfg, d)
  {
    hide ValidConfig, DaemonInv, Reachable, ListsFor, AllAgree, Clash, WantedBy, NoneBefore, SlotShows, Next, Enabled,
         Gives;
    var d2 := OneBackendConnects(cfg, t', n, b);
    var d3, d4 := OpenAndSetUp(cfg, d2, a');
    d := d4;
    if AllAgree(cfg, d4) {
      AgreeingShows(cfg, d4, 0, i', b, path);
      assert d4.apps + {a} == {a, a'} && d4.themes + {t} == {t, t'};
      d := SecondSession(cfg, d4, wanted, t, a, i, i', b, k, path);
    }
  }

  lemma SecondSession(cfg: Config, d: State, wanted: Wishes, t: string, a: string, i: nat, i': nat, b: nat, k: nat,
                      path: string)
      returns (d': State)
    requires ValidConfig(cfg) && Reachable(cfg, d) && IsAnnounced(d, b) && d.queue == [] && d.listeners == [0] &&
             d.nextSession == 1
    requires SlotShows(cfg, d, 0, i', b, path) && Clash(cfg, t, a, i, b, k, path)
    requires NoneBefore(cfg.disk, wanted, ListsFor(cfg, t, a)[i], b, k) &&
             WantedBy(cfg, d.apps + {a}, d.themes + {t}) <= wanted
    ensures Reachable(cfg, d') && |d'.backends| == |d.backends| && d'.apps == d.apps + {a} &&
            d'.themes == d.themes + {t}
    ensures d'.queue == [] && !AllAgree(cfg, d')
  {
    hide ValidConfig, Reachable, DaemonInv, ListsFor, NamesFor, WantedBy, NoneBefore, LoadSession, View, Key, Gives,
         Searched, AllAgree;
    var d5 := Next(cfg, d, LoadTheme(t));
    NextIsReachable(cfg, d, LoadTheme(t));
    assert d5.queue == [ThemeChanged(0, t)];
    var d6, d7 := OpenAndSetUp(cfg, d5, a);
    ReachableKeeps(cfg, d6);
    ReachableKeeps(cfg, d7);
    SetUpIsCaught(cfg, d6, wanted, 0, 1, i', i, b, k, path);
    d' := Next(cfg, d7, Deliver([]));
    NextIsReachable(cfg, d7, Deliver([]));
    d' := LastReload(cfg, d7, t, i, b, path);
    if AllAgree(cfg, d') {
      AgreeingShows(cfg, d', 1, i, b, path);
    }
  }

  /** The theme event that is still pending reloads the first session only. */
  lemma LastReload(cfg: Config, d: State, theme: string, i: nat, b: nat, path: string) returns (d': State)
    requires ValidConfig(cfg) && Reachable(cfg, d) && d.queue == [ThemeChanged(0, theme)] && 0 in d.sessions &&
             1 in d.sessions
    requires IsAnnounced(d, b) && SlotShows(cfg, d, 1, i, b, path)
    ensures Reachable(cfg, d') && 0 in d'.sessions
    ensures d' == d.(store := d'.store, sessions := d.sessions[0 := d'.sessions[0]], queue := [])
    ensures SlotShows(cfg, d', 1, i, b, path)
  {
    hide ValidConfig, Reachable, NamesFor, LoadSession, View, DaemonInv;
    d' := Next(cfg, d, Deliver([]));
    NextIsReachable(cfg, d, Deliver([]));
    ReachableKeeps(cfg, d);
    var d1 := d.(queue := []);
    assert d.queue[1..] == [];
    ThemeOfQueue(cfg, d);
    LoadedQueueOnly(cfg, d1, 0, theme);
    ReloadShows(cfg, d, d1, theme, i, b, path);
  }

  lemma ThemeOfQueue(cfg: Config, d: State)
    requires ValidConfig(cfg) && DaemonInv(cfg, d) && d.queue != [] && d.queue[0].ThemeChanged?
    ensures d.queue[0].theme in d.themes
  {
    hide ValidConfig, HandlesOk, SessionOk, QueueOk, Synced;
    assert d.queue[0] in d.queue;
  }

  lemma ReloadShows(cfg: Config, d: State, d1: State, theme: string, i: nat, b: nat, path: string)
    requires ValidConfig(cfg) && DaemonInv(cfg, d) && d1 == d.(queue := []) && theme in d.themes && 0 in d.sessions
    requires SlotShows(cfg, d, 1, i, b, path)
    ensures SlotShows(cfg, LoadSession(cfg, d1, 0, theme, false), 1, i, b, path)
  {
    hide ValidConfig, NamesFor, LoadSession, View;
    OtherReloadShows(cfg, d, 1, 0, theme, i, b, path);
    QueueDoesNotMatter(cfg, d, 0, theme);
  }

  lemma QueueDoesNotMatter(cfg: Config, d: State, s: nat, theme: string)
    requires ValidConfig(cfg) && s in d.sessions
    ensures LoadSession(cfg, d.(queue := []), s, theme, false) == LoadSession(cfg, d, s, theme, false).(queue := [])
  {
    hide ValidConfig, LoadLists;
  }

  // The exact condition

  /** In every run with these backends, applications and themes, all slots agree once the queue is empty. */
  ghost predicate AlwaysAgrees(cfg: Config, n: nat, apps: set<string>, themes: set<string>)
    requires ValidConfig(cfg)
  {
    forall d :: Reachable(cfg, d) && |d.backends| == n && d.apps <= apps && d.themes <= themes && d.queue == [] ==>
      AllAgree(cfg, d)
  }

  /** Of the directories of a list that clash the first has no wanted key before it. */
  lemma {:induction false} FirstClash(cfg: Config, apps: set<string>, themes: set<string>, t: string, a: string,
                                      i: nat, b: nat, k: nat, path: string) returns (first: nat, other: string)
    requires ValidConfig(cfg) && PrefixApart(cfg.fs) && Clash(cfg, t, a, i, b, k, path) &&
             IsWanted(cfg, apps, themes, b, path)
    ensures Clash(cfg, t, a, i, b, first, other) && IsWanted(cfg, apps, themes, b, other)
    ensures NoneBefore(cfg.disk, WantedBy(cfg, apps, themes), ListsFor(cfg, t, a)[i], b, first)
    decreases k
  {
    hide ValidConfig, ListsFor, IsWanted, Key, Sample, PrefixApart;
    var dirs, wanted := ListsFor(cfg, t, a)[i], WantedBy(cfg, apps, themes);
    if NoneBefore(cfg.disk, wanted, dirs, b, k) {
      first, other := k, path;
    } else {
      var j: nat, p :| j < k && j < |dirs| && (b, p) in wanted && Key(cfg.disk, dirs[j], b) == Key(cfg.disk, p, b);
      assert Searched(cfg.disk, dirs, b, j);
      if Gives(cfg.disk, dirs, b, p) {
        EarlierKeyClashes(cfg, t, a, i, b, j, k, path);
        first, other := FirstClash(cfg, apps, themes, t, a, i, b, j, path);
      } else {
        first, other := FirstClash(cfg, apps, themes, t, a, i, b, j, p);
      }
    }
  }

  /** If a directory before the clash has the key of what the scan gives, the two are next to each other,
      so that the clash is about that one. */
  lemma EarlierKeyClashes(cfg: Config, t: string, a: string, i: nat, b: nat, j: nat, k: nat, path: string)
    requires ValidConfig(cfg) && PrefixApart(cfg.fs) && Clash(cfg, t, a, i, b, k, path) && j < k
    requires var dirs := ListsFor(cfg, t, a)[i];
             Scan(cfg.disk, dirs, b).Some? &&
             Key(cfg.disk, dirs[j], b) == Key(cfg.disk, Scan(cfg.disk, dirs, b).value.path, b)
    ensures Clash(cfg, t, a, i, b, j, path)
  {
    hide DirLists, WellFormed, RemoveAll, PrefixApart, Sample;
    var dirs := ListsFor(cfg, t, a)[i];
    var s := ScanPosition(cfg.disk, dirs, b);
    ListsAreAdjacent(cfg.fs, t, a, i);
    KeyTellsBackend(cfg.disk, dirs[j], b, dirs[s], b);
    assert s >= k;
    assert s == j + 1;
  }

  lemma {:induction false} ScanPosition(disk: Disk, dirs: seq<string>, b: nat) returns (s: nat)
    requires Scan(disk, dirs, b).Some?
    ensures Searched(disk, dirs, b, s) && dirs[s] == Scan(disk, dirs, b).value.path && Sample(disk, dirs[s], b) != Empty
  {
    hide Sample;
    if Sample(disk, dirs[0], b) != Empty {
      s := 0;
    } else {
      var rest := ScanPosition(disk, dirs[1..], b);
      s := rest + 1;
      forall j | 0 <= j < s ensures Sample(disk, dirs[j], b) == Empty {
        assert j > 0 ==> dirs[1..][j - 1] == dirs[j];
      }
    }
  }

  lemma ClashMeansDisagreement(cfg: Config, n: nat, apps: set<string>, themes: set<string>, t: string, a: string,
                               i: nat, b: nat, k: nat, path: string)
    requires ValidConfig(cfg) && PrefixApart(cfg.fs) && t in themes && a in apps && b < n
    requires Clash(cfg, t, a, i, b, k, path) && IsWanted(cfg, apps, themes, b, path)
    ensures !AlwaysAgrees(cfg, n, apps, themes)
  {
    hide ValidConfig, ListsFor, Clash, Reachable, AllAgree, NoneBefore, KeysApart, Gives;
    var first, other := FirstClash(cfg, apps, themes, t, a, i, b, k, path);
    var t', a', i': nat :| t' in themes && a' in apps && i' < |ListsFor(cfg, t', a')| &&
      Gives(cfg.disk, ListsFor(cfg, t', a')[i'], b, other);
    WantedGrows(cfg, {a, a'}, {t, t'}, apps, themes);
    InBounds(cfg, t, a, i, b, first, other);
    var d := ClashingRun(cfg, n, WantedBy(cfg, apps, themes), t, a, i, t', a', i', b, first, other);
    assert d.apps <= apps && d.themes <= themes;
  }

  lemma InBounds(cfg: Config, t: string, a: string, i: nat, b: nat, k: nat, path: string)
    requires ValidConfig(cfg) && Clash(cfg, t, a, i, b, k, path)
    ensures i < |ListsFor(cfg, t, a)|
  {
  }

  /** Slots agree with the resolver in all runs of these applications under these themes, whenever the
      queue is empty, exactly if no directory that is searched for one of their lists has the cache key of
      a directory wanted by another one, unless its own scan gives that one anyway. */
  lemma AgreementExactlyWhen(cfg: Config, n: nat, apps: set<string>, themes: set<string>)
    requires ValidConfig(cfg) && PrefixApart(cfg.fs)
    ensures AlwaysAgrees(cfg, n, apps, themes) <==> KeysApart(cfg, n, apps, themes)
  {
    hide ValidConfig, ListsFor, Reachable, AllAgree, Apart, IsWanted;
    if KeysApart(cfg, n, apps, themes) {
      forall d | Reachable(cfg, d) && |d.backends| == n && d.apps <= apps && d.themes <= themes && d.queue == []
        ensures AllAgree(cfg, d)
      {
        WantedGrows(cfg, d.apps, d.themes, apps, themes);
        EventualAgreement(cfg, d);
      }
    } else {
      var t, a, i: nat, b: nat :| t in themes && a in apps && i < |ListsFor(cfg, t, a)| && b < n &&
        !Apart(cfg.disk, WantedBy(cfg, apps, themes), ListsFor(cfg, t, a)[i], b);
      var k, path := NotApart(cfg, apps, themes, t, a, i, b);
      ClashMeansDisagreement(cfg, n, apps, themes, t, a, i, b, k, path);
    }
  }

  lemma NotApart(cfg: Config, apps: set<string>, themes: set<string>, t: string, a: string, i: nat, b: nat)
        returns (k: nat, path: string)
    requires ValidConfig(cfg) && i < |ListsFor(cfg, t, a)|
    requires !Apart(cfg.disk, WantedBy(cfg, apps, themes), ListsFor(cfg, t, a)[i], b)
    ensures Clash(cfg, t, a, i, b, k, path) && IsWanted(cfg, apps, themes, b, path)
  {
    hide ValidConfig, ListsFor, IsWanted, Key, Gives, Sample;
    var dirs := ListsFor(cfg, t, a)[i];
    k, path :| Searched(cfg.disk, dirs, b, k) && (b, path) in WantedBy(cfg, apps, themes) &&
      Key(cfg.disk, dirs[k], b) == Key(cfg.disk, path, b) && !Gives(cfg.disk, dirs, b, path);
  }
}
