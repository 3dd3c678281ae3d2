/** Every slot ends up in agreement with the resolver: the invariant of the running daemon, and what
    holds once its event queue is empty. */
module Agreement {
  import opened Text
  import opened Theming
  import opened Resolver
  import opened Handles
  import opened HandleInvariants
  import opened Teardown
  import opened Sessions
  import opened Daemon

  // Queues

  /** The theme of the last pending theme event of a session. */
  function LastTheme(queue: seq<Event>, s: nat): Option<string> {
    if queue == [] then None
    else
      var last := queue[|queue| - 1];
      if last.ThemeChanged? && last.session == s then Some(last.theme) else LastTheme(queue[..|queue| - 1], s)
  }

  /** A pending notice that the backend is connected, with no notice of a loss behind it. */
  function Covered(queue: seq<Event>, b: nat): bool {
    if queue == [] then false
    else
      var last := queue[|queue| - 1];
      if last == Established(b) then true
      else if last == Lost(b) then false
      else Covered(queue[..|queue| - 1], b)
  }

  lemma {:induction false} LastThemeConcat(a: seq<Event>, c: seq<Event>, s: nat)
    ensures LastTheme(a + c, s) == if LastTheme(c, s).Some? then LastTheme(c, s) else LastTheme(a, s)
  {
    if c == [] {
      assert a + c == a;
    } else {
      assert (a + c)[..|a + c| - 1] == a + c[..|c| - 1] && (a + c)[|a + c| - 1] == c[|c| - 1];
      LastThemeConcat(a, c[..|c| - 1], s);
    }
  }

  lemma {:induction false} CoveredConcat(a: seq<Event>, c: seq<Event>, b: nat)
    ensures Covered(a + c, b) <==> Covered(c, b) || (Lost(b) !in c && Covered(a, b))
  {
    if c == [] {
      assert a + c == a;
    } else {
      assert (a + c)[..|a + c| - 1] == a + c[..|c| - 1] && (a + c)[|a + c| - 1] == c[|c| - 1];
      CoveredConcat(a, c[..|c| - 1], b);
      assert Lost(b) in c <==> c[|c| - 1] == Lost(b) || Lost(b) in c[..|c| - 1];
    }
  }

  lemma {:induction false} BroadcastTells(listeners: seq<nat>, theme: string, s: nat)
    ensures LastTheme(Broadcast(listeners, theme), s) == if s in listeners then Some(theme) else None
  {
    if listeners != [] {
      var init := listeners[..|listeners| - 1];
      assert Broadcast(listeners, theme)[..|listeners| - 1] == Broadcast(init, theme);
      BroadcastTells(init, theme, s);
      assert s in listeners <==> s == listeners[|listeners| - 1] || s in init;
    }
  }

  lemma {:induction false} FilterQueue(queue: seq<Event>, s: nat)
    ensures forall e :: e in WithoutSession(queue, s) <==> e in queue && !(e.ThemeChanged? && e.session == s)
    ensures forall t :: LastTheme(WithoutSession(queue, s), t) == if t == s then None else LastTheme(queue, t)
    ensures forall b :: Covered(WithoutSession(queue, s), b) == Covered(queue, b)
  {
    if queue != [] {
      var head, rest := queue[..1], queue[1..];
      var kept := if queue[0].ThemeChanged? && queue[0].session == s then [] else head;
      FilterQueue(rest, s);
      assert queue == head + rest && WithoutSession(queue, s) == kept + WithoutSession(rest, s);
      assert head[..0] == [];
      forall t ensures LastTheme(kept + WithoutSession(rest, s), t) == if t == s then None else LastTheme(queue, t) {
        LastThemeConcat(head, rest, t);
        LastThemeConcat(kept, WithoutSession(rest, s), t);
      }
      forall b ensures Covered(kept + WithoutSession(rest, s), b) == Covered(queue, b) {
        CoveredConcat(head, rest, b);
        CoveredConcat(kept, WithoutSession(rest, s), b);
      }
    }
  }

  /** What is pending after the first event has been taken. */
  lemma TakeFirst(queue: seq<Event>)
    requires queue != []
    ensures forall s :: LastTheme(queue, s).Some? ==>
              LastTheme(queue[1..], s) == LastTheme(queue, s) ||
              (queue[0] == ThemeChanged(s, LastTheme(queue, s).value) && LastTheme(queue[1..], s).None?)
    ensures forall s :: LastTheme(queue, s).None? ==> LastTheme(queue[1..], s).None?
    ensures queue[0].ThemeChanged? ==> LastTheme(queue, queue[0].session).Some?
    ensures forall b :: Covered(queue, b) ==>
            Covered(queue[1..], b) || (queue[0] == Established(b) && Lost(b) !in queue[1..])
    ensures forall b :: Covered(queue[1..], b) ==> Covered(queue, b)
  {
    var head, rest := queue[..1], queue[1..];
    assert queue == head + rest && head[..0] == [];
    forall s
      ensures LastTheme(queue, s) == if LastTheme(rest, s).Some? then LastTheme(rest, s) else LastTheme(head, s)
    {
      LastThemeConcat(head, rest, s);
    }
    forall b ensures Covered(queue, b) <==> Covered(rest, b) || (Lost(b) !in rest && Covered(head, b)) {
      CoveredConcat(head, rest, b);
    }
  }

  // The invariant

  function Rows(sessions: map<nat, Session>): map<Fb, Row> {
    map s, name | s in sessions && name in sessions[s].hash :: Fb(s, name) := sessions[s].hash[name]
  }

  lemma RowsLookup(sessions: map<nat, Session>)
    ensures forall f :: f in Rows(sessions) <==> f.session in sessions && f.name in sessions[f.session].hash
    ensures forall f :: f in Rows(sessions) ==> Rows(sessions)[f] == sessions[f.session].hash[f.name]
  {
    forall f ensures f in Rows(sessions) <==> f.session in sessions && f.name in sessions[f.session].hash {
      assert f == Fb(f.session, f.name);
    }
  }

  /** A finished session has exactly the feedbacks of its application, whatever themes it has seen. */
  ghost predicate SessionOk(cfg: Config, n: nat, x: Session)
    requires ValidConfig(cfg)
  {
    && x.hash.Keys == (if x.finished then set name | name in NamesFor(cfg, x.app) else {})
    && forall m :: m in x.hash ==> |x.hash[m]| == n
  }

  // Wanted directories

  /** The scan of some list of these applications under these themes gives this directory. */
  ghost predicate IsWanted(cfg: Config, apps: set<string>, themes: set<string>, b: nat, path: string)
    requires ValidConfig(cfg)
  {
    exists t, a, i: nat :: t in themes && a in apps && i < |ListsFor(cfg, t, a)| &&
      Gives(cfg.disk, ListsFor(cfg, t, a)[i], b, path)
  }

  ghost function WantedBy(cfg: Config, apps: set<string>, themes: set<string>): Wishes
    requires ValidConfig(cfg)
  {
    iset b: nat, path | IsWanted(cfg, apps, themes, b, path) :: (b, path)
  }

  /** No directory that is searched for a list of these applications under these themes, on one of `n`
      backends, has the key of a directory wanted by another list, unless its own scan gives that one. */
  ghost predicate KeysApart(cfg: Config, n: nat, apps: set<string>, themes: set<string>)
    requires ValidConfig(cfg)
  {
    forall t, a, i: nat, b: nat | t in themes && a in apps && i < |ListsFor(cfg, t, a)| && b < n ::
      Apart(cfg.disk, WantedBy(cfg, apps, themes), ListsFor(cfg, t, a)[i], b)
  }

  /** For the applications and themes so far the cache keys are apart. */
  ghost predicate Safe(cfg: Config, d: State)
    requires ValidConfig(cfg)
  {
    KeysApart(cfg, |d.backends|, d.apps, d.themes)
  }

  lemma WantedGrows(cfg: Config, apps: set<string>, themes: set<string>, apps': set<string>, themes': set<string>)
    requires ValidConfig(cfg) && apps <= apps' && themes <= themes'
    ensures WantedBy(cfg, apps, themes) <= WantedBy(cfg, apps', themes')
    ensures forall n :: KeysApart(cfg, n, apps', themes') ==> KeysApart(cfg, n, apps, themes)
  {
    hide ValidConfig, ListsFor, Apart, Gives;
    var wanted, wanted' := WantedBy(cfg, apps, themes), WantedBy(cfg, apps', themes');
    forall b: nat, path | IsWanted(cfg, apps, themes, b, path) ensures IsWanted(cfg, apps', themes', b, path) { }
    assert wanted <= wanted';
    forall n, t, a, i: nat, b: nat |
      KeysApart(cfg, n, apps', themes') && t in themes && a in apps && i < |ListsFor(cfg, t, a)| && b < n
      ensures Apart(cfg.disk, wanted, ListsFor(cfg, t, a)[i], b)
    {
      ApartFromFewer(cfg.disk, wanted, wanted', ListsFor(cfg, t, a)[i], b);
    }
  }

  /** What the scans of a session's lists give is wanted. */
  lemma ListsAreWanted(cfg: Config, d: State, theme: string, app: string)
    requires ValidConfig(cfg) && theme in d.themes && app in d.apps
    ensures WantedLists(cfg.disk, WantedBy(cfg, d.apps, d.themes), Up(d), ListsFor(cfg, theme, app))
    ensures Safe(cfg, d) ==> ApartLists(cfg.disk, WantedBy(cfg, d.apps, d.themes), Up(d), ListsFor(cfg, theme, app))
  {
    hide ValidConfig, ListsFor, Apart, Scan;
    var lists, wanted := ListsFor(cfg, theme, app), WantedBy(cfg, d.apps, d.themes);
    forall i: nat, b | i < |lists| && b in Up(d) ensures WantedList(cfg.disk, wanted, lists[i], b) {
      if Scan(cfg.disk, lists[i], b).Some? {
        assert Gives(cfg.disk, lists[i], b, Scan(cfg.disk, lists[i], b).value.path);
      }
    }
  }

  ghost predicate HandlesOk(cfg: Config, d: State)
    requires ValidConfig(cfg)
  {
    Inv(cfg.disk, World(d.store, Rows(d.sessions))) && WantedStore(WantedBy(cfg, d.apps, d.themes), d.store)
  }

  ghost predicate SessionsOk(cfg: Config, d: State)
    requires ValidConfig(cfg)
  {
    && (forall s :: s in d.sessions ==>
      SessionOk(cfg, |d.backends|, d.sessions[s]) && s in d.listeners && s < d.nextSession)
    && (forall s :: s in d.sessions ==> d.sessions[s].app in d.apps) && d.theme in d.themes
    && (forall e :: e in d.queue && e.ThemeChanged? ==> e.theme in d.themes)
    && (forall s :: s in d.listeners ==> s in d.sessions)
    && (forall e :: e in d.queue && e.ThemeChanged? ==> e.session < d.nextSession)
  }

  /** The last pending theme event of a session carries the current theme; and if the connection of a
      backend has been announced while a loss is still pending, the notice of it stands behind that
      loss, or the backend is about to leave Connected. */
  ghost predicate QueueOk(d: State) {
    && (forall s :: s in d.sessions ==> LastTheme(d.queue, s) == None || LastTheme(d.queue, s) == Some(d.theme))
    && (forall b :: IsAnnounced(d, b) && Lost(b) in d.queue ==> Covered(d.queue, b) || TryConnectCall(b) in d.queue)
  }

  /** Something is pending that will bring the session's slots for this backend up to date. */
  ghost predicate Unsettled(queue: seq<Event>, s: nat, b: nat) {
    Covered(queue, b) || TryConnectCall(b) in queue || LastTheme(queue, s).Some?
  }

  /** The slots of the session for backend `b` show the first candidate that the backend accepts. */
  ghost predicate InSync(cfg: Config, st: Store, theme: string, x: Session, b: nat)
    requires ValidConfig(cfg)
  {
    var names, lists := NamesFor(cfg, x.app), ListsFor(cfg, theme, x.app);
    forall i :: 0 <= i < |names| ==>
      names[i] in x.hash && b < |x.hash[names[i]]| && View(st, x.hash[names[i]][b]) == Scan(cfg.disk, lists[i], b)
  }

  /** The slots of the session for backend `b` hold the first candidate that the backend takes, in terms of
      the existing directories and of what the backend has for them. */
  ghost predicate SlotsAgree(cfg: Config, st: Store, theme: string, x: Session, b: nat)
    requires ValidConfig(cfg)
  {
    var names, lists := NamesFor(cfg, x.app), ListsFor(cfg, theme, x.app);
    forall i :: 0 <= i < |names| ==>
      names[i] in x.hash && b < |x.hash[names[i]]| && Plays(cfg.disk, st, x.hash[names[i]][b], lists[i], b)
  }

  lemma SyncIsAgreement(cfg: Config, st: Store, theme: string, x: Session, b: nat)
    requires ValidConfig(cfg)
    ensures InSync(cfg, st, theme, x, b) <==> SlotsAgree(cfg, st, theme, x, b)
  {
    hide ValidConfig, ListsFor, NamesFor, Plays, Scan, View;
    ListsFit(cfg, theme, x.app);
    var names, lists := NamesFor(cfg, x.app), ListsFor(cfg, theme, x.app);
    forall i | 0 <= i < |names| && names[i] in x.hash && b < |x.hash[names[i]]|
      ensures Plays(cfg.disk, st, x.hash[names[i]][b], lists[i], b) <==>
              View(st, x.hash[names[i]][b]) == Scan(cfg.disk, lists[i], b)
    {
      PlaysWhatTheScanFinds(cfg.disk, st, x.hash[names[i]][b], lists[i], b);
    }
  }

  ghost predicate Synced(cfg: Config, d: State)
    requires ValidConfig(cfg)
  {
    forall s, b {:trigger IsAnnounced(d, b), d.sessions[s]} ::
      s in d.sessions && d.sessions[s].finished && IsAnnounced(d, b) ==>
      Unsettled(d.queue, s, b) || InSync(cfg, d.store, d.theme, d.sessions[s], b)
  }

  ghost predicate DaemonInv(cfg: Config, d: State)
    requires ValidConfig(cfg)
  {
    HandlesOk(cfg, d) && SessionsOk(cfg, d) && QueueOk(d) && (Safe(cfg, d) ==> Synced(cfg, d))
  }

  // Steps that leave the slots alone

  ghost predicate ColumnSame(st: Store, st': Store, hash: Hash, b: nat) {
    forall m {:trigger hash[m]} :: m in hash && b < |hash[m]| ==> SameSlot(st, st', hash[m][b])
  }

  lemma ColumnStays(st: Store, hash: Hash, b: nat)
    ensures ColumnSame(st, st, hash, b)
  {
  }

  lemma SyncTransfers(cfg: Config, st: Store, st': Store, theme: string, x: Session, b: nat)
    requires ValidConfig(cfg) && InSync(cfg, st, theme, x, b) && ColumnSame(st, st', x.hash, b)
    ensures InSync(cfg, st', theme, x, b)
  {
    hide ListsFor, NamesFor, Scan, ValidConfig, KeysApart, WantedBy;
  }

  /** Agreement carries over to a state where the theme is the same and the sessions that matter have
      kept their slots. */
  lemma SyncCarries(cfg: Config, d: State, d': State)
    requires ValidConfig(cfg) && Synced(cfg, d) && d'.theme == d.theme
    requires forall s, b {:trigger IsAnnounced(d', b), d'.sessions[s]} ::
      s in d'.sessions && d'.sessions[s].finished && IsAnnounced(d', b) ==>
      Unsettled(d'.queue, s, b) ||
      (s in d.sessions && d.sessions[s] == d'.sessions[s] && IsAnnounced(d, b) &&
       !Unsettled(d.queue, s, b) && ColumnSame(d.store, d'.store, d.sessions[s].hash, b))
    ensures Synced(cfg, d')
  {
    hide Unsettled, ColumnSame, InSync, ValidConfig, IsAnnounced;
    forall s, b | s in d'.sessions && d'.sessions[s].finished && IsAnnounced(d', b)
      ensures Unsettled(d'.queue, s, b) || InSync(cfg, d'.store, d'.theme, d'.sessions[s], b)
    {
      if !Unsettled(d'.queue, s, b) {
        SyncTransfers(cfg, d.store, d'.store, d.theme, d.sessions[s], b);
      }
    }
  }

  lemma {:induction false} StrangersHaveNoTheme(queue: seq<Event>, s: nat)
    requires forall e :: e in queue && e.ThemeChanged? ==> e.session != s
    ensures LastTheme(queue, s) == None
  {
    if queue != [] {
      assert queue[|queue| - 1] in queue;
      StrangersHaveNoTheme(queue[..|queue| - 1], s);
    }
  }

  lemma SameHandles(cfg: Config, d: State, d': State)
    requires ValidConfig(cfg) && HandlesOk(cfg, d) && d.apps <= d'.apps && d.themes <= d'.themes
    requires d'.store == d.store && Rows(d'.sessions) == Rows(d.sessions)
    ensures HandlesOk(cfg, d')
  {
    hide ValidConfig, Inv, WantedBy, KeysApart, Rows;
    WantedGrows(cfg, d.apps, d.themes, d'.apps, d'.themes);
  }

  function Opened(d: State, app: string): State {
    d.(sessions := d.sessions[d.nextSession := Session(app, false, map[])],
       listeners := d.listeners + [d.nextSession], nextSession := d.nextSession + 1,
       apps := d.apps + {app})
  }

  lemma OpenedRows(d: State, app: string)
    requires d.nextSession !in d.sessions
    ensures Rows(Opened(d, app).sessions) == Rows(d.sessions)
  {
    RowsLookup(d.sessions);
    RowsLookup(Opened(d, app).sessions);
    hide Rows;
  }

  lemma OpenedSessionsOk(cfg: Config, d: State, app: string)
    requires ValidConfig(cfg) && SessionsOk(cfg, d)
    ensures SessionsOk(cfg, Opened(d, app))
  {
    hide ValidConfig, KeysApart, WantedBy, NamesFor;
    var s, d' := d.nextSession, Opened(d, app);
    assert SessionOk(cfg, |d.backends|, d'.sessions[s]);
    hide SessionOk;
    assert forall t :: t in d'.sessions <==> t == s || t in d.sessions;
    assert forall t :: t in d'.listeners <==> t == s || t in d.listeners;
  }

  lemma OpenedSynced(cfg: Config, d: State, app: string)
    requires ValidConfig(cfg) && Synced(cfg, d)
    ensures Synced(cfg, Opened(d, app))
  {
    hide ValidConfig, KeysApart, WantedBy, InSync, Unsettled;
    var d' := Opened(d, app);
    forall t, b | t in d'.sessions && d'.sessions[t].finished && IsAnnounced(d', b)
      ensures Unsettled(d'.queue, t, b) || InSync(cfg, d'.store, d'.theme, d'.sessions[t], b)
    {
      assert IsAnnounced(d, b) && d.sessions[t] == d'.sessions[t];
    }
  }

  lemma OpenedQueueOk(cfg: Config, d: State, app: string)
    requires ValidConfig(cfg) && SessionsOk(cfg, d) && QueueOk(d)
    ensures QueueOk(Opened(d, app))
  {
    hide ValidConfig, KeysApart, WantedBy, Covered, LastTheme, SessionOk;
    StrangersHaveNoTheme(d.queue, d.nextSession);
    assert forall b :: IsAnnounced(Opened(d, app), b) ==> IsAnnounced(d, b);
  }

  /** A new session has no feedbacks yet, and no event is addressed to it. */
  lemma OpenSessionKeeps(cfg: Config, d: State, app: string)
    requires ValidConfig(cfg) && DaemonInv(cfg, d)
    ensures DaemonInv(cfg, Next(cfg, d, OpenSession(app)))
  {
    hide ValidConfig, KeysApart, WantedBy, HandlesOk, Synced, QueueOk, SessionOk, Rows;
    OpenedSessionsOk(cfg, d, app);
    OpenedRows(d, app);
    OpenedQueueOk(cfg, d, app);
    WantedGrows(cfg, d.apps, d.themes, d.apps + {app}, d.themes);
    if Safe(cfg, d) {
      OpenedSynced(cfg, d, app);
    }
    SameHandles(cfg, d, Opened(d, app));
    assert Next(cfg, d, OpenSession(app)) == Opened(d, app);
  }

  lemma BroadcastEvents(listeners: seq<nat>, theme: string)
    ensures forall e :: e in Broadcast(listeners, theme) ==>
            e.ThemeChanged? && e.session in listeners && e.theme == theme
  {
  }

  lemma LoadThemeKeeps(cfg: Config, d: State, theme: string)
    requires ValidConfig(cfg) && DaemonInv(cfg, d)
    ensures DaemonInv(cfg, Next(cfg, d, LoadTheme(theme)))
  {
    hide ValidConfig, KeysApart, WantedBy, HandlesOk, InSync, Covered, LastTheme, SessionOk;
    var news := Broadcast(d.listeners, theme);
    var d' := Next(cfg, d, LoadTheme(theme));
    SameHandles(cfg, d, d');
    forall s | s in d.sessions ensures LastTheme(d'.queue, s) == Some(theme) {
      BroadcastTells(d.listeners, theme, s);
      LastThemeConcat(d.queue, news, s);
    }
    forall b ensures Covered(d.queue, b) ==> Covered(d'.queue, b) {
      CoveredConcat(d.queue, news, b);
    }
    BroadcastEvents(d.listeners, theme);
    assert forall e :: e in d'.queue <==> e in d.queue || e in news;
    assert SessionsOk(cfg, d');
    assert QueueOk(d');
  }

  // Backends

  lemma AppendKeeps(queue: seq<Event>, news: seq<Event>, s: nat, b: nat)
    requires Lost(b) !in news
    ensures Unsettled(queue, s, b) ==> Unsettled(queue + news, s, b)
    ensures Covered(queue, b) ==> Covered(queue + news, b)
  {
    LastThemeConcat(queue, news, s);
    CoveredConcat(queue, news, b);
  }

  /** `d'` differs from `d` in its backends, and in events behind the queue that are not theme events. */
  ghost predicate BackendStep(d: State, d': State, news: seq<Event>) {
    && d' == d.(backends := d'.backends, queue := d.queue + news)
    && |d'.backends| == |d.backends|
    && forall e :: e in news ==> !e.ThemeChanged?
  }

  /** What such a step must do: a backend that is announced afterwards was so before, unless the step
      announces it; and a loss is announced only with tryConnect pending or on leaving Connected. */
  ghost predicate Announces(d: State, d': State, news: seq<Event>) {
    forall b :: IsAnnounced(d', b) ==>
      Established(b) in news || TryConnectCall(b) in news || (IsAnnounced(d, b) && Lost(b) !in news)
  }

  lemma BackendStepKeeps(cfg: Config, d: State, d': State, news: seq<Event>)
    requires ValidConfig(cfg) && DaemonInv(cfg, d) && BackendStep(d, d', news) && Announces(d, d', news)
    requires forall b :: Established(b) in news ==> news == [Established(b)]
    ensures DaemonInv(cfg, d')
  {
    hide ValidConfig, KeysApart, WantedBy, HandlesOk, QueueOk, Synced, SessionOk, Announces;
    SameHandles(cfg, d, d');
    assert forall e :: e in d'.queue <==> e in d.queue || e in news;
    BackendStepQueueOk(d, d', news);
    if Safe(cfg, d) {
      BackendStepSynced(cfg, d, d', news);
    }
  }

  lemma AnnouncedIsCovered(queue: seq<Event>, b: nat)
    ensures Covered(queue + [Established(b)], b)
  {
    CoveredConcat(queue, [Established(b)], b);
  }

  lemma BackendStepQueueOk(d: State, d': State, news: seq<Event>)
    requires QueueOk(d) && BackendStep(d, d', news) && Announces(d, d', news)
    requires forall b :: Established(b) in news ==> news == [Established(b)]
    ensures QueueOk(d')
  {
    hide Covered, LastTheme, IsAnnounced;
    forall s ensures LastTheme(d'.queue, s) == LastTheme(d.queue, s) {
      StrangersHaveNoTheme(news, s);
      LastThemeConcat(d.queue, news, s);
    }
    forall b | IsAnnounced(d', b) && Lost(b) in d'.queue ensures Covered(d'.queue, b) || TryConnectCall(b) in d'.queue {
      if Established(b) in news {
        AnnouncedIsCovered(d.queue, b);
      } else if TryConnectCall(b) !in news {
        AppendKeeps(d.queue, news, 0, b);
      }
    }
  }

  lemma BackendStepSynced(cfg: Config, d: State, d': State, news: seq<Event>)
    requires ValidConfig(cfg) && Synced(cfg, d) && BackendStep(d, d', news) && Announces(d, d', news)
    requires forall b :: Established(b) in news ==> news == [Established(b)]
    ensures Synced(cfg, d')
  {
    hide ValidConfig, KeysApart, WantedBy, InSync, Covered, LastTheme, IsAnnounced;
    forall s, b | s in d'.sessions && d'.sessions[s].finished && IsAnnounced(d', b)
      ensures Unsettled(d'.queue, s, b) || InSync(cfg, d'.store, d'.theme, d'.sessions[s], b)
    {
      if Established(b) in news {
        AnnouncedIsCovered(d.queue, b);
      } else if TryConnectCall(b) !in news {
        AppendKeeps(d.queue, news, s, b);
      }
    }
  }

  lemma LoseConnectionKeeps(cfg: Config, d: State, b: nat, threaded: bool, marks: bool)
    requires ValidConfig(cfg) && Enabled(cfg, d, LoseConnection(b, threaded, marks)) && DaemonInv(cfg, d)
    ensures DaemonInv(cfg, Next(cfg, d, LoseConnection(b, threaded, marks)))
  {
    hide ValidConfig, KeysApart, WantedBy, DaemonInv;
    BackendStepKeeps(cfg, d, Lose(d, b, threaded, marks), if threaded then [TryConnectCall(b), Lost(b)] else [Lost(b)]);
  }

  lemma TimerFiresKeeps(cfg: Config, d: State, b: nat)
    requires ValidConfig(cfg) && DaemonInv(cfg, d) && Enabled(cfg, d, TimerFires(b))
    ensures DaemonInv(cfg, Next(cfg, d, TimerFires(b)))
  {
    hide ValidConfig, KeysApart, WantedBy, DaemonInv;
    assert d.queue + [] == d.queue;
    BackendStepKeeps(cfg, d, Next(cfg, d, TimerFires(b)), []);
  }

  /** A backend that marks itself Connected is not announced yet. */
  lemma MarkConnectedKeeps(cfg: Config, d: State, b: nat)
    requires ValidConfig(cfg) && DaemonInv(cfg, d) && Enabled(cfg, d, MarkConnected(b))
    ensures DaemonInv(cfg, Next(cfg, d, MarkConnected(b)))
  {
    hide ValidConfig, KeysApart, WantedBy, DaemonInv;
    assert d.queue + [] == d.queue;
    BackendStepKeeps(cfg, d, Next(cfg, d, MarkConnected(b)), []);
  }

  lemma AttemptDoneKeeps(cfg: Config, d: State, b: nat, ok: bool)
    requires ValidConfig(cfg) && DaemonInv(cfg, d) && Enabled(cfg, d, AttemptDone(b, ok))
    ensures DaemonInv(cfg, Next(cfg, d, AttemptDone(b, ok)))
  {
    hide ValidConfig, KeysApart, WantedBy, DaemonInv;
    assert d.queue + [] == d.queue;
    BackendStepKeeps(cfg, d, FinishAttempt(d, b, ok), if ok then [Established(b)] else []);
  }

  // Delivering notices

  lemma DeliverTryConnectKeeps(cfg: Config, d: State, order: seq<string>)
    requires ValidConfig(cfg) && d.queue != [] && Enabled(cfg, d, Deliver(order)) && DaemonInv(cfg, d) &&
             d.queue[0].TryConnectCall?
    ensures DaemonInv(cfg, DeliverFirst(cfg, d, order))
  {
    hide ValidConfig, KeysApart, WantedBy, HandlesOk, SessionsOk, QueueOk, Synced, DeliverFirst;
    var d' := DeliverFirst(cfg, d, order);
    CallIsTaken(cfg, d, order);
    SameHandles(cfg, d, d');
    SessionsStayOk(cfg, d, d');
    TakenQueueOk(d, d');
    if Safe(cfg, d) {
      TakenSynced(cfg, d, d');
    }
  }

  lemma CallIsTaken(cfg: Config, d: State, order: seq<string>)
    requires ValidConfig(cfg) && d.queue != [] && d.queue[0].TryConnectCall?
    ensures CallTaken(d, DeliverFirst(cfg, d, order)) && |DeliverFirst(cfg, d, order).backends| == |d.backends|
  {
    hide ValidConfig;
  }

  /** Nothing but the store, the backends and the queue has changed, and no theme events have come but
      those of the sessions that are there, for the current theme. */
  lemma SessionsStayOk(cfg: Config, d: State, d': State)
    requires ValidConfig(cfg) && SessionsOk(cfg, d)
    requires d' == d.(store := d'.store, backends := d'.backends, queue := d'.queue) && |d'.backends| == |d.backends|
    requires forall e :: e in d'.queue && e.ThemeChanged? ==>
               e in d.queue || (e.session in d.listeners && e.theme == d.theme)
    ensures SessionsOk(cfg, d')
  {
    hide ValidConfig, SessionOk;
  }

  /** The first event is gone, and with it at most the connection of its backend. */
  ghost predicate CallTaken(d: State, d': State) {
    && d.queue != [] && d.queue[0].TryConnectCall?
    && d' == d.(backends := d'.backends, queue := d.queue[1..])
    && forall b :: IsAnnounced(d', b) ==> IsAnnounced(d, b) && b != d.queue[0].backend
  }

  lemma TakenQueueOk(d: State, d': State)
    requires QueueOk(d) && CallTaken(d, d')
    ensures QueueOk(d')
  {
    hide Covered, LastTheme, IsAnnounced;
    TakeFirst(d.queue);
    assert forall e :: e in d.queue <==> e == d.queue[0] || e in d.queue[1..];
  }

  lemma TakenSynced(cfg: Config, d: State, d': State)
    requires ValidConfig(cfg) && Synced(cfg, d) && CallTaken(d, d')
    ensures Synced(cfg, d')
  {
    hide ValidConfig, InSync, Covered, LastTheme, IsAnnounced;
    TakeFirst(d.queue);
    assert forall e :: e in d.queue <==> e == d.queue[0] || e in d.queue[1..];
  }

  lemma DeliverEstablishedKeeps(cfg: Config, d: State, order: seq<string>)
    requires ValidConfig(cfg) && d.queue != [] && Enabled(cfg, d, Deliver(order)) && DaemonInv(cfg, d) &&
             d.queue[0].Established?
    ensures DaemonInv(cfg, DeliverFirst(cfg, d, order))
  {
    hide ValidConfig, KeysApart, WantedBy, HandlesOk, SessionsOk, QueueOk, Synced, DeliverFirst;
    var d' := DeliverFirst(cfg, d, order);
    NoticeIsTaken(cfg, d, order);
    BroadcastEvents(d.listeners, d.theme);
    SameHandles(cfg, d, d');
    SessionsStayOk(cfg, d, d');
    AnnouncedToAll(cfg, d, d');
  }

  lemma NoticeIsTaken(cfg: Config, d: State, order: seq<string>)
    requires ValidConfig(cfg) && d.queue != [] && d.queue[0].Established?
    ensures DeliverFirst(cfg, d, order) == d.(queue := d.queue[1..] + Broadcast(d.listeners, d.theme))
  {
  }

  /** Every session is told the current theme, which makes up for the notice that is gone. */
  lemma AnnouncedToAll(cfg: Config, d: State, d': State)
    requires ValidConfig(cfg) && QueueOk(d) && SessionsOk(cfg, d) && d.queue != [] && d.queue[0].Established?
    requires d' == d.(queue := d.queue[1..] + Broadcast(d.listeners, d.theme))
    ensures QueueOk(d') && Synced(cfg, d')
  {
    hide ValidConfig, InSync, Covered, LastTheme, SessionOk;
    var rest, news := d.queue[1..], Broadcast(d.listeners, d.theme);
    TakeFirst(d.queue);
    assert forall e :: e in d.queue <==> e == d.queue[0] || e in rest;
    assert forall e :: e in d'.queue <==> e in rest || e in news;
    BroadcastEvents(d.listeners, d.theme);
    forall s | s in d.sessions ensures LastTheme(d'.queue, s) == Some(d.theme) {
      BroadcastTells(d.listeners, d.theme, s);
      LastThemeConcat(rest, news, s);
    }
    forall b ensures Covered(rest, b) ==> Covered(d'.queue, b) {
      AppendKeeps(rest, news, 0, b);
    }
    assert forall b :: IsAnnounced(d', b) <==> IsAnnounced(d, b);
  }

  lemma DeliverLostKeeps(cfg: Config, d: State, order: seq<string>)
    requires ValidConfig(cfg) && d.queue != [] && Enabled(cfg, d, Deliver(order)) && DaemonInv(cfg, d) &&
             d.queue[0].Lost?
    ensures DaemonInv(cfg, DeliverFirst(cfg, d, order))
  {
    hide ValidConfig, KeysApart, WantedBy, HandlesOk, SessionsOk, QueueOk, Synced, DeliverFirst, Purge, Rows;
    var d' := DeliverFirst(cfg, d, order);
    LossIsTaken(cfg, d, order);
    LostHandlesOk(cfg, d, d', order);
    SessionsStayOk(cfg, d, d');
    LostQueueOk(d, d');
    if Safe(cfg, d) {
      DeliverLostSynced(cfg, d, d');
    }
  }

  lemma LossIsTaken(cfg: Config, d: State, order: seq<string>)
    requires ValidConfig(cfg) && d.queue != [] && d.queue[0].Lost?
    ensures DeliverFirst(cfg, d, order) ==
            d.(store := Purge(d.store, order, d.queue[0].backend), queue := d.queue[1..])
  {
  }

  lemma LostHandlesOk(cfg: Config, d: State, d': State, order: seq<string>)
    requires ValidConfig(cfg) && HandlesOk(cfg, d) && Enabled(cfg, d, Deliver(order)) && d.queue[0].Lost?
    requires d' == d.(store := Purge(d.store, order, d.queue[0].backend), queue := d.queue[1..])
    ensures HandlesOk(cfg, d')
    ensures forall f, c: nat {:trigger Rows(d.sessions)[f][c]} ::
              f in Rows(d.sessions) && c < |Rows(d.sessions)[f]| && c != d.queue[0].backend ==>
                SameSlot(d.store, d'.store, Rows(d.sessions)[f][c])
  {
    hide ValidConfig, WantedBy, StoreInv, CountsInv, SlotsInv, Rows, Purge;
    DisconnectIsolates(cfg.disk, World(d.store, Rows(d.sessions)), order, d.queue[0].backend);
  }

  lemma LostQueueOk(d: State, d': State)
    requires QueueOk(d) && d.queue != [] && d.queue[0].Lost?
    requires d' == d.(store := d'.store, queue := d.queue[1..])
    ensures QueueOk(d')
  {
    hide Covered, LastTheme;
    TakeFirst(d.queue);
    assert forall e :: e in d.queue <==> e == d.queue[0] || e in d.queue[1..];
    assert forall b :: IsAnnounced(d', b) <==> IsAnnounced(d, b);
  }

  /** Slots of other backends show what they showed; those of the lost backend are announced to be up to
      date later, if at all. */
  lemma DeliverLostSynced(cfg: Config, d: State, d': State)
    requires ValidConfig(cfg) && Synced(cfg, d) && QueueOk(d) && d.queue != [] && d.queue[0].Lost?
    requires d' == d.(store := d'.store, queue := d.queue[1..])
    requires forall f, c: nat {:trigger Rows(d.sessions)[f][c]} ::
               f in Rows(d.sessions) && c < |Rows(d.sessions)[f]| && c != d.queue[0].backend ==>
                 SameSlot(d.store, d'.store, Rows(d.sessions)[f][c])
    ensures Synced(cfg, d')
  {
    hide ValidConfig, KeysApart, WantedBy, InSync, Covered, LastTheme, SameSlot;
    TakeFirst(d.queue);
    assert forall e :: e in d.queue <==> e == d.queue[0] || e in d.queue[1..];
    RowsLookup(d.sessions);
    hide Rows;
    forall s, b: nat | s in d.sessions && b != d.queue[0].backend
      ensures ColumnSame(d.store, d'.store, d.sessions[s].hash, b)
    {
      forall m | m in d.sessions[s].hash && b < |d.sessions[s].hash[m]|
        ensures SameSlot(d.store, d'.store, d.sessions[s].hash[m][b])
      {
        assert Rows(d.sessions)[Fb(s, m)][b] == d.sessions[s].hash[m][b];
      }
    }
    SyncCarries(cfg, d, d');
  }

  // Loading a session

  /** The lists of a session fit its feedbacks, for every theme. */
  lemma ListsFit(cfg: Config, theme: string, app: string)
    requires ValidConfig(cfg)
    ensures var lists, names := ListsFor(cfg, theme, app), NamesFor(cfg, app);
            |lists| == |names| && DistinctNames(lists) &&
            NamesOf(lists) == (set name | name in names) &&
            forall i :: 0 <= i < |lists| ==> lists[i] != [] && NameOf(lists[i]) == names[i]
  {
    hide DirLists, FeedbackNames, WellFormed;
    NamesAreStable(cfg.fs, theme, app);
    var lists, names := ListsFor(cfg, theme, app), NamesFor(cfg, app);
    forall name ensures name in NamesOf(lists) <==> name in names {
      if name in names {
        var i :| 0 <= i < |names| && names[i] == name;
        assert NameOf(lists[i]) == name;
      }
    }
  }

  lemma SplitRows(sessions: map<nat, Session>, s: nat)
    requires s in sessions
    ensures Foreign(Rows(sessions - {s}), s)
    ensures Rows(sessions) == Beside(Rows(sessions - {s}), s, sessions[s].hash)
  {
    var whole, others := Rows(sessions), Rows(sessions - {s});
    RowsLookup(sessions);
    RowsLookup(sessions - {s});
    hide Rows;
    var both := Beside(others, s, sessions[s].hash);
    BesideLookup(others, s, sessions[s].hash);
    forall f ensures f in whole <==> f in both {
      assert f == Fb(f.session, f.name);
    }
    forall f | f in whole ensures whole[f] == both[f] {
      assert f == Fb(f.session, f.name);
    }
  }

  lemma OthersAreSame(sessions: map<nat, Session>, s: nat, st: Store, st': Store, t: nat, b: nat)
    requires s in sessions && t in sessions && t != s && OthersKeep(Rows(sessions - {s}), st, st')
    ensures ColumnSame(st, st', sessions[t].hash, b)
  {
    hide SameSlot;
    var others := Rows(sessions - {s});
    forall m | m in sessions[t].hash && b < |sessions[t].hash[m]| ensures SameSlot(st, st', sessions[t].hash[m][b]) {
      assert others[Fb(t, m)][b] == sessions[t].hash[m][b];
    }
  }

  lemma SessionStaysOk(cfg: Config, n: nat, x: Session, r: (Store, Hash), theme: string, create: bool)
    requires ValidConfig(cfg) && SessionOk(cfg, n, x) && (create ==> !x.finished)
    requires r.1.Keys == x.hash.Keys + (if create then NamesOf(ListsFor(cfg, theme, x.app)) else {})
    requires forall m :: m in r.1 ==> |r.1[m]| == if m in x.hash then |x.hash[m]| else n
    ensures SessionOk(cfg, n, x.(hash := r.1, finished := x.finished || create))
  {
    hide ListsFor, NamesFor, ValidConfig;
    ListsFit(cfg, theme, x.app);
  }

  /** What LoadLists does to the session, beside the others. */
  lemma LoadedSession(cfg: Config, d: State, s: nat, theme: string, create: bool)
    requires ValidConfig(cfg) && HandlesOk(cfg, d) && s in d.sessions && SessionOk(cfg, |d.backends|, d.sessions[s])
    requires (create ==> !d.sessions[s].finished) && d.sessions[s].app in d.apps && theme in d.themes
    ensures var d' := LoadSession(cfg, d, s, theme, create);
            var x := d'.sessions[s];
            HandlesOk(cfg, d') && SessionOk(cfg, |d.backends|, x) &&
            OthersKeep(Rows(d.sessions - {s}), d.store, d'.store) &&
            (Safe(cfg, d) ==> AllScan(cfg.disk, Up(d), d'.store, x.hash, ListsFor(cfg, theme, x.app)))
  {
    hide ListsFor, NamesFor, Inv, WantedStore, ValidConfig, LoadLists, Foreign, AllScan, OthersKeep;
    hide DistinctNames, NameOf, Rows, Beside, NamesOf;
    var x := d.sessions[s];
    var others, lists := Rows(d.sessions - {s}), ListsFor(cfg, theme, x.app);
    SplitRows(d.sessions, s);
    ListsFit(cfg, theme, x.app);
    ListsAreWanted(cfg, d, theme, x.app);
    var wanted := WantedBy(cfg, d.apps, d.themes);
    LoadListsKeeps(cfg.disk, wanted, Up(d), |d.backends|, others, s, d.store, x.hash, lists, create);
    var d' := LoadSession(cfg, d, s, theme, create);
    SessionStaysOk(cfg, |d.backends|, x, (d'.store, d'.sessions[s].hash), theme, create);
    assert d'.sessions - {s} == d.sessions - {s};
    SplitRows(d'.sessions, s);
  }

  lemma ScansMeansSync(cfg: Config, d: State, st: Store, theme: string, x: Session, b: nat)
    requires ValidConfig(cfg) && SessionOk(cfg, |d.backends|, x) && x.finished && IsAnnounced(d, b)
    requires AllScan(cfg.disk, Up(d), st, x.hash, ListsFor(cfg, theme, x.app))
    ensures InSync(cfg, st, theme, x, b)
  {
    hide ListsFor, NamesFor, ValidConfig, Scan, View;
    ListsFit(cfg, theme, x.app);
    var names, lists := NamesFor(cfg, x.app), ListsFor(cfg, theme, x.app);
    forall i | 0 <= i < |names|
      ensures names[i] in x.hash && b < |x.hash[names[i]]| &&
              View(st, x.hash[names[i]][b]) == Scan(cfg.disk, lists[i], b)
    {
      assert NameOf(lists[i]) == names[i] && names[i] in x.hash;
      assert RowScans(cfg.disk, Up(d), st, x.hash[names[i]], lists[i]);
    }
  }

  /** Agreement carries over to the sessions that a step leaves alone, if what is pending for them stays. */
  lemma OthersStaySynced(cfg: Config, d: State, st': Store, queue: seq<Event>, s: nat, t: nat, b: nat)
    requires ValidConfig(cfg) && Synced(cfg, d) && s in d.sessions && OthersKeep(Rows(d.sessions - {s}), d.store, st')
    requires t in d.sessions && t != s && d.sessions[t].finished && IsAnnounced(d, b)
    requires Unsettled(d.queue, t, b) ==> Unsettled(queue, t, b)
    ensures Unsettled(queue, t, b) || InSync(cfg, st', d.theme, d.sessions[t], b)
  {
    hide ValidConfig, KeysApart, WantedBy, InSync, Unsettled, OthersKeep, ColumnSame, Rows;
    if !Unsettled(queue, t, b) {
      OthersAreSame(d.sessions, s, d.store, st', t, b);
      SyncTransfers(cfg, d.store, st', d.theme, d.sessions[t], b);
    }
  }

  lemma LoadedSynced(cfg: Config, d: State, d1: State, s: nat, theme: string, create: bool)
    requires ValidConfig(cfg) && DaemonInv(cfg, d) && s in d.sessions && (create ==> !d.sessions[s].finished)
    requires d1 == d.(queue := d1.queue) && Safe(cfg, d) && theme in d.themes
    requires theme == d.theme || LastTheme(d1.queue, s).Some?
    requires forall t, b :: t != s && Unsettled(d.queue, t, b) ==> Unsettled(d1.queue, t, b)
    ensures Synced(cfg, LoadSession(cfg, d1, s, theme, create))
  {
    hide ValidConfig, KeysApart, WantedBy, HandlesOk, InSync, Covered, LastTheme, SessionOk, AllScan, ListsFor,
         OthersKeep, LoadLists, Rows, Up;
    var d' := LoadSession(cfg, d1, s, theme, create);
    SameHandles(cfg, d, d1);
    LoadedSession(cfg, d1, s, theme, create);
    forall t, b: nat | t in d'.sessions && d'.sessions[t].finished && IsAnnounced(d', b)
      ensures Unsettled(d'.queue, t, b) || InSync(cfg, d'.store, d'.theme, d'.sessions[t], b)
    {
      if t == s {
        ScansMeansSync(cfg, d1, d'.store, theme, d'.sessions[s], b);
      } else {
        OthersStaySynced(cfg, d, d'.store, d1.queue, s, t, b);
      }
    }
  }

  /** Loading a session for the current theme puts it in sync on every Connected backend; loading it for
      an older theme leaves it with a later theme event pending. Nobody else's slots change. */
  lemma LoadSessionKeeps(cfg: Config, d: State, d1: State, s: nat, theme: string, create: bool)
    requires ValidConfig(cfg) && DaemonInv(cfg, d) && s in d.sessions && (create ==> !d.sessions[s].finished)
    requires d1 == d.(queue := d1.queue) && QueueOk(d1) && SessionsOk(cfg, d1) && theme in d.themes
    requires theme == d.theme || LastTheme(d1.queue, s).Some?
    requires forall t, b :: t != s && Unsettled(d.queue, t, b) ==> Unsettled(d1.queue, t, b)
    ensures DaemonInv(cfg, LoadSession(cfg, d1, s, theme, create))
  {
    hide ValidConfig, KeysApart, WantedBy, HandlesOk, Synced, QueueOk, Unsettled, SessionOk, AllScan, OthersKeep,
         LoadSession, Rows;
    SameHandles(cfg, d, d1);
    LoadedSession(cfg, d1, s, theme, create);
    if Safe(cfg, d) {
      LoadedSynced(cfg, d, d1, s, theme, create);
    }
    LoadedQueue(cfg, d1, s, theme, create);
  }

  lemma LoadedQueue(cfg: Config, d: State, s: nat, theme: string, create: bool)
    requires ValidConfig(cfg) && s in d.sessions && QueueOk(d)
    ensures var d' := LoadSession(cfg, d, s, theme, create);
            QueueOk(d') && d' == d.(store := d'.store, sessions := d.sessions[s := d'.sessions[s]]) &&
            d'.sessions[s].app == d.sessions[s].app
  {
    hide ValidConfig, KeysApart, WantedBy, LoadLists, Covered, LastTheme;
  }

  lemma SetupTimerKeeps(cfg: Config, d: State, s: nat)
    requires ValidConfig(cfg) && DaemonInv(cfg, d) && Enabled(cfg, d, SetupTimer(s))
    ensures DaemonInv(cfg, Next(cfg, d, SetupTimer(s)))
  {
    hide ValidConfig, KeysApart, WantedBy, HandlesOk, SessionOk, QueueOk, Synced, Unsettled, LoadSession;
    LoadSessionKeeps(cfg, d, d, s, d.theme, true);
  }

  lemma DeliverThemeKeeps(cfg: Config, d: State, order: seq<string>)
    requires ValidConfig(cfg) && d.queue != [] && Enabled(cfg, d, Deliver(order)) && DaemonInv(cfg, d) &&
             d.queue[0].ThemeChanged?
    ensures DaemonInv(cfg, DeliverFirst(cfg, d, order))
  {
    hide ValidConfig, KeysApart, WantedBy, HandlesOk, SessionOk, QueueOk, Synced, Unsettled, LoadSession;
    var d1, head := d.(queue := d.queue[1..]), d.queue[0];
    assert head in d.queue && forall e :: e in d1.queue ==> e in d.queue;
    SessionsStayOk(cfg, d, d1);
    ThemeIsTaken(cfg, d);
    if head.session in d.sessions {
      LoadSessionKeeps(cfg, d, d1, head.session, head.theme, false);
    } else {
      SameHandles(cfg, d, d1);
      if Safe(cfg, d) {
        DroppedSynced(cfg, d);
      }
    }
  }

  /** What else is pending stays, and the theme event was for the current theme, or is not the last. */
  lemma ThemeIsTaken(cfg: Config, d: State)
    requires ValidConfig(cfg) && QueueOk(d) && SessionsOk(cfg, d) && d.queue != [] && d.queue[0].ThemeChanged?
    ensures var d1, head := d.(queue := d.queue[1..]), d.queue[0];
            QueueOk(d1) &&
            (head.session in d.sessions ==> head.theme == d.theme || LastTheme(d1.queue, head.session).Some?) &&
            forall t, b :: t != head.session && Unsettled(d.queue, t, b) ==> Unsettled(d1.queue, t, b)
  {
    hide ValidConfig, Covered, LastTheme, SessionOk;
    var d1 := d.(queue := d.queue[1..]);
    TakeFirst(d.queue);
    assert forall e :: e in d.queue <==> e == d.queue[0] || e in d1.queue;
    assert forall b :: IsAnnounced(d1, b) <==> IsAnnounced(d, b);
  }

  /** A theme event for a session that is gone. */
  lemma DroppedSynced(cfg: Config, d: State)
    requires ValidConfig(cfg) && QueueOk(d) && SessionsOk(cfg, d) && Synced(cfg, d)
    requires d.queue != [] && d.queue[0].ThemeChanged? && d.queue[0].session !in d.sessions
    ensures Synced(cfg, d.(queue := d.queue[1..]))
  {
    hide ValidConfig, QueueOk, Unsettled, SessionOk, InSync;
    var d1 := d.(queue := d.queue[1..]);
    ThemeIsTaken(cfg, d);
    assert forall b :: IsAnnounced(d1, b) <==> IsAnnounced(d, b);
  }

  lemma {:induction false} RemoveListener(listeners: seq<nat>, s: nat)
    ensures forall t :: t in Remove(listeners, s) <==> t in listeners && t != s
  {
    if listeners != [] {
      RemoveListener(listeners[1..], s);
      assert forall t :: t in listeners <==> t == listeners[0] || t in listeners[1..];
    }
  }

  lemma ClosedHandles(cfg: Config, d: State, s: nat, names: seq<string>)
    requires ValidConfig(cfg) && HandlesOk(cfg, d) && Enabled(cfg, d, CloseSession(s, names))
    ensures var d' := CloseSessionOf(cfg, d, s, names);
            HandlesOk(cfg, d') && OthersKeep(Rows(d.sessions - {s}), d.store, d'.store)
  {
    hide Inv, OthersKeep, UnloadHash, Rows, Foreign, WantedBy;
    var others, hash := Rows(d.sessions - {s}), d.sessions[s].hash;
    SplitRows(d.sessions, s);
    UnloadHashKeeps(cfg.disk, others, s, d.store, hash, names);
    assert UnloadHash(cfg.disk, d.store, hash, names).1.Keys == {};
    assert Beside(others, s, map[]) == others;
  }

  lemma ClosedQueue(cfg: Config, d: State, s: nat, names: seq<string>)
    requires ValidConfig(cfg) && SessionsOk(cfg, d) && QueueOk(d) && s in d.sessions
    ensures var d' := CloseSessionOf(cfg, d, s, names);
            SessionsOk(cfg, d') && QueueOk(d') &&
            forall t, b :: t != s && Unsettled(d.queue, t, b) ==> Unsettled(d'.queue, t, b)
  {
    hide ValidConfig, KeysApart, WantedBy, Covered, LastTheme, SessionOk, UnloadHash;
    FilterQueue(d.queue, s);
    RemoveListener(d.listeners, s);
  }

  /** A session that is closed takes its own events with it. */
  lemma CloseSessionKeeps(cfg: Config, d: State, s: nat, names: seq<string>)
    requires ValidConfig(cfg) && DaemonInv(cfg, d) && Enabled(cfg, d, CloseSession(s, names))
    ensures DaemonInv(cfg, Next(cfg, d, CloseSession(s, names)))
  {
    hide ValidConfig, KeysApart, WantedBy, HandlesOk, SessionsOk, QueueOk, InSync, Unsettled, OthersKeep, UnloadHash,
         Rows;
    var d' := CloseSessionOf(cfg, d, s, names);
    ClosedHandles(cfg, d, s, names);
    ClosedQueue(cfg, d, s, names);
    forall t, b: nat | Safe(cfg, d) && t in d'.sessions && d'.sessions[t].finished && IsAnnounced(d', b)
      ensures Unsettled(d'.queue, t, b) || InSync(cfg, d'.store, d'.theme, d'.sessions[t], b)
    {
      OthersStaySynced(cfg, d, d'.store, d'.queue, s, t, b);
    }
  }
}
