/** The running daemon: sessions, backends and one queue of events, as a state machine. Every slot runs
    to completion on the main thread; connection attempts, timers, clients and the configuration act
    between the slots, in any order. */
module Daemon {
  import opened Theming
  import opened Handles
  import opened Sessions
  import opened Reconnection

  /** The installed themes, and what the backends make of their directories. */
  datatype Config = Config(fs: FileSystem, disk: Disk)

  ghost predicate ValidConfig(cfg: Config) {
    WellFormed(cfg.fs) && DEFAULT_THEME in cfg.fs.themes && cfg.disk.prefix == ThemePrefix(cfg.fs)
  }

  /** The names and the directory lists of an application. */
  function NamesFor(cfg: Config, app: string): seq<string>
    requires ValidConfig(cfg)
  {
    FeedbackNames(cfg.fs, app)
  }

  function ListsFor(cfg: Config, theme: string, app: string): seq<seq<string>>
    requires ValidConfig(cfg)
  {
    DirLists(cfg.fs, theme, app)
  }

  datatype Session = Session(app: string, finished: bool, hash: Hash)

  /** Queued signals: tryConnect for a loss in another thread, the two notices to the manager, and
      the theme change of one session. */
  datatype Event =
    | TryConnectCall(backend: nat)
    | Lost(backend: nat)
    | Established(backend: nat)
    | ThemeChanged(session: nat, theme: string)

  /** `listeners` are the sessions in the order in which they were connected to the theme signal; `apps` are
      the applications that have opened sessions so far, `themes` the themes that have been current. */
  datatype State = State(store: Store, theme: string, backends: seq<Backend>, sessions: map<nat, Session>,
                         listeners: seq<nat>, nextSession: nat, queue: seq<Event>,
                         apps: set<string>, themes: set<string>)

  datatype Action =
    | OpenSession(app: string)
    | SetupTimer(session: nat)
    | CloseSession(session: nat, names: seq<string>)
    | LoadTheme(theme: string)
    | LoseConnection(backend: nat, threaded: bool, marks: bool)
    | TimerFires(backend: nat)
    | MarkConnected(backend: nat)
    | AttemptDone(backend: nat, ok: bool)
    | Deliver(order: seq<string>)

  /** After init: `n` backends, each with its first attempt in flight. One that is Connected from its
      constructor on has been marked at once. */
  function Initially(theme: string, n: nat): State {
    State(Store(map[], map[], 0, []), theme, seq(n, i => Attempt(INITIAL)), map[], [], 0, [], {}, {theme})
  }

  function Up(d: State): set<nat> {
    set b | 0 <= b < |d.backends| && d.backends[b].link == Connected
  }

  predicate IsUp(d: State, b: nat) {
    b < |d.backends| && d.backends[b].link == Connected
  }

  /** The connection of the backend has been announced; a backend that is up without that has set its own
      state, which nobody has been told. */
  predicate IsAnnounced(d: State, b: nat) {
    b < |d.backends| && Announced(d.backends[b])
  }

  /** Hash orders (`names`, `order`) may be any that visit everything. */
  ghost predicate Enabled(cfg: Config, d: State, a: Action) {
    match a
    case OpenSession(_) => true
    case SetupTimer(s) => s in d.sessions && !d.sessions[s].finished
    case CloseSession(s, names) => s in d.sessions && forall m :: m in d.sessions[s].hash ==> m in names
    case LoadTheme(_) => true
    case LoseConnection(b, _, _) => b < |d.backends|
    case TimerFires(b) => b < |d.backends| && d.backends[b].timer.Some?
    case MarkConnected(b) => b < |d.backends| && (d.backends[b].inFlight || d.backends[b].overtaken)
    case AttemptDone(b, _) => b < |d.backends| && d.backends[b].inFlight
    case Deliver(order) => d.queue != [] && (d.queue[0].Lost? ==> forall key :: key in d.store.cache ==> key in order)
  }

  function Broadcast(listeners: seq<nat>, theme: string): seq<Event> {
    seq(|listeners|, i requires 0 <= i < |listeners| => ThemeChanged(listeners[i], theme))
  }

  function WithoutSession(queue: seq<Event>, s: nat): seq<Event> {
    if queue == [] then []
    else (if queue[0].ThemeChanged? && queue[0].session == s then [] else [queue[0]]) + WithoutSession(queue[1..], s)
  }

  function Remove(listeners: seq<nat>, s: nat): seq<nat> {
    if listeners == [] then []
    else (if listeners[0] == s then [] else [listeners[0]]) + Remove(listeners[1..], s)
  }

  /** setup (`create`) and themeChanged of one session. */
  function LoadSession(cfg: Config, d: State, s: nat, theme: string, create: bool): State
    requires ValidConfig(cfg) && s in d.sessions
  {
    var session := d.sessions[s];
    var lists := ListsFor(cfg, theme, session.app);
    var r := LoadLists(cfg.disk, Up(d), |d.backends|, d.store, session.hash, lists, create);
    d.(store := r.0,
       sessions := d.sessions[s := session.(hash := r.1, finished := session.finished || create)])
  }

  function CloseSessionOf(cfg: Config, d: State, s: nat, names: seq<string>): State
    requires s in d.sessions
  {
    d.(store := UnloadHash(cfg.disk, d.store, d.sessions[s].hash, names).0,
       sessions := d.sessions - {s}, listeners := Remove(d.listeners, s), queue := WithoutSession(d.queue, s))
  }

  /** A loss runs tryConnect at once in the main thread; from another thread it is queued, ahead of the
      notice to the manager, which is always queued. */
  function Lose(d: State, b: nat, threaded: bool, marks: bool): State
    requires b < |d.backends|
  {
    var bk := d.backends[b];
    if threaded then
      d.(backends := d.backends[b := if marks then bk.(link := Disconnected) else bk],
         queue := d.queue + [TryConnectCall(b), Lost(b)])
    else
      d.(backends := d.backends[b := Retry(bk)], queue := d.queue + [Lost(b)])
  }

  function FinishAttempt(d: State, b: nat, ok: bool): State
    requires b < |d.backends|
  {
    d.(backends := d.backends[b := Finish(d.backends[b], ok)],
       queue := if ok then d.queue + [Established(b)] else d.queue)
  }

  function DeliverFirst(cfg: Config, d: State, order: seq<string>): State
    requires ValidConfig(cfg) && d.queue != []
  {
    var d1 := d.(queue := d.queue[1..]);
    match d.queue[0]
    case TryConnectCall(b) => if b < |d.backends| then d1.(backends := d.backends[b := Retry(d.backends[b])]) else d1
    case Lost(b) => d1.(store := Purge(d.store, order, b))
    case Established(_) => d1.(queue := d1.queue + Broadcast(d.listeners, d.theme))
    case ThemeChanged(s, theme) => if s in d.sessions then LoadSession(cfg, d1, s, theme, false) else d1
  }

  function Next(cfg: Config, d: State, a: Action): State
    requires ValidConfig(cfg) && Enabled(cfg, d, a)
  {
    match a
    case OpenSession(app) =>
      d.(sessions := d.sessions[d.nextSession := Session(app, false, map[])],
         listeners := d.listeners + [d.nextSession], nextSession := d.nextSession + 1,
         apps := d.apps + {app})
    case SetupTimer(s) => LoadSession(cfg, d, s, d.theme, true)
    case CloseSession(s, names) => CloseSessionOf(cfg, d, s, names)
    case LoadTheme(theme) =>
      d.(theme := theme, themes := d.themes + {theme}, queue := d.queue + Broadcast(d.listeners, theme))
    case LoseConnection(b, threaded, marks) => Lose(d, b, threaded, marks)
    case TimerFires(b) => d.(backends := d.backends[b := Attempt(d.backends[b])])
    case MarkConnected(b) => d.(backends := d.backends[b := Marked(d.backends[b])])
    case AttemptDone(b, ok) => FinishAttempt(d, b, ok)
    case Deliver(order) => DeliverFirst(cfg, d, order)
  }

  /** A run from the initial state: the states and the actions between them. */
  ghost predicate IsRun(cfg: Config, states: seq<State>, actions: seq<Action>)
    requires ValidConfig(cfg)
  {
    && |states| == |actions| + 1
    && (exists theme, n :: states[0] == Initially(theme, n))
    && forall i :: 0 <= i < |actions| ==>
         Enabled(cfg, states[i], actions[i]) && states[i + 1] == Next(cfg, states[i], actions[i])
  }

  ghost predicate Reachable(cfg: Config, d: State)
    requires ValidConfig(cfg)
  {
    exists states, actions :: IsRun(cfg, states, actions) && states[|states| - 1] == d
  }
}
