/** The main results about the running daemon, over every run. */
module Runs {
  import opened Text
  import opened Handles
  import opened HandleInvariants
  import opened Teardown
  import opened Daemon
  import opened Agreement

  lemma StartOk(cfg: Config, theme: string, n: nat)
    requires ValidConfig(cfg)
    ensures DaemonInv(cfg, Initially(theme, n))
  {
    var d := Initially(theme, n);
    RowsLookup(d.sessions);
    assert Rows(d.sessions) == map[];
    assert ReadyData(d.store.live) == map[];
  }

  /** Every action keeps the invariant. */
  lemma ActionKeeps(cfg: Config, d: State, a: Action)
    requires ValidConfig(cfg) && DaemonInv(cfg, d) && Enabled(cfg, d, a)
    ensures DaemonInv(cfg, Next(cfg, d, a))
  {
    hide ValidConfig, DaemonInv;
    match a
    case OpenSession(app) => OpenSessionKeeps(cfg, d, app);
    case SetupTimer(s) => SetupTimerKeeps(cfg, d, s);
    case CloseSession(s, names) => CloseSessionKeeps(cfg, d, s, names);
    case LoadTheme(theme) => LoadThemeKeeps(cfg, d, theme);
    case LoseConnection(b, threaded, marks) => LoseConnectionKeeps(cfg, d, b, threaded, marks);
    case TimerFires(b) => TimerFiresKeeps(cfg, d, b);
    case MarkConnected(b) => MarkConnectedKeeps(cfg, d, b);
    case AttemptDone(b, ok) => AttemptDoneKeeps(cfg, d, b, ok);
    case Deliver(order) =>
      match d.queue[0]
      case TryConnectCall(_) => DeliverTryConnectKeeps(cfg, d, order);
      case Lost(_) => DeliverLostKeeps(cfg, d, order);
      case Established(_) => DeliverEstablishedKeeps(cfg, d, order);
      case ThemeChanged(_, _) => DeliverThemeKeeps(cfg, d, order);
  }

  lemma {:induction false} RunKeeps(cfg: Config, states: seq<State>, actions: seq<Action>, i: nat)
    requires ValidConfig(cfg) && IsRun(cfg, states, actions) && i < |states|
    ensures DaemonInv(cfg, states[i])
  {
    hide ValidConfig, DaemonInv, Enabled, Next;
    if i == 0 {
      var theme, n :| states[0] == Initially(theme, n);
      StartOk(cfg, theme, n);
    } else {
      RunKeeps(cfg, states, actions, i - 1);
      assert Enabled(cfg, states[i - 1], actions[i - 1]) &&
             states[i - 1 + 1] == Next(cfg, states[i - 1], actions[i - 1]);
      ActionKeeps(cfg, states[i - 1], actions[i - 1]);
    }
  }

  lemma ReachableKeeps(cfg: Config, d: State)
    requires ValidConfig(cfg) && Reachable(cfg, d)
    ensures DaemonInv(cfg, d)
  {
    var states, actions :| IsRun(cfg, states, actions) && states[|states| - 1] == d;
    RunKeeps(cfg, states, actions, |states| - 1);
  }

  /** In every reachable state each live handle is cached under its own key and nowhere else, each cache
      entry is a live handle, and each count is the number of slots, over all sessions, that hold the
      handle, which is at least one. */
  lemma CacheAndCountsAgree(cfg: Config, d: State)
    requires ValidConfig(cfg) && Reachable(cfg, d)
    ensures CacheInv(cfg.disk, d.store)
    ensures forall id :: id in d.store.live ==>
              d.store.live[id].refCnt == |Holders(Rows(d.sessions), id)| && d.store.live[id].refCnt >= 1
  {
    hide ValidConfig, SessionsOk, QueueOk, Synced, LiveInv, SlotsInv, Rows, Holders;
    ReachableKeeps(cfg, d);
  }

  /** In every reachable state the backends have been asked to load and unload consistently, and each
      has exactly the data of its live Ready handles outstanding. */
  lemma BackendsBalance(cfg: Config, d: State, b: nat)
    requires ValidConfig(cfg) && Reachable(cfg, d)
    ensures Replay(d.store.calls) == Some(ReadyData(d.store.live))
    ensures CountLoads(d.store.calls, b) - CountUnloads(d.store.calls, b) == |ReadyOf(d.store, b)|
  {
    hide ValidConfig, SessionsOk, QueueOk, Synced, CountsInv, SlotsInv;
    ReachableKeeps(cfg, d);
    ResourcesConserved(cfg.disk, d.store, b);
  }

  // Agreement

  /** Every feedback of every finished session shows, on every backend whose connection has been
      announced, the first candidate directory under the current theme that the backend takes, with its
      data or its silence, or nothing if there is none. */
  ghost predicate AllAgree(cfg: Config, d: State)
    requires ValidConfig(cfg)
  {
    forall s, b {:trigger IsAnnounced(d, b), d.sessions[s]} ::
      s in d.sessions && d.sessions[s].finished && IsAnnounced(d, b) ==>
      SlotsAgree(cfg, d.store, d.theme, d.sessions[s], b)
  }

  lemma QuietMeansAgreement(cfg: Config, d: State)
    requires ValidConfig(cfg) && DaemonInv(cfg, d) && Safe(cfg, d) && d.queue == []
    ensures AllAgree(cfg, d)
  {
    hide ValidConfig, InSync, SlotsAgree;
    forall s, b | s in d.sessions && d.sessions[s].finished && IsAnnounced(d, b)
      ensures SlotsAgree(cfg, d.store, d.theme, d.sessions[s], b)
    {
      SyncIsAgreement(cfg, d.store, d.theme, d.sessions[s], b);
    }
  }

  /** Whatever has happened, once the event queue is empty all slots agree with the resolver. */
  lemma EventualAgreement(cfg: Config, d: State)
    requires ValidConfig(cfg) && Reachable(cfg, d) && Safe(cfg, d) && d.queue == []
    ensures AllAgree(cfg, d)
  {
    ReachableKeeps(cfg, d);
    QuietMeansAgreement(cfg, d);
  }

  /** The number of deliveries until the queue is empty, if nothing else happens. */
  function Backlog(queue: seq<Event>, listeners: nat): nat {
    if queue == [] then 0
    else 1 + (if queue[0].Established? then listeners else 0) + Backlog(queue[1..], listeners)
  }

  lemma {:induction false} BacklogConcat(a: seq<Event>, c: seq<Event>, listeners: nat)
    ensures Backlog(a + c, listeners) == Backlog(a, listeners) + Backlog(c, listeners)
  {
    if a == [] {
      assert a + c == c;
    } else {
      assert (a + c)[1..] == a[1..] + c;
      BacklogConcat(a[1..], c, listeners);
    }
  }

  lemma {:induction false} BroadcastBacklog(listeners: seq<nat>, theme: string, n: nat)
    ensures Backlog(Broadcast(listeners, theme), n) == |listeners|
  {
    if listeners != [] {
      assert Broadcast(listeners, theme)[1..] == Broadcast(listeners[1..], theme);
      BroadcastBacklog(listeners[1..], theme, n);
    }
  }

  lemma DeliveryShortens(cfg: Config, d: State, order: seq<string>)
    requires ValidConfig(cfg) && d.queue != []
    ensures var d' := DeliverFirst(cfg, d, order);
            d'.listeners == d.listeners && d'.apps == d.apps && d'.themes == d.themes &&
            |d'.backends| == |d.backends| &&
            Backlog(d'.queue, |d'.listeners|) == Backlog(d.queue, |d.listeners|) - 1
  {
    hide ValidConfig, LoadSession, Purge;
    var news := Broadcast(d.listeners, d.theme);
    BacklogConcat(d.queue[1..], news, |d.listeners|);
    BroadcastBacklog(d.listeners, d.theme, |d.listeners|);
    if d.queue[0].ThemeChanged? && d.queue[0].session in d.sessions {
      LoadSessionLeavesQueue(cfg, d.(queue := d.queue[1..]), d.queue[0].session, d.queue[0].theme);
    }
  }

  lemma LoadSessionLeavesQueue(cfg: Config, d: State, s: nat, theme: string)
    requires ValidConfig(cfg) && s in d.sessions
    ensures LoadSession(cfg, d, s, theme, false).queue == d.queue &&
            LoadSession(cfg, d, s, theme, false).listeners == d.listeners
    ensures var d' := LoadSession(cfg, d, s, theme, false);
            d'.apps == d.apps && d'.themes == d.themes && d'.backends == d.backends
  {
  }

  lemma {:induction false} KeysHaveAnOrder(keys: set<string>) returns (order: seq<string>)
    ensures forall key :: key in keys <==> key in order
    decreases keys
  {
    if keys == {} {
      order := [];
    } else {
      var key :| key in keys;
      var rest := KeysHaveAnOrder(keys - {key});
      order := [key] + rest;
    }
  }

  /** A stretch of a run in which only events are delivered. */
  ghost predicate OnlyDeliveries(cfg: Config, states: seq<State>, actions: seq<Action>)
    requires ValidConfig(cfg)
  {
    && |states| == |actions| + 1
    && forall i :: 0 <= i < |actions| ==>
         actions[i].Deliver? && Enabled(cfg, states[i], actions[i]) && states[i + 1] == Next(cfg, states[i], actions[i])
  }

  /** Deliveries cannot go on for longer than the backlog, and when they have gone on for that long the
      queue is empty and everything agrees: the daemon settles after every burst of events. */
  lemma {:induction false} DeliveriesSettle(cfg: Config, states: seq<State>, actions: seq<Action>)
    requires ValidConfig(cfg) && OnlyDeliveries(cfg, states, actions) && DaemonInv(cfg, states[0])
    ensures |actions| <= Backlog(states[0].queue, |states[0].listeners|)
    ensures var last := states[|states| - 1];
            DaemonInv(cfg, last) &&
            (|actions| == Backlog(states[0].queue, |states[0].listeners|) <==> last.queue == []) &&
            (last.queue == [] && Safe(cfg, states[0]) ==> AllAgree(cfg, last))
    decreases |actions|
  {
    hide ValidConfig, DaemonInv, AllAgree, DeliverFirst, KeysApart;
    if actions == [] {
      if states[0].queue == [] && Safe(cfg, states[0]) {
        QuietMeansAgreement(cfg, states[0]);
      }
    } else {
      var a := actions[0];
      assert Enabled(cfg, states[0], a) && states[0 + 1] == Next(cfg, states[0], a);
      DeliveryShortens(cfg, states[0], a.order);
      ActionKeeps(cfg, states[0], a);
      forall i | 0 <= i < |actions[1..]|
        ensures actions[1..][i].Deliver? && Enabled(cfg, states[1..][i], actions[1..][i]) &&
                states[1..][i + 1] == Next(cfg, states[1..][i], actions[1..][i])
      {
        assert actions[1..][i] == actions[i + 1] && states[1..][i] == states[i + 1] &&
               states[1..][i + 1] == states[i + 1 + 1];
      }
      DeliveriesSettle(cfg, states[1..], actions[1..]);
    }
  }

  /** The next event can always be delivered, so a state in which everything agrees can always be reached
      by delivering what is pending. */
  lemma {:induction false} AgreementIsReached(cfg: Config, d: State) returns (states: seq<State>, actions: seq<Action>)
    requires ValidConfig(cfg) && DaemonInv(cfg, d)
    ensures OnlyDeliveries(cfg, states, actions) && states[0] == d
    ensures states[|states| - 1].queue == [] && (Safe(cfg, d) ==> AllAgree(cfg, states[|states| - 1]))
    decreases Backlog(d.queue, |d.listeners|)
  {
    hide ValidConfig, DaemonInv, AllAgree, DeliverFirst, KeysApart;
    if d.queue == [] {
      if Safe(cfg, d) {
        QuietMeansAgreement(cfg, d);
      }
      states, actions := [d], [];
    } else {
      var order := KeysHaveAnOrder(d.store.cache.Keys);
      var a := Deliver(order);
      assert Enabled(cfg, d, a);
      DeliveryShortens(cfg, d, order);
      ActionKeeps(cfg, d, a);
      var rest, more := AgreementIsReached(cfg, Next(cfg, d, a));
      states, actions := [d] + rest, [a] + more;
      forall i | 0 <= i < |actions|
        ensures actions[i].Deliver? && Enabled(cfg, states[i], actions[i]) &&
                states[i + 1] == Next(cfg, states[i], actions[i])
      {
        if i > 0 {
          assert actions[i] == more[i - 1] && states[i] == rest[i - 1] && states[i + 1] == rest[i - 1 + 1];
        }
      }
    }
  }
}
