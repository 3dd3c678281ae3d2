/** The backends inside the daemon: each follows the reconnection machine, none is stranded, and the
    handles of a backend that is not Connected are about to be removed. */
module Isolation {
  import opened Text
  import opened Resolver
  import opened Handles
  import opened HandleInvariants
  import opened Teardown
  import opened Sessions
  import opened Reconnection
  import opened Daemon
  import opened Agreement
  import opened Runs

  function CountCalls(queue: seq<Event>, b: nat): nat {
    if queue == [] then 0 else (if queue[0] == TryConnectCall(b) then 1 else 0) + CountCalls(queue[1..], b)
  }

  /** Backend `b` with the calls of tryConnect that are queued for it. */
  function MachineOf(d: State, b: nat): Machine
    requires b < |d.backends|
  {
    Machine(d.backends[b], CountCalls(d.queue, b))
  }

  /** What an action means to backend `b`. */
  function InputFor(d: State, a: Action, b: nat): Option<Input> {
    match a
    case LoseConnection(c, threaded, marks) =>
      if c != b then None else if threaded then Some(LostElsewhere(marks)) else Some(LostHere)
    case TimerFires(c) => if c == b then Some(Timeout) else None
    case MarkConnected(c) => if c == b then Some(Mark) else None
    case AttemptDone(c, ok) => if c == b then Some(Done(ok)) else None
    case Deliver(_) => if d.queue != [] && d.queue[0] == TryConnectCall(b) then Some(Notice) else None
    case _ => None
  }

  /** Backend `b` reports no loss, or at a good time: its connection has been announced, or its timer is
      running anyway. */
  predicate GoodLoss(d: State, a: Action, b: nat) {
    a.LoseConnection? && a.backend == b && b < |d.backends| ==>
      if a.threaded then IsAnnounced(d, b) && a.marks else IsAnnounced(d, b) || d.backends[b].timer.Some?
  }

  /** tryConnect of backend `b` finds its timer running. */
  predicate SkipsDelay(d: State, a: Action, b: nat) {
    && b < |d.backends| && d.backends[b].timer.Some?
    && match a
       case LoseConnection(c, threaded, _) => c == b && !threaded
       case AttemptDone(c, ok) => c == b && !ok
       case Deliver(_) => d.queue != [] && d.queue[0] == TryConnectCall(b)
       case _ => false
  }

  lemma {:induction false} CountConcat(a: seq<Event>, c: seq<Event>, b: nat)
    ensures CountCalls(a + c, b) == CountCalls(a, b) + CountCalls(c, b)
  {
    if a == [] {
      assert a + c == c;
    } else {
      assert (a + c)[1..] == a[1..] + c;
      CountConcat(a[1..], c, b);
    }
  }

  lemma {:induction false} NoCallsNoCount(queue: seq<Event>, b: nat)
    requires TryConnectCall(b) !in queue
    ensures CountCalls(queue, b) == 0
  {
    if queue != [] {
      NoCallsNoCount(queue[1..], b);
    }
  }

  lemma {:induction false} FilterKeepsCount(queue: seq<Event>, s: nat, b: nat)
    ensures CountCalls(WithoutSession(queue, s), b) == CountCalls(queue, b)
  {
    if queue != [] {
      FilterKeepsCount(queue[1..], s, b);
      var kept := if queue[0].ThemeChanged? && queue[0].session == s then [] else [queue[0]];
      CountConcat(kept, WithoutSession(queue[1..], s), b);
      assert [queue[0]][1..] == [];
    }
  }

  lemma LoseIsInput(d: State, c: nat, threaded: bool, marks: bool, b: nat)
    requires c < |d.backends| && b < |d.backends|
    ensures var news := if threaded then [TryConnectCall(c), Lost(c)] else [Lost(c)];
            CountCalls(d.queue + news, b) == CountCalls(d.queue, b) + (if threaded && c == b then 1 else 0)
  {
    var news := if threaded then [TryConnectCall(c), Lost(c)] else [Lost(c)];
    CountConcat(d.queue, news, b);
    var lost := [Lost(c)];
    assert CountCalls(lost, b) == 0;
    if threaded {
      assert news[1..] == lost;
    }
  }

  lemma BroadcastHasNoCalls(queue: seq<Event>, listeners: seq<nat>, theme: string, b: nat)
    ensures CountCalls(queue + Broadcast(listeners, theme), b) == CountCalls(queue, b)
  {
    CountConcat(queue, Broadcast(listeners, theme), b);
    BroadcastEvents(listeners, theme);
    NoCallsNoCount(Broadcast(listeners, theme), b);
  }

  lemma DeliveryCalls(cfg: Config, d: State, order: seq<string>, b: nat)
    requires ValidConfig(cfg) && d.queue != [] && b < |d.backends|
    ensures var d', called := DeliverFirst(cfg, d, order), d.queue[0] == TryConnectCall(b);
            |d'.backends| == |d.backends| &&
            d'.backends[b] == (if called then Retry(d.backends[b]) else d.backends[b]) &&
            CountCalls(d.queue, b) == CountCalls(d'.queue, b) + (if called then 1 else 0)
  {
    hide ValidConfig, LoadLists, ListsFor, Purge, Broadcast, Retry;
    BroadcastHasNoCalls(d.queue[1..], d.listeners, d.theme, b);
  }

  /** Every action is, for each backend, either nothing or one input of the reconnection machine. */
  lemma ActionIsInput(cfg: Config, d: State, a: Action, b: nat)
    requires ValidConfig(cfg) && Enabled(cfg, d, a) && b < |d.backends|
    ensures var d' := Next(cfg, d, a);
            |d'.backends| == |d.backends| &&
            match InputFor(d, a, b)
            case None => MachineOf(d', b) == MachineOf(d, b) && GoodLoss(d, a, b) && !SkipsDelay(d, a, b)
            case Some(input) =>
              CanHappen(MachineOf(d, b), input) && MachineOf(d', b) == Reconnection.Step(MachineOf(d, b), input) &&
              (GoodLoss(d, a, b) <==> Orderly(MachineOf(d, b), input)) &&
              (SkipsDelay(d, a, b) <==> Skips(MachineOf(d, b), input))
  {
    hide ValidConfig, LoadLists, ListsFor, UnloadHash, Purge, WithoutSession, Broadcast, AppFits;
    match a
    case LoadTheme(theme) => BroadcastHasNoCalls(d.queue, d.listeners, theme, b);
    case CloseSession(s, _) => FilterKeepsCount(d.queue, s, b);
    case LoseConnection(c, threaded, marks) => LoseIsInput(d, c, threaded, marks, b);
    case AttemptDone(c, ok) =>
      CountConcat(d.queue, [Established(c)], b);
      assert [Established(c)][1..] == [];
    case Deliver(order) =>
      DeliveryCalls(cfg, d, order, b);
      hide DeliverFirst, CountCalls;
    case _ =>
  }

  lemma {:induction false} AppendInput(inputs: seq<Input>, input: Input)
    requires CanHappen(Run(inputs), input)
    ensures var longer := inputs + [input];
            Run(longer) == Reconnection.Step(Run(inputs), input) &&
            (PossibleRun(inputs) ==> PossibleRun(longer)) &&
            (AlwaysExclusive(longer) <==> AlwaysExclusive(inputs) && Exclusive(Run(longer))) &&
            (AlwaysOrderly(longer) <==> AlwaysOrderly(inputs) && Orderly(Run(inputs), input)) &&
            (AlwaysAccounts(longer) <==> AlwaysAccounts(inputs) && Accounts(longer)) &&
            (NeverSkips(longer) <==> NeverSkips(inputs) && !Skips(Run(inputs), input))
  {
    hide CanHappen, Reconnection.Step, Exclusive, Orderly, Accounts, Skips;
    var longer := inputs + [input];
    assert longer[..|inputs|] == inputs;
    forall i | 0 <= i < |longer| ensures i < |inputs| ==> longer[..i] == inputs[..i] && longer[i] == inputs[i] {
    }
  }

  /** The inputs that backend `b` has had in the first `i` actions of a run. */
  function InputsOf(states: seq<State>, actions: seq<Action>, i: nat, b: nat): seq<Input>
    requires i <= |actions| < |states|
  {
    if i == 0 then []
    else
      var input := InputFor(states[i - 1], actions[i - 1], b);
      InputsOf(states, actions, i - 1, b) + (if input.Some? then [input.value] else [])
  }

  lemma ActionOfRun(cfg: Config, states: seq<State>, actions: seq<Action>, i: nat)
    requires ValidConfig(cfg) && IsRun(cfg, states, actions) && i < |actions|
    ensures Enabled(cfg, states[i], actions[i]) && states[i + 1] == Next(cfg, states[i], actions[i])
  {
  }

  /** In any run of the daemon, every backend is in the state that the reconnection machine reaches by
      the inputs it has had; so what holds of the machine holds of the backends of the daemon. */
  lemma {:induction false} BackendsFollowTheMachine(cfg: Config, states: seq<State>, actions: seq<Action>, i: nat,
                                                    b: nat)
    requires ValidConfig(cfg) && IsRun(cfg, states, actions) && i < |states|
    requires b < |states[0].backends|
    ensures |states[i].backends| == |states[0].backends|
    ensures var inputs := InputsOf(states, actions, i, b);
            PossibleRun(inputs) && MachineOf(states[i], b) == Run(inputs)
  {
    hide ValidConfig, Enabled, Next, InputFor, CountCalls, Reconnection.Step, PossibleRun, GoodLoss, SkipsDelay;
    if i == 0 {
      var theme, n :| states[0] == Initially(theme, n);
      NoCallsNoCount([], b);
      EmptyRunIsPossible();
    } else {
      var inputs := InputsOf(states, actions, i - 1, b);
      BackendsFollowTheMachine(cfg, states, actions, i - 1, b);
      ActionOfRun(cfg, states, actions, i - 1);
      ActionIsInput(cfg, states[i - 1], actions[i - 1], b);
      var input := InputFor(states[i - 1], actions[i - 1], b);
      if input.Some? {
        AppendInput(inputs, input.value);
      } else {
        assert inputs + [] == inputs;
      }
    }
  }

  lemma EmptyRunIsPossible()
    ensures PossibleRun([])
  {
  }

  /** What holds at every point of the machine's run holds at every point of the daemon's, and back. */
  lemma {:induction false} PointsOfTheRun(cfg: Config, states: seq<State>, actions: seq<Action>, i: nat, b: nat)
    requires ValidConfig(cfg) && IsRun(cfg, states, actions) && i < |states| && b < |states[0].backends|
    requires forall j :: 0 <= j <= i ==> |states[j].backends| == |states[0].backends|
    ensures var inputs := InputsOf(states, actions, i, b);
            (AlwaysExclusive(inputs) <==> forall j :: 0 <= j <= i ==> Exclusive(MachineOf(states[j], b))) &&
            (AlwaysOrderly(inputs) <==> forall j :: 0 <= j < i ==> GoodLoss(states[j], actions[j], b)) &&
            (AlwaysAccounts(inputs) <==> forall j :: 0 <= j <= i ==> Accounts(InputsOf(states, actions, j, b))) &&
            (NeverSkips(inputs) <==> forall j :: 0 <= j < i ==> !SkipsDelay(states[j], actions[j], b))
  {
    hide ValidConfig, Enabled, Next, InputFor, MachineOf, Reconnection.Step, PossibleRun, GoodLoss, SkipsDelay,
         CanHappen;
    hide Exclusive, Orderly, Accounts, Skips, AlwaysExclusive, AlwaysOrderly, AlwaysAccounts, NeverSkips, Run;
    BackendsFollowTheMachine(cfg, states, actions, i, b);
    if i == 0 {
      EmptyRunHolds();
    } else {
      var before, inputs := InputsOf(states, actions, i - 1, b), InputsOf(states, actions, i, b);
      BackendsFollowTheMachine(cfg, states, actions, i - 1, b);
      PointsOfTheRun(cfg, states, actions, i - 1, b);
      ActionOfRun(cfg, states, actions, i - 1);
      ActionIsInput(cfg, states[i - 1], actions[i - 1], b);
      var input := InputFor(states[i - 1], actions[i - 1], b);
      if input.Some? {
        AppendInput(before, input.value);
      } else {
        assert inputs == before;
        HoldsNow(before);
      }
    }
  }

  lemma EmptyRunHolds()
    ensures AlwaysOrderly([]) && NeverSkips([])
    ensures AlwaysExclusive([]) <==> Exclusive(Run([]))
    ensures AlwaysAccounts([]) <==> Accounts([])
  {
  }

  lemma HoldsNow(inputs: seq<Input>)
    ensures AlwaysExclusive(inputs) ==> Exclusive(Run(inputs))
    ensures AlwaysAccounts(inputs) ==> Accounts(inputs)
  {
  }

  lemma {:induction false} BackendCountStays(cfg: Config, states: seq<State>, actions: seq<Action>, i: nat)
    requires ValidConfig(cfg) && IsRun(cfg, states, actions) && i < |states|
    ensures |states[i].backends| == |states[0].backends|
  {
    hide ValidConfig, Enabled, LoadSession, CloseSessionOf;
    if i > 0 {
      BackendCountStays(cfg, states, actions, i - 1);
      ActionOfRun(cfg, states, actions, i - 1);
      NextKeepsCount(cfg, states[i - 1], actions[i - 1]);
    }
  }

  lemma NextKeepsCount(cfg: Config, d: State, a: Action)
    requires ValidConfig(cfg) && Enabled(cfg, d, a)
    ensures |Next(cfg, d, a).backends| == |d.backends|
  {
    hide ValidConfig, LoadLists, Purge, UnloadHash;
  }

  /** No stranded backend: in every reachable state a backend whose connection has not been announced has
      its timer armed, an attempt in flight or a call of tryConnect queued. It has exactly one of these, at
      every point of a run, exactly if it reports its losses at good times. */
  lemma NoStrandedBackend(cfg: Config, states: seq<State>, actions: seq<Action>, b: nat)
    requires ValidConfig(cfg) && IsRun(cfg, states, actions) && b < |states[0].backends|
    ensures forall i :: 0 <= i < |states| ==> |states[i].backends| == |states[0].backends|
    ensures NotStranded(MachineOf(states[|states| - 1], b))
    ensures (forall i :: 0 <= i < |states| ==> Exclusive(MachineOf(states[i], b))) <==>
            (forall i :: 0 <= i < |actions| ==> GoodLoss(states[i], actions[i], b))
  {
    hide ValidConfig, Enabled, Next, Exclusive, GoodLoss, NotStranded, PossibleRun;
    forall i | 0 <= i < |states| ensures |states[i].backends| == |states[0].backends| {
      BackendCountStays(cfg, states, actions, i);
    }
    BackendsFollowTheMachine(cfg, states, actions, |actions|, b);
    NeverStranded(InputsOf(states, actions, |actions|, b));
    PointsOfTheRun(cfg, states, actions, |actions|, b);
  }

  /** Back-off of every backend in every run of the daemon: the delays of an outage never decrease and lie
      between 1000 and 120000 ms; at every point of the run each failure has started its delay, exactly
      if tryConnect never finds the timer running; and then the k-th failure waits what the table says. */
  lemma DaemonBacksOff(cfg: Config, states: seq<State>, actions: seq<Action>, b: nat)
    requires ValidConfig(cfg) && IsRun(cfg, states, actions) && b < |states[0].backends|
    ensures forall i :: 0 <= i < |states| ==> |states[i].backends| == |states[0].backends|
    ensures var delays := Delays(InputsOf(states, actions, |actions|, b));
            (forall i, j :: 0 <= i <= j < |delays| ==> 1000 <= delays[i] <= delays[j] <= 120000) &&
            (IsAnnounced(states[|actions|], b) ==> delays == [])
    ensures (forall i :: 0 <= i < |states| ==>
              |Delays(InputsOf(states, actions, i, b))| == states[i].backends[b].failed) <==>
            (forall i :: 0 <= i < |actions| ==> !SkipsDelay(states[i], actions[i], b))
    ensures (forall i :: 0 <= i < |actions| ==> !SkipsDelay(states[i], actions[i], b)) ==>
              IsBackOffTable(Delays(InputsOf(states, actions, |actions|, b)))
  {
    hide ValidConfig, Enabled, Next, SkipsDelay, PossibleRun, Delays, Run;
    forall i | 0 <= i < |states|
      ensures |states[i].backends| == |states[0].backends|
      ensures MachineOf(states[i], b) == Run(InputsOf(states, actions, i, b))
    {
      BackendsFollowTheMachine(cfg, states, actions, i, b);
    }
    var inputs := InputsOf(states, actions, |actions|, b);
    BackendsFollowTheMachine(cfg, states, actions, |actions|, b);
    BackOffLaw(inputs);
    PointsOfTheRun(cfg, states, actions, |actions|, b);
    DelayForEveryFailure(inputs);
    if NeverSkips(inputs) {
      EveryFailureStartsItsDelay(inputs);
    }
  }

  /** Agreement in terms of what can be read off a backend: once the queue is empty, all slots agree on
      every Connected backend that has no attempt in flight and whose timer is not running; a running
      timer does no harm as long as no attempt has been overtaken. */
  lemma IdleBackendsAgree(cfg: Config, states: seq<State>, actions: seq<Action>, s: nat, b: nat)
    requires ValidConfig(cfg) && IsRun(cfg, states, actions)
    requires var d := states[|actions|];
             d.queue == [] && Safe(cfg, d) && s in d.sessions && d.sessions[s].finished && IsUp(d, b) &&
             !d.backends[b].inFlight && (d.backends[b].timer.None? || !d.backends[b].overtaken)
    ensures var d := states[|actions|]; SlotsAgree(cfg, d.store, d.theme, d.sessions[s], b)
  {
    hide ValidConfig, DaemonInv, SlotsAgree;
    var d := states[|actions|];
    BackendCountStays(cfg, states, actions, |actions|);
    NoStrandedBackend(cfg, states, actions, b);
    assert IsAnnounced(d, b);
    RunKeeps(cfg, states, actions, |actions|);
    QuietMeansAgreement(cfg, d);
  }

  // Handles of disconnected backends

  /** Between `st` and `st'` only Connected backends have got new handles. */
  ghost predicate OnlyUp(up: set<nat>, st: Store, st': Store) {
    forall id :: id in st'.live ==>
      (id in st.live && st.live[id].backend == st'.live[id].backend) || st'.live[id].backend in up
  }

  lemma OnlyUpTwice(up: set<nat>, st: Store, st1: Store, st2: Store)
    requires OnlyUp(up, st, st1) && OnlyUp(up, st1, st2)
    ensures OnlyUp(up, st, st2)
  {
  }

  lemma {:induction false} FirstLoadOnlyUp(disk: Disk, up: set<nat>, st: Store, dirs: seq<string>, b: nat)
    ensures OnlyUp(up, st, FirstLoad(disk, up, st, dirs, b).0)
    decreases |dirs|
  {
    hide Key, Sample;
    if dirs != [] {
      var r := LoadHandle(disk, up, st, dirs[0], b);
      assert OnlyUp(up, st, r.0);
      if r.1.None? {
        FirstLoadOnlyUp(disk, up, r.0, dirs[1..], b);
      }
    }
  }

  lemma ReleaseOnlyUp(disk: Disk, up: set<nat>, st: Store, slot: Option<Id>)
    ensures OnlyUp(up, st, ReleaseSlot(disk, st, slot))
  {
    hide Key;
  }

  lemma {:induction false} LoadRowOnlyUp(disk: Disk, up: set<nat>, st: Store, row: Row, dirs: seq<string>, b: nat)
    requires b <= |row|
    ensures OnlyUp(up, st, LoadRow(disk, up, st, row, dirs, b).0)
    decreases |row| - b
  {
    hide FirstLoad, ReleaseSlot, OnlyUp;
    if b == |row| {
      NothingNew(up, st);
    } else {
      var found := FirstLoad(disk, up, st, dirs, b);
      var r := SwapSlot(disk, up, st, row[b], dirs, b);
      FirstLoadOnlyUp(disk, up, st, dirs, b);
      ReleaseOnlyUp(disk, up, found.0, Deref(st, row[b]));
      OnlyUpTwice(up, st, found.0, r.0);
      LoadRowOnlyUp(disk, up, r.0, row[b := r.1], dirs, b + 1);
      OnlyUpTwice(up, st, r.0, LoadRow(disk, up, st, row, dirs, b).0);
    }
  }

  lemma NothingNew(up: set<nat>, st: Store)
    ensures OnlyUp(up, st, st)
  {
  }

  lemma {:induction false} LoadListsOnlyUp(disk: Disk, up: set<nat>, n: nat, st: Store, hash: Hash,
                                           lists: seq<seq<string>>, create: bool)
    ensures OnlyUp(up, st, LoadLists(disk, up, n, st, hash, lists, create).0)
    decreases |lists|
  {
    hide LoadRow, OnlyUp, NameOf;
    NothingNew(up, st);
    if lists != [] {
      var name := NameOf(lists[0]);
      var hash1 := if create then hash[name := NullRow(n)] else hash;
      var r := LoadList(disk, up, n, st, hash, lists[0], create);
      if name in hash1 {
        LoadRowOnlyUp(disk, up, st, hash1[name], lists[0], 0);
      }
      LoadListsOnlyUp(disk, up, n, r.0, r.1, lists[1..], create);
      OnlyUpTwice(up, st, r.0, LoadLists(disk, up, n, st, hash, lists, create).0);
    }
  }

  lemma {:induction false} UnloadRowOnlyUp(disk: Disk, st: Store, row: Row, b: nat)
    requires b <= |row|
    ensures OnlyUp({}, st, UnloadRow(disk, st, row, b))
    decreases |row| - b
  {
    hide ReleaseSlot, OnlyUp;
    NothingNew({}, st);
    if b < |row| {
      ReleaseOnlyUp(disk, {}, st, row[b]);
      UnloadRowOnlyUp(disk, ReleaseSlot(disk, st, row[b]), row, b + 1);
      OnlyUpTwice({}, st, ReleaseSlot(disk, st, row[b]), UnloadRow(disk, st, row, b));
    }
  }

  lemma {:induction false} UnloadHashOnlyUp(disk: Disk, st: Store, hash: Hash, names: seq<string>)
    ensures OnlyUp({}, st, UnloadHash(disk, st, hash, names).0)
    decreases |names|
  {
    hide UnloadRow, OnlyUp;
    NothingNew({}, st);
    if names != [] {
      if names[0] in hash {
        var st1 := UnloadRow(disk, st, hash[names[0]], 0);
        UnloadRowOnlyUp(disk, st, hash[names[0]], 0);
        UnloadHashOnlyUp(disk, st1, hash - {names[0]}, names[1..]);
        OnlyUpTwice({}, st, st1, UnloadHash(disk, st, hash, names).0);
      } else {
        UnloadHashOnlyUp(disk, st, hash, names[1..]);
      }
    }
  }

  /** A live handle belongs to a backend that is Connected or whose loss is still to be processed. */
  ghost predicate Isolated(d: State) {
    forall id :: id in d.store.live ==> IsUp(d, d.store.live[id].backend) || Lost(d.store.live[id].backend) in d.queue
  }

  /** Behind every call of tryConnect that is queued stands the notice of the loss. */
  ghost predicate Followed(queue: seq<Event>) {
    queue != [] ==> (queue[0].TryConnectCall? ==> Lost(queue[0].backend) in queue[1..]) && Followed(queue[1..])
  }

  lemma {:induction false} FollowedConcat(a: seq<Event>, c: seq<Event>)
    requires Followed(a) && Followed(c)
    ensures Followed(a + c)
  {
    if a == [] {
      assert a + c == c;
    } else {
      FollowedConcat(a[1..], c);
      assert (a + c)[1..] == a[1..] + c;
    }
  }

  lemma {:induction false} FilterKeepsFollowed(queue: seq<Event>, s: nat)
    requires Followed(queue)
    ensures Followed(WithoutSession(queue, s))
  {
    if queue != [] {
      FilterKeepsFollowed(queue[1..], s);
      FilterQueue(queue[1..], s);
      hide LastTheme, Covered;
      var kept := WithoutSession(queue[1..], s);
      assert ([queue[0]] + kept)[1..] == kept && [] + kept == kept;
    }
  }

  lemma {:induction false} NoCallsAreFollowed(queue: seq<Event>)
    requires forall e :: e in queue ==> !e.TryConnectCall?
    ensures Followed(queue)
  {
    if queue != [] {
      NoCallsAreFollowed(queue[1..]);
    }
  }

  lemma LossesAreFollowed(b: nat)
    ensures Followed([TryConnectCall(b), Lost(b)]) && Followed([Lost(b)])
  {
    assert [TryConnectCall(b), Lost(b)][1..] == [Lost(b)] && [Lost(b)][1..] == [];
  }

  lemma ActionKeepsFollowed(cfg: Config, d: State, a: Action)
    requires ValidConfig(cfg) && Enabled(cfg, d, a) && Followed(d.queue)
    ensures Followed(Next(cfg, d, a).queue)
  {
    hide ValidConfig, LoadLists, ListsFor, UnloadHash, Purge, WithoutSession, Broadcast, AppFits;
    BroadcastEvents(d.listeners, d.theme);
    match a
    case LoadTheme(theme) =>
      BroadcastEvents(d.listeners, theme);
      NoCallsAreFollowed(Broadcast(d.listeners, theme));
      FollowedConcat(d.queue, Broadcast(d.listeners, theme));
    case CloseSession(s, _) => FilterKeepsFollowed(d.queue, s);
    case LoseConnection(b, threaded, _) =>
      LossesAreFollowed(b);
      FollowedConcat(d.queue, if threaded then [TryConnectCall(b), Lost(b)] else [Lost(b)]);
    case AttemptDone(b, _) =>
      NoCallsAreFollowed([Established(b)]);
      FollowedConcat(d.queue, [Established(b)]);
    case Deliver(_) =>
      NoCallsAreFollowed(Broadcast(d.listeners, d.theme));
      FollowedConcat(d.queue[1..], Broadcast(d.listeners, d.theme));
    case _ =>
  }

  /** An attempt fails while its backend is Connected, with handles loaded and no loss to be processed:
      the connection ends, and no notice of a loss is sent. */
  predicate SilentEnd(d: State, a: Action) {
    && a.AttemptDone? && !a.ok && IsUp(d, a.backend) && Lost(a.backend) !in d.queue
    && exists id :: id in d.store.live && d.store.live[id].backend == a.backend
  }

  lemma LoadKeepsIsolated(cfg: Config, d: State, d1: State, s: nat, theme: string, create: bool)
    requires ValidConfig(cfg) && s in d1.sessions && Isolated(d1)
    requires d == LoadSession(cfg, d1, s, theme, create)
    ensures Isolated(d)
  {
    hide ValidConfig, LoadLists, ListsFor;
    var x := d1.sessions[s];
    LoadListsOnlyUp(cfg.disk, Up(d1), |d1.backends|, d1.store, x.hash, ListsFor(cfg, theme, x.app), create);
  }

  lemma DeliverKeepsIsolated(cfg: Config, d: State, order: seq<string>)
    requires ValidConfig(cfg) && d.queue != [] && Enabled(cfg, d, Deliver(order))
    requires DaemonInv(cfg, d) && Isolated(d) && Followed(d.queue)
    ensures Isolated(DeliverFirst(cfg, d, order))
  {
    hide ValidConfig, LoadSession, CountsInv, SlotsInv, WantedBy, KeysApart, SessionsOk, QueueOk, Synced, StoreInv,
         Purge;
    var d' := DeliverFirst(cfg, d, order);
    assert forall e :: e in d.queue <==> e == d.queue[0] || e in d.queue[1..];
    match d.queue[0]
    case TryConnectCall(b) =>
    case Lost(b) =>
      DisconnectIsolates(cfg.disk, World(d.store, Rows(d.sessions)), order, b);
    case Established(_) =>
      assert forall e :: e in d.queue[1..] ==> e in d'.queue;
    case ThemeChanged(s, theme) =>
      var d1 := d.(queue := d.queue[1..]);
      assert Isolated(d1);
      if s in d.sessions {
        LoadKeepsIsolated(cfg, d', d1, s, theme, false);
      }
  }

  /** Disconnect isolation, exactly: an action leaves handles of a backend that is neither Connected nor
      about to be processed as lost, exactly if it is a silent end. Nothing is assumed about losses. */
  lemma IsolatedExactlyWhen(cfg: Config, d: State, a: Action)
    requires ValidConfig(cfg) && DaemonInv(cfg, d) && Enabled(cfg, d, a) && Isolated(d) && Followed(d.queue)
    ensures Isolated(Next(cfg, d, a)) <==> !SilentEnd(d, a)
  {
    hide ValidConfig, DaemonInv, LoadSession, DeliverFirst, UnloadHash;
    var d' := Next(cfg, d, a);
    match a
    case SetupTimer(s) => LoadKeepsIsolated(cfg, d', d, s, d.theme, true);
    case CloseSession(s, names) =>
      UnloadHashOnlyUp(cfg.disk, d.store, d.sessions[s].hash, names);
      FilterQueue(d.queue, s);
    case AttemptDone(b, ok) =>
      if SilentEnd(d, a) {
        var id :| id in d.store.live && d.store.live[id].backend == b;
        assert id in d'.store.live && !IsUp(d', b) && Lost(b) !in d'.queue;
      }
    case Deliver(order) => DeliverKeepsIsolated(cfg, d, order);
    case _ =>
  }

  lemma {:induction false} QueuesAreFollowed(cfg: Config, states: seq<State>, actions: seq<Action>, i: nat)
    requires ValidConfig(cfg) && IsRun(cfg, states, actions) && i < |states|
    ensures Followed(states[i].queue)
  {
    hide ValidConfig, Enabled, Next;
    if i == 0 {
      var theme, n :| states[0] == Initially(theme, n);
    } else {
      QueuesAreFollowed(cfg, states, actions, i - 1);
      ActionOfRun(cfg, states, actions, i - 1);
      ActionKeepsFollowed(cfg, states[i - 1], actions[i - 1]);
    }
  }

  /** Disconnect isolation over runs: at every point of a run a live handle of a backend means that the
      backend is Connected or its loss is still to be processed, exactly if no attempt of the run ends
      a connection silently. */
  lemma {:induction false} HandlesOfLiveConnections(cfg: Config, states: seq<State>, actions: seq<Action>, n: nat)
    requires ValidConfig(cfg) && IsRun(cfg, states, actions) && n < |states|
    ensures (forall i :: 0 <= i <= n ==> Isolated(states[i])) <==>
            (forall i :: 0 <= i < n ==> !SilentEnd(states[i], actions[i]))
  {
    hide ValidConfig, DaemonInv, Enabled, Next, Isolated, SilentEnd, Followed;
    if n == 0 {
      StartIsIsolated(cfg, states, actions);
    } else {
      HandlesOfLiveConnections(cfg, states, actions, n - 1);
      RunKeeps(cfg, states, actions, n - 1);
      QueuesAreFollowed(cfg, states, actions, n - 1);
      ActionOfRun(cfg, states, actions, n - 1);
      if Isolated(states[n - 1]) {
        IsolatedExactlyWhen(cfg, states[n - 1], actions[n - 1]);
      }
    }
  }

  lemma StartIsIsolated(cfg: Config, states: seq<State>, actions: seq<Action>)
    requires ValidConfig(cfg) && IsRun(cfg, states, actions)
    ensures Isolated(states[0])
  {
    hide ValidConfig, Enabled, Next;
    var theme, n :| states[0] == Initially(theme, n);
  }

  /** So isolation holds in every run in which the backends report their losses at good times, and no
      attempt that has marked its backend Connected fails. */
  lemma OrderlyRunsAreIsolated(cfg: Config, states: seq<State>, actions: seq<Action>, n: nat)
    requires ValidConfig(cfg) && IsRun(cfg, states, actions) && n < |states|
    requires forall i, b: nat {:trigger GoodLoss(states[i], actions[i], b)} ::
               0 <= i < |actions| ==> GoodLoss(states[i], actions[i], b)
    requires forall i | 0 <= i < |actions| && actions[i].AttemptDone? ::
               !actions[i].ok && IsUp(states[i], actions[i].backend) ==>
               IsAnnounced(states[i], actions[i].backend)
    ensures Isolated(states[n])
  {
    hide ValidConfig, Next, Isolated, GoodLoss;
    HandlesOfLiveConnections(cfg, states, actions, n);
    forall i | 0 <= i < n ensures !SilentEnd(states[i], actions[i]) {
      var a := actions[i];
      if a.AttemptDone? && !a.ok && IsUp(states[i], a.backend) {
        ActionOfRun(cfg, states, actions, i);
        BackendCountStays(cfg, states, actions, i);
        NoStrandedBackend(cfg, states, actions, a.backend);
      }
    }
  }
}
