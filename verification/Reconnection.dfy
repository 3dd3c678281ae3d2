/** Reconnection of a backend: its state, the timer between attempts and the attempt in flight. */
module Reconnection {
  import opened Text

  datatype Link = Disconnected | Connecting | Connected

  /** `timer` is the interval of the running single-shot timer; `inFlight` tells that the future watcher
      has an attempt whose result is still to come, `overtaken` that it was once given a new attempt
      before the result of the old one, whose init() may still be running; `announced` tells that the
      connection has been reported by establishedConnection. */
  datatype Backend = Backend(link: Link, failed: nat, timer: Option<nat>, inFlight: bool, overtaken: bool,
                             announced: bool)

  const INTERVALS: seq<nat> := [500, 1000, 5000, 10000, 30000, 120000]

  const INITIAL := Backend(Disconnected, 0, None, false, false, false)

  predicate Announced(bk: Backend) {
    bk.link == Connected && bk.announced
  }

  function Interval(failed: nat): nat {
    if failed < |INTERVALS| then INTERVALS[failed] else INTERVALS[|INTERVALS| - 1]
  }

  /** The slot tryConnect. */
  function Retry(bk: Backend): Backend {
    bk.(link := Connecting, failed := bk.failed + 1,
        timer := if bk.timer.None? then Some(Interval(bk.failed + 1)) else bk.timer)
  }

  /** The slot connecting, called once at start-up and whenever the timer fires. */
  function Attempt(bk: Backend): Backend {
    bk.(timer := None, inFlight := true, overtaken := bk.overtaken || bk.inFlight)
  }

  /** Backends set their own state to Connected in init(), in the thread of the attempt and before its
      result is known; some do so when they are constructed. Nobody is told. */
  function Marked(bk: Backend): Backend {
    if bk.link == Connected then bk else bk.(link := Connected, announced := false)
  }

  /** The slot connectionDone; a success is announced by establishedConnection. */
  function Finish(bk: Backend, ok: bool): Backend {
    var done := bk.(inFlight := false);
    if ok then done.(link := Connected, failed := 0, announced := true) else Retry(done)
  }

  class MfBackendBase {
    const connectionIntervals: seq<nat>
    var timer: Option<nat>
    var failedConnections: nat
    var currentState: Link
    /** The watched attempt: whether init() is still running, and whether finished() is still to come. */
    var initRunning: bool
    var finishedToCome: bool
    var signalsConnected: bool
    ghost var overtaken: bool
    ghost var announced: bool

    ghost predicate Valid() {
      connectionIntervals == INTERVALS
    }

    ghost function State(): Backend
      reads this
    {
      Backend(currentState, failedConnections, timer, finishedToCome, overtaken, announced)
    }

    constructor ()
      ensures Valid() && State() == INITIAL && signalsConnected
    {
      connectionIntervals := [500] + [1000] + [5000] + [10000] + [30000] + [120000];
      timer, failedConnections, currentState := None, 0, Disconnected;
      initRunning, finishedToCome, signalsConnected := false, false, true;
      overtaken, announced := false, false;
    }

    method TryConnect()
      requires Valid()
      modifies this`currentState, this`failedConnections, this`timer
      ensures State() == Retry(old(State()))
      ensures currentState == Link.Connecting && failedConnections == old(failedConnections) + 1
      ensures timer == if old(timer).Some? then old(timer)
                       else match failedConnections
                            case 1 => Some(1000) case 2 => Some(5000) case 3 => Some(10000) case 4 => Some(30000)
                            case _ => Some(120000)
    {
      currentState := Link.Connecting;
      failedConnections := failedConnections + 1;
      var interval;
      if failedConnections < |connectionIntervals| {
        interval := connectionIntervals[failedConnections];
      } else {
        interval := connectionIntervals[|connectionIntervals| - 1];
      }
      if timer.None? {
        timer := Some(interval);
      }
    }

    /** `established` tells whether establishedConnection is emitted. */
    method ConnectionDone(result: bool) returns (established: bool)
      requires Valid()
      modifies this`currentState, this`failedConnections, this`timer, this`initRunning, this`finishedToCome,
               this`announced
      ensures State() == Finish(old(State()), result) && !initRunning
      ensures established == result && !finishedToCome
      ensures result ==> currentState == Connected && failedConnections == 0 && timer == old(timer)
      ensures !result ==>
                currentState == Link.Connecting && failedConnections == old(failedConnections) + 1 && timer.Some?
    {
      initRunning, finishedToCome := false, false;
      if !result {
        TryConnect();
        return false;
      }
      currentState := Connected;
      failedConnections := 0;
      announced := true;
      return true;
    }

    /** `Attempt`: the timer has fired, or the backend has just been loaded. */
    method Connecting()
      requires Valid()
      modifies this`timer, this`initRunning, this`finishedToCome, this`overtaken
      ensures State() == Attempt(old(State())) && initRunning && finishedToCome && timer == None
    {
      timer := None;
      overtaken := overtaken || finishedToCome;
      initRunning, finishedToCome := true, true;
    }

    /** What a backend's init() does to the state, as the documentation demands. */
    method MarkConnected()
      requires Valid()
      modifies this`currentState, this`announced
      ensures State() == Marked(old(State())) && currentState == Connected
    {
      announced := announced && currentState == Connected;
      currentState := Connected;
    }

    /** Before deletion init() is awaited, the timer is stopped and no signal is delivered any more; the
        result of the attempt is still reported. */
    method Cleanup()
      requires Valid()
      modifies this`timer, this`initRunning, this`signalsConnected
      ensures State() == old(State()).(timer := None)
      ensures !initRunning && !signalsConnected
    {
      if initRunning {
        initRunning := false;
      }
      if timer.Some? {
        timer := None;
      }
      signalsConnected := false;
    }
  }

  // Runs

  /** A backend together with the calls of tryConnect that wait in the event queue, because the
      connection was lost while playing in another thread. */
  datatype Machine = Machine(bk: Backend, notices: nat)

  /** Losing the connection in the main thread runs tryConnect at once; in another thread it queues the
      call, the backend having marked itself Disconnected or not. `Mark` is the write of init(). */
  datatype Input = LostHere | LostElsewhere(marks: bool) | Notice | Timeout | Mark | Done(ok: bool)

  predicate CanHappen(m: Machine, input: Input) {
    match input
    case LostHere => true
    case LostElsewhere(_) => true
    case Notice => m.notices > 0
    case Timeout => m.bk.timer.Some?
    case Mark => m.bk.inFlight || m.bk.overtaken
    case Done(_) => m.bk.inFlight
  }

  function Step(m: Machine, input: Input): Machine {
    match input
    case LostHere => m.(bk := Retry(m.bk))
    case LostElsewhere(marks) => Machine(if marks then m.bk.(link := Disconnected) else m.bk, m.notices + 1)
    case Notice => Machine(Retry(m.bk), if m.notices > 0 then m.notices - 1 else 0)
    case Timeout => m.(bk := Attempt(m.bk))
    case Mark => m.(bk := Marked(m.bk))
    case Done(ok) => m.(bk := Finish(m.bk, ok))
  }

  /** A backend as it is when it has just been loaded: the first attempt is in flight. */
  const STARTED := Machine(Attempt(INITIAL), 0)

  function Run(inputs: seq<Input>): Machine {
    if inputs == [] then STARTED else Step(Run(inputs[..|inputs| - 1]), inputs[|inputs| - 1])
  }

  ghost predicate PossibleRun(inputs: seq<Input>) {
    forall i :: 0 <= i < |inputs| ==> CanHappen(Run(inputs[..i]), inputs[i])
  }

  lemma RunInit(inputs: seq<Input>)
    requires inputs != []
    ensures var init, input := inputs[..|inputs| - 1], inputs[|inputs| - 1];
            PossibleRun(inputs) ==> PossibleRun(init) && CanHappen(Run(init), input)
  {
    var init := inputs[..|inputs| - 1];
    forall i | 0 <= i < |init| ensures init[..i] == inputs[..i] && init[i] == inputs[i] {
    }
  }

  // No stranded backend

  /** The connection has been announced, or there is something that will lead to the next attempt; and a
      backend that is Connected without an announcement has been marked by an attempt that may still be
      running. */
  predicate NotStranded(m: Machine) {
    && (Announced(m.bk) || m.bk.timer.Some? || m.bk.inFlight || m.notices > 0)
    && (m.bk.link == Connected && !m.bk.announced ==> m.bk.inFlight || m.bk.overtaken)
  }

  /** Exactly one of these holds: the backend is Connected and this has been announced, its timer is
      running, an attempt is in flight, a call of tryConnect is queued. Attempts never overlap, and only
      the attempt in flight can have marked the backend. */
  predicate Exclusive(m: Machine) {
    && (if Announced(m.bk) then 1 else 0) + (if m.bk.timer.Some? then 1 else 0) +
       (if m.bk.inFlight then 1 else 0) + m.notices == 1
    && !m.bk.overtaken
    && (m.bk.link == Connected && !m.bk.announced ==> m.bk.inFlight)
  }

  /** A loss comes at a good time: it ends a connection that has been announced, or it is reported in the
      main thread while the timer is running anyway. */
  predicate Orderly(m: Machine, input: Input) {
    && (input.LostHere? ==> Announced(m.bk) || m.bk.timer.Some?)
    && (input.LostElsewhere? ==> Announced(m.bk) && input.marks)
  }

  /** No step strands a backend, and a step keeps attempts exclusive exactly if losses come at a good time. */
  lemma StepKeepsPromise(m: Machine, input: Input)
    requires CanHappen(m, input)
    ensures NotStranded(m) ==> NotStranded(Step(m, input))
    ensures Exclusive(m) ==> (Exclusive(Step(m, input)) <==> Orderly(m, input))
  {
  }

  /** At every point of the run. */
  predicate AlwaysExclusive(inputs: seq<Input>) {
    Exclusive(Run(inputs)) && (inputs != [] ==> AlwaysExclusive(inputs[..|inputs| - 1]))
  }

  predicate AlwaysOrderly(inputs: seq<Input>) {
    inputs != [] ==>
      Orderly(Run(inputs[..|inputs| - 1]), inputs[|inputs| - 1]) && AlwaysOrderly(inputs[..|inputs| - 1])
  }

  /** No backend is ever stranded, whatever it reports and when; and attempts are exclusive at every
      point of a run exactly if all losses come at a good time. */
  lemma {:induction false} NeverStranded(inputs: seq<Input>)
    requires PossibleRun(inputs)
    ensures NotStranded(Run(inputs))
    ensures AlwaysExclusive(inputs) <==> AlwaysOrderly(inputs)
  {
    if inputs != [] {
      var init, input := inputs[..|inputs| - 1], inputs[|inputs| - 1];
      RunInit(inputs);
      NeverStranded(init);
      StepKeepsPromise(Run(init), input);
      assert Run(inputs) == Step(Run(init), input);
      hide NotStranded, Exclusive, Orderly, Step, PossibleRun;
    }
  }

  // Back-off

  /** The delays that have been started since the last success, oldest first. */
  function Delays(inputs: seq<Input>): seq<nat> {
    if inputs == [] then []
    else
      var init, input := inputs[..|inputs| - 1], inputs[|inputs| - 1];
      var before, after := Run(init).bk, Run(inputs).bk;
      if input == Done(true) then []
      else if before.timer.None? && after.timer.Some? then Delays(init) + [after.timer.value]
      else Delays(init)
  }

  lemma IntervalsGrow(i: nat, j: nat)
    requires 1 <= i <= j
    ensures 1000 <= Interval(i) <= Interval(j) <= 120000
  {
  }

  /** tryConnect runs. */
  predicate RetriesOn(input: Input) {
    input == LostHere || input == Notice || input == Done(false)
  }

  /** tryConnect finds its timer running: the failure counts, but starts no delay. */
  predicate Skips(m: Machine, input: Input) {
    RetriesOn(input) && m.bk.timer.Some?
  }

  predicate NeverSkips(inputs: seq<Input>) {
    inputs != [] ==> !Skips(Run(inputs[..|inputs| - 1]), inputs[|inputs| - 1]) && NeverSkips(inputs[..|inputs| - 1])
  }

  /** Only tryConnect counts failures, and it starts a delay unless the timer is running. */
  lemma StepCounts(m: Machine, input: Input)
    ensures var bk, bk' := m.bk, Step(m, input).bk;
            bk'.failed == (if input == Done(true) then 0 else if RetriesOn(input) then bk.failed + 1 else bk.failed) &&
            (bk.timer.None? && bk'.timer.Some? <==> RetriesOn(input) && !Skips(m, input)) &&
            (bk.timer.None? && bk'.timer.Some? ==> bk'.timer.value == Interval(bk.failed + 1)) &&
            (Announced(bk') ==> input == Done(true) || (Announced(bk) && !RetriesOn(input)))
  {
  }

  /** The delays after one more input. */
  lemma DelaysStep(inputs: seq<Input>)
    requires inputs != []
    ensures var init, input := inputs[..|inputs| - 1], inputs[|inputs| - 1];
            Delays(inputs) ==
              if input == Done(true) then []
              else if RetriesOn(input) && !Skips(Run(init), input) then
                Delays(init) + [Interval(Run(init).bk.failed + 1)]
              else Delays(init)
  {
    var init, input := inputs[..|inputs| - 1], inputs[|inputs| - 1];
    assert Run(inputs) == Step(Run(init), input);
    StepCounts(Run(init), input);
    hide Run, Interval, Step, Skips;
  }

  /** Delays within an outage of `failed` failures: the k-th is at least the k-th interval and at most
      that of the last failure, and they never decrease. */
  ghost predicate BackOff(delays: seq<nat>, failed: nat) {
    && |delays| <= failed
    && (forall k :: 0 <= k < |delays| ==> Interval(k + 1) <= delays[k])
    && (forall k :: 0 <= k < |delays| ==> delays[k] <= Interval(failed))
    && (forall i, j :: 0 <= i <= j < |delays| ==> delays[i] <= delays[j])
  }

  lemma BackOffGoesOn(delays: seq<nat>, failed: nat)
    requires BackOff(delays, failed)
    ensures BackOff(delays, failed + 1) && BackOff(delays + [Interval(failed + 1)], failed + 1)
  {
    IntervalsGrow(|delays| + 1, failed + 1);
    if failed > 0 {
      IntervalsGrow(failed, failed + 1);
    }
    hide Interval;
    var longer := delays + [Interval(failed + 1)];
    assert forall k :: 0 <= k < |delays| ==> delays[k] <= Interval(failed + 1);
    assert forall k :: 0 <= k < |delays| ==> longer[k] == delays[k];
  }

  lemma BackOffBounds(delays: seq<nat>, failed: nat)
    requires BackOff(delays, failed)
    ensures forall i, j :: 0 <= i <= j < |delays| ==> 1000 <= delays[i] <= delays[j] <= 120000
  {
    forall i, j | 0 <= i <= j < |delays| ensures 1000 <= delays[i] <= delays[j] <= 120000 {
      IntervalsGrow(i + 1, failed);
    }
  }

  /** Back-off law, for every run: within an outage the delays lie between 1000 and 120000 ms and never
      decrease, so the entry of 500 ms is never used; and an announced connection starts the law over. */
  lemma {:induction false} BackOffLaw(inputs: seq<Input>)
    requires PossibleRun(inputs)
    ensures BackOff(Delays(inputs), Run(inputs).bk.failed)
    ensures forall i, j :: 0 <= i <= j < |Delays(inputs)| ==> 1000 <= Delays(inputs)[i] <= Delays(inputs)[j] <= 120000
    ensures Announced(Run(inputs).bk) ==> Delays(inputs) == [] && Run(inputs).bk.failed == 0
    decreases |inputs|, 1
  {
    if inputs != [] {
      BackOffStep(inputs);
    }
    BackOffBounds(Delays(inputs), Run(inputs).bk.failed);
  }

  lemma BackOffStep(inputs: seq<Input>)
    requires PossibleRun(inputs) && inputs != []
    ensures BackOff(Delays(inputs), Run(inputs).bk.failed)
    ensures Announced(Run(inputs).bk) ==> Delays(inputs) == [] && Run(inputs).bk.failed == 0
    decreases |inputs|, 0
  {
    hide Delays, PossibleRun, Skips, BackOff, Interval;
    var init, input := inputs[..|inputs| - 1], inputs[|inputs| - 1];
    RunInit(inputs);
    BackOffLaw(init);
    assert Run(inputs) == Step(Run(init), input);
    StepCounts(Run(init), input);
    DelaysStep(inputs);
    BackOffGoesOn(Delays(init), Run(init).bk.failed);
    hide Run, Step;
    NoDelays();
  }

  lemma NoDelays()
    ensures BackOff([], 0)
  {
  }

  /** Every failure since the last success has started a delay. */
  predicate Accounts(inputs: seq<Input>) {
    |Delays(inputs)| == Run(inputs).bk.failed
  }

  predicate AlwaysAccounts(inputs: seq<Input>) {
    Accounts(inputs) && (inputs != [] ==> AlwaysAccounts(inputs[..|inputs| - 1]))
  }

  /** Every failure starts a delay, at every point of a run, exactly if tryConnect never finds its timer
      running. */
  lemma {:induction false} DelayForEveryFailure(inputs: seq<Input>)
    requires PossibleRun(inputs)
    ensures AlwaysAccounts(inputs) <==> NeverSkips(inputs)
  {
    if inputs != [] {
      var init, input := inputs[..|inputs| - 1], inputs[|inputs| - 1];
      RunInit(inputs);
      DelayForEveryFailure(init);
      assert Run(inputs) == Step(Run(init), input);
      StepCounts(Run(init), input);
      DelaysStep(inputs);
      hide Interval, Run, Delays, PossibleRun, Skips, Step;
    }
  }

  lemma {:induction false} DelaysAreIntervals(inputs: seq<Input>)
    requires PossibleRun(inputs) && NeverSkips(inputs)
    ensures |Delays(inputs)| == Run(inputs).bk.failed
    ensures forall k :: 0 <= k < |Delays(inputs)| ==> Delays(inputs)[k] == Interval(k + 1)
  {
    if inputs != [] {
      hide Interval, Delays, PossibleRun, Skips;
      var init, input := inputs[..|inputs| - 1], inputs[|inputs| - 1];
      RunInit(inputs);
      DelaysAreIntervals(init);
      assert Run(inputs) == Step(Run(init), input);
      StepCounts(Run(init), input);
      DelaysStep(inputs);
      hide Run, Step;
    }
  }

  /** The delays in milliseconds, from the first failure on; the last one is repeated. */
  predicate IsBackOffTable(delays: seq<nat>) {
    forall k :: 0 <= k < |delays| ==>
      delays[k] ==
        if k == 0 then 1000 else if k == 1 then 5000 else if k == 2 then 10000 else if k == 3 then 30000 else 120000
  }

  /** The delay of the k-th failure since the last success is the k-th of the table, then. */
  lemma EveryFailureStartsItsDelay(inputs: seq<Input>)
    requires PossibleRun(inputs) && NeverSkips(inputs)
    ensures |Delays(inputs)| == Run(inputs).bk.failed
    ensures IsBackOffTable(Delays(inputs))
  {
    hide Delays, Run, PossibleRun, NeverSkips;
    DelaysAreIntervals(inputs);
    assert Interval(1) == 1000 && Interval(2) == 5000 && Interval(3) == 10000 && Interval(4) == 30000;
    assert forall k :: k >= 5 ==> Interval(k) == 120000;
  }

  /** Attempts stay exclusive and no delay is skipped exactly if connections are lost only when they
      have been announced. */
  lemma ProperLosses(m: Machine, input: Input)
    requires CanHappen(m, input) && Exclusive(m)
    ensures Exclusive(Step(m, input)) && !Skips(m, input) <==>
            (input.LostHere? || input.LostElsewhere? ==> Announced(m.bk)) && (input.LostElsewhere? ==> input.marks)
  {
  }

  /** A run in which a delay is skipped: a loss is reported while the timer is already running, counts as
      a failure and starts no delay. */
  lemma SpuriousLossSkipsAnInterval()
    ensures var inputs := [Done(false), LostHere, Timeout, Done(false)];
            PossibleRun(inputs) && Delays(inputs) == [1000, 10000]
  {
    var one, two, three := [Done(false)], [Done(false), LostHere], [Done(false), LostHere, Timeout];
    var inputs := [Done(false), LostHere, Timeout, Done(false)];
    assert one[..0] == [] && two[..1] == one && three[..2] == two && inputs[..3] == three;
    assert inputs[..0] == [] && inputs[..1] == one && inputs[..2] == two;
    assert Run(one).bk == Backend(Connecting, 1, Some(1000), false, false, false) && Delays(one) == [1000];
    assert Run(two).bk == Backend(Connecting, 2, Some(1000), false, false, false) && Delays(two) == [1000];
    assert Run(three).bk == Backend(Connecting, 2, None, true, false, false) && Delays(three) == [1000];
    assert Run(inputs).bk == Backend(Connecting, 3, Some(10000), false, false, false);
  }
}
