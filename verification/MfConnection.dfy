/** Client connections and the sessions they own. Setting up a session may run a nested event loop, so
    anything can happen to any connection while a session is inside its setup. */
module MfConnection {
  import opened Text
  import Volumes

  datatype Phase = ClientSetup | WaitingSession | Playback | Terminated | Doomed

  const VERSION_PREFIX: string := "FeedbackProtocolVersion#"

  /** What one read finds on the socket: a string, the string after it, and whether the stream was sound. */
  datatype Packet = Packet(text: string, next: string, sound: bool)

  /** `known` tells that the client's protocol version is one that is supported; `dying` that the
      deletion of the connection is scheduled, `inner` that it has been scheduled inside a nested loop. */
  datatype Conn = Conn(phase: Phase, session: Option<nat>, known: bool, name: string, dying: bool, inner: bool)

  const FRESH := Conn(ClientSetup, None, false, [], false, false)

  /** The version announced by a client; clients that announce none speak version 1. */
  function AnnouncedVersion(text: string): Option<int> {
    if Volumes.StartsWith(text, VERSION_PREFIX) then ToInt(text[|VERSION_PREFIX|..]) else Some(1)
  }

  function NameFrom(p: Packet): string {
    if Volumes.StartsWith(p.text, VERSION_PREFIX) then p.next else p.text
  }

  /** The handshake: `session` is the identity of the session that is created on success. */
  function Handshake(c: Conn, p: Packet, session: nat): Conn {
    var c1 := if AnnouncedVersion(p.text) == Some(1) then c.(known := true, name := NameFrom(p)) else c;
    if !p.sound || !c1.known then c1.(phase := Doomed) else c1.(phase := WaitingSession, session := Some(session))
  }

  predicate Succeeds(c: Conn, p: Packet) {
    p.sound && (c.known || AnnouncedVersion(p.text) == Some(1))
  }

  /** deleteLater is called, in the main loop or in a nested one. */
  function Killed(c: Conn, nested: bool): Conn {
    if c.phase == WaitingSession then c else c.(dying := true, inner := c.inner || nested)
  }

  /** Playback requests are read until there are no more, even after one of them was unsound. */
  function Fetch(c: Conn, packets: seq<Packet>, nested: bool): Conn
    decreases |packets|
  {
    if packets == [] then c
    else Fetch(if packets[0].sound then c else Killed(c.(phase := Terminated), nested), packets[1..], nested)
  }

  function ReadSocketData(c: Conn, packets: seq<Packet>, session: nat, nested: bool): Conn
    requires packets != []
  {
    match c.phase
    case Playback => Fetch(c, packets, nested)
    case Doomed => c
    case WaitingSession => c
    case _ => Handshake(c, packets[0], session)
  }

  lemma VersionOne()
    ensures ToInt("FeedbackProtocolVersion#1"[24..]) == Some(1)
  {
    NumberRoundTrip(1);
    assert "FeedbackProtocolVersion#1"[24..] == "1" == Digits(1);
  }

  /** What a client gets for its first packet: version 1 with its name behind, no version and just its name,
      or neither version nor name, unless its version is known from before. */
  lemma HandshakeOutcome(c: Conn, p: Packet, session: nat, nested: bool)
    requires c.phase == ClientSetup || c.phase == Terminated
    ensures var r := ReadSocketData(c, [p], session, nested);
            var welcome := c.(phase := WaitingSession, session := Some(session), known := true);
            (p.sound && p.text == "FeedbackProtocolVersion#1" ==> r == welcome.(name := p.next)) &&
            (p.sound && !("FeedbackProtocolVersion#" <= p.text) ==> r == welcome.(name := p.text)) &&
            ("FeedbackProtocolVersion#" <= p.text && ToInt(p.text[24..]) != Some(1) ==>
              r == if p.sound && c.known then welcome else c.(phase := Doomed)) &&
            (!p.sound ==> r.phase == Doomed && r.session == c.session)
  {
    VersionOne();
    assert VERSION_PREFIX <= p.text <==> Volumes.StartsWith(p.text, VERSION_PREFIX);
  }

  lemma NotVersionOne(n: nat, version: string)
    requires n != 1 && (version == Digits(n) || version == "-" + Digits(n) || version == [] ||
                        exists i :: 0 <= i < |version| && 'a' <= version[i] <= 'z')
    ensures ToInt(version) != Some(1)
  {
    hide ToInt, Digits;
    NumberRoundTrip(n);
    NegativeRoundTrip(n);
    if version == [] || exists i :: 0 <= i < |version| && 'a' <= version[i] <= 'z' {
      NotANumber(version);
    }
  }

  /** A new client that announces another version, or something that is no number, is doomed and has no
      name. */
  lemma OtherVersionsAreDoomed(n: nat, version: string, next: string, sound: bool, session: nat, nested: bool)
    requires n != 1 && (version == Digits(n) || version == "-" + Digits(n) || version == [] ||
                        exists i :: 0 <= i < |version| && 'a' <= version[i] <= 'z')
    ensures ReadSocketData(FRESH, [Packet("FeedbackProtocolVersion#" + version, next, sound)], session, nested) ==
            FRESH.(phase := Doomed)
  {
    var text := "FeedbackProtocolVersion#" + version;
    NotVersionOne(n, version);
    hide ToInt, Digits;
    assert text[24..] == version && "FeedbackProtocolVersion#" <= text;
    HandshakeOutcome(FRESH, Packet(text, next, sound), session, nested);
  }

  /** One unsound request ends the connection, whatever follows; sound ones leave it as it is. */
  lemma {:induction false} PlaybackOutcome(c: Conn, packets: seq<Packet>, nested: bool)
    requires (c.phase == Playback || c.phase == Terminated) && packets != []
    ensures Fetch(c, packets, nested) ==
            if exists i :: 0 <= i < |packets| && !packets[i].sound
            then c.(phase := Terminated, dying := true, inner := c.inner || nested) else c
    decreases |packets|
  {
    var c1 := if packets[0].sound then c else Killed(c.(phase := Terminated), nested);
    var rest := packets[1..];
    if rest != [] {
      PlaybackOutcome(c1, rest, nested);
      assert forall i :: 0 < i < |packets| ==> packets[i] == rest[i - 1];
      assert forall i :: 0 <= i < |rest| ==> rest[i] == packets[i + 1];
    }
  }

  class MfConnection {
    var state: Phase
    var session: Option<nat>
    var clientName: string
    var clientVersionKnown: bool
    var deletionScheduled: bool
    var scheduledInside: bool

    function Value(): Conn
      reads this
    {
      Conn(state, session, clientVersionKnown, clientName, deletionScheduled, scheduledInside)
    }

    constructor ()
      ensures Value() == FRESH
    {
      state, session, clientName, clientVersionKnown := ClientSetup, None, [], false;
      deletionScheduled, scheduledInside := false, false;
    }

    method Setup(p: Packet, newSession: nat)
      modifies this
      ensures Value() == Handshake(old(Value()), p, newSession)
      ensures p.sound && p.text == "FeedbackProtocolVersion#1" ==>
                state == WaitingSession && session == Some(newSession) && clientName == p.next
      ensures p.sound && !("FeedbackProtocolVersion#" <= p.text) ==>
                state == WaitingSession && session == Some(newSession) && clientName == p.text
      ensures "FeedbackProtocolVersion#" <= p.text && ToInt(p.text[24..]) != Some(1) ==>
                clientName == old(clientName) && clientVersionKnown == old(clientVersionKnown)
      ensures state == WaitingSession <==> p.sound && clientVersionKnown
      ensures state != WaitingSession ==> state == Doomed && session == old(session)
    {
      VersionOne();
      if Volumes.StartsWith(p.text, VERSION_PREFIX) {
        var version := ToInt(p.text[|VERSION_PREFIX|..]);
        if version.Some? && version.value == 1 {
          clientVersionKnown := true;
          clientName := p.next;
        }
      } else {
        clientVersionKnown := true;
        clientName := p.text;
      }
      if !p.sound || !clientVersionKnown {
        state := Doomed;
      } else {
        state := WaitingSession;
        session := Some(newSession);
      }
    }

    method SetupReady()
      modifies this`state
      ensures Value() == old(Value()).(phase := Playback)
    {
      state := Playback;
    }

    /** `nested` tells whether this runs in a nested loop, `again` that the timer is started to try later. */
    method KillMe(nested: bool) returns (again: bool)
      modifies this`deletionScheduled, this`scheduledInside
      ensures deletionScheduled == (old(deletionScheduled) || state != WaitingSession)
      ensures Value() == Killed(old(Value()), nested) && again == (state == WaitingSession)
    {
      again := state == WaitingSession;
      if !again {
        deletionScheduled := true;
        scheduledInside := scheduledInside || nested;
      }
    }

    method Terminate(nested: bool)
      modifies this
      ensures Value() == Killed(old(Value()).(phase := Terminated), nested)
      ensures state == Terminated && deletionScheduled
    {
      state := Terminated;
      var again := KillMe(nested);
    }

    method ReadData(packets: seq<Packet>, newSession: nat, nested: bool)
      requires packets != []
      modifies this
      ensures Value() == ReadSocketData(old(Value()), packets, newSession, nested)
    {
      if state == Playback {
        for i := 0 to |packets|
          invariant Fetch(Value(), packets[i..], nested) == Fetch(old(Value()), packets, nested)
        {
          assert packets[i..][1..] == packets[i + 1..];
          if !packets[i].sound {
            Terminate(nested);
          }
        }
      } else if state == Doomed || state == WaitingSession {
      } else {
        Setup(packets[0], newSession);
      }
    }
  }

  // All connections together

  datatype Stage = Scheduled | Inside | Ready

  /** A session belongs to the connection that created it and is deleted with it. */
  datatype Owned = Owned(owner: nat, stage: Stage)

  /** `flag` is the one that admits one session to setup at a time. */
  datatype Server = Server(conns: map<nat, Conn>, sessions: map<nat, Owned>, flag: bool, nextSession: nat)

  datatype Happening =
    | Accept(conn: nat, packets: seq<Packet>)
    | Data(conn: nat, packets: seq<Packet>)
    | SetupTimer(session: nat)
    | SetupEnds(session: nat)
    | Kill(conn: nat)
    | Deleted(conn: nat)

  /** A session is inside its setup: what happens now happens in the loop it runs. */
  predicate Nested(v: Server) {
    exists s :: s in v.sessions && v.sessions[s].stage == Inside
  }

  /** A deletion that was scheduled in the main loop is carried out there, never in a nested loop. */
  predicate CanHappen(v: Server, h: Happening) {
    match h
    case Accept(c, _) => c !in v.conns
    case Data(c, packets) => c in v.conns && packets != []
    case SetupTimer(s) => s in v.sessions && v.sessions[s].stage == Scheduled
    case SetupEnds(s) => s in v.sessions && v.sessions[s].stage == Inside && v.sessions[s].owner in v.conns
    case Kill(c) => c in v.conns
    case Deleted(c) => c in v.conns && v.conns[c].dying && (v.conns[c].inner || !Nested(v))
  }

  /** Storing the connection, and the session if a handshake has just created one. */
  function WithConn(v: Server, c: nat, before: Conn, after: Conn): Server {
    if after.session == Some(v.nextSession) && before.session != after.session then
      v.(conns := v.conns[c := after], sessions := v.sessions[v.nextSession := Owned(c, Scheduled)],
         nextSession := v.nextSession + 1)
    else v.(conns := v.conns[c := after])
  }

  function Next(v: Server, h: Happening): Server
    requires CanHappen(v, h)
  {
    match h
    case Accept(c, packets) =>
      WithConn(v, c, FRESH, if packets == [] then FRESH else Handshake(FRESH, packets[0], v.nextSession))
    case Data(c, packets) =>
      WithConn(v, c, v.conns[c], ReadSocketData(v.conns[c], packets, v.nextSession, Nested(v)))
    case SetupTimer(s) =>
      if v.flag then v else v.(flag := true, sessions := v.sessions[s := v.sessions[s].(stage := Inside)])
    case SetupEnds(s) =>
      var owner := v.sessions[s].owner;
      v.(conns := v.conns[owner := v.conns[owner].(phase := Playback)],
         sessions := v.sessions[s := v.sessions[s].(stage := Ready)], flag := false)
    case Kill(c) => v.(conns := v.conns[c := Killed(v.conns[c], Nested(v))])
    case Deleted(c) =>
      v.(conns := v.conns - {c}, sessions := map s | s in v.sessions && v.sessions[s].owner != c :: v.sessions[s])
  }

  /** The flag is set exactly while one session is inside its setup. */
  ghost predicate FlagOk(v: Server) {
    && (v.flag <==> Nested(v))
    && (forall s, t ::
          s in v.sessions && t in v.sessions && v.sessions[s].stage == v.sessions[t].stage == Inside ==> s == t)
  }

  /** A connection has a session exactly from the handshake on, is waiting exactly while the session is
      not ready, and is never scheduled for deletion while it waits. */
  ghost predicate ConnOk(v: Server, c: nat)
    requires c in v.conns
  {
    var conn := v.conns[c];
    match conn.session
    case None => conn.phase == ClientSetup || conn.phase == Doomed
    case Some(s) =>
      && s in v.sessions && v.sessions[s].owner == c
      && if v.sessions[s].stage == Ready then conn.phase == Playback || (conn.phase == Terminated && conn.dying)
         else conn.phase == WaitingSession && !conn.dying
  }

  ghost predicate ServerInv(v: Server) {
    && FlagOk(v)
    && (forall c :: c in v.conns ==> ConnOk(v, c))
    && (forall s :: s in v.sessions ==>
          s < v.nextSession && v.sessions[s].owner in v.conns && v.conns[v.sessions[s].owner].session == Some(s))
  }

  /** Data read after the connection has been given up: any data once it is terminated, which starts
      another handshake, or a handshake that succeeds although the deletion is already scheduled. */
  predicate LateData(v: Server, h: Happening) {
    h.Data? && h.conn in v.conns && h.packets != [] &&
    var conn := v.conns[h.conn];
    conn.phase == Terminated || (conn.phase == ClientSetup && conn.dying && Succeeds(conn, h.packets[0]))
  }

  lemma {:induction false} FetchKeeps(c: Conn, packets: seq<Packet>, nested: bool)
    requires c.phase == Playback || (c.phase == Terminated && c.dying)
    ensures var r := Fetch(c, packets, nested);
            (r.phase == Playback || (r.phase == Terminated && r.dying)) && r.session == c.session
    decreases |packets|
  {
    if packets != [] {
      FetchKeeps(if packets[0].sound then c else Killed(c.(phase := Terminated), nested), packets[1..], nested);
    }
  }

  lemma StoreConn(v: Server, c: nat, after: Conn)
    requires ServerInv(v) && ConnOk(v.(conns := v.conns[c := after]), c)
    requires after.session == if c in v.conns then v.conns[c].session else None
    ensures ServerInv(v.(conns := v.conns[c := after]))
  {
    var v' := v.(conns := v.conns[c := after]);
    forall d | d in v'.conns ensures ConnOk(v', d) {
      assert d != c ==> ConnOk(v, d);
    }
  }

  lemma StoreSession(v: Server, c: nat, after: Conn)
    requires ServerInv(v) && (c in v.conns ==> v.conns[c].session == None)
    requires after.session == Some(v.nextSession) && after.phase == WaitingSession && !after.dying
    ensures ServerInv(WithConn(v, c, FRESH, after))
  {
    var v' := WithConn(v, c, FRESH, after);
    assert forall s :: s in v.sessions ==> s in v'.sessions && v'.sessions[s] == v.sessions[s];
    assert v'.sessions[v.nextSession].stage == Scheduled;
    forall d | d in v'.conns ensures ConnOk(v', d) {
      assert d != c ==> ConnOk(v, d);
    }
  }

  lemma HandshakeKeepsInv(v: Server, c: nat, before: Conn, p: Packet)
    requires ServerInv(v) && before.phase == ClientSetup && (before.dying ==> !Succeeds(before, p))
    requires if c in v.conns then before == v.conns[c] else before == FRESH
    ensures ServerInv(WithConn(v, c, before, Handshake(before, p, v.nextSession)))
  {
    hide AnnouncedVersion, NameFrom, FlagOk;
    assert c in v.conns ==> ConnOk(v, c);
    var after := Handshake(before, p, v.nextSession);
    if after.phase == Doomed {
      StoreConn(v, c, after);
    } else {
      StoreSession(v, c, after);
      assert WithConn(v, c, before, after) == WithConn(v, c, FRESH, after);
    }
  }

  lemma ReadKeepsInv(v: Server, c: nat, packets: seq<Packet>)
    requires ServerInv(v) && CanHappen(v, Data(c, packets)) && !LateData(v, Data(c, packets))
    ensures ServerInv(Next(v, Data(c, packets)))
  {
    hide FlagOk, Handshake, Fetch;
    var conn := v.conns[c];
    assert ConnOk(v, c);
    if conn.phase == ClientSetup {
      HandshakeKeepsInv(v, c, conn, packets[0]);
    } else {
      if conn.phase == Playback {
        FetchKeeps(conn, packets, Nested(v));
      }
      StoreConn(v, c, ReadSocketData(conn, packets, v.nextSession, Nested(v)));
    }
  }

  lemma LateDataBreaks(v: Server, c: nat, packets: seq<Packet>)
    requires ServerInv(v) && CanHappen(v, Data(c, packets)) && LateData(v, Data(c, packets))
    ensures !ServerInv(Next(v, Data(c, packets)))
  {
    var v' := Next(v, Data(c, packets));
    assert ConnOk(v, c);
    hide AnnouncedVersion, NameFrom;
    assert !ConnOk(v', c);
  }

  lemma TimerKeepsInv(v: Server, s: nat)
    requires ServerInv(v) && CanHappen(v, SetupTimer(s))
    ensures ServerInv(Next(v, SetupTimer(s)))
  {
    var v' := Next(v, SetupTimer(s));
    if !v.flag {
      assert v'.sessions[s].stage == Inside;
      forall d | d in v'.conns ensures ConnOk(v', d) {
        assert ConnOk(v, d);
      }
    }
  }

  lemma EndKeepsInv(v: Server, s: nat)
    requires ServerInv(v) && CanHappen(v, SetupEnds(s))
    ensures ServerInv(Next(v, SetupEnds(s)))
  {
    var v' := Next(v, SetupEnds(s));
    forall d | d in v'.conns ensures ConnOk(v', d) {
      assert ConnOk(v, d);
    }
  }

  lemma KillKeepsInv(v: Server, c: nat)
    requires ServerInv(v) && CanHappen(v, Kill(c))
    ensures ServerInv(Next(v, Kill(c)))
  {
    var v' := Next(v, Kill(c));
    forall d | d in v'.conns ensures ConnOk(v', d) {
      assert ConnOk(v, d);
    }
  }

  lemma DeletedKeepsInv(v: Server, c: nat)
    requires ServerInv(v) && CanHappen(v, Deleted(c))
    ensures ServerInv(Next(v, Deleted(c)))
  {
    var v' := Next(v, Deleted(c));
    assert ConnOk(v, c);
    forall d | d in v'.conns ensures ConnOk(v', d) {
      assert ConnOk(v, d);
    }
    forall s | s in v.sessions && v.sessions[s].stage == Inside ensures s in v'.sessions {
      assert ConnOk(v, v.sessions[s].owner);
    }
  }

  /** With nested event loops, a step keeps the lifetimes in order exactly when it does not bring late data. */
  lemma LifetimesExactlyWhen(v: Server, h: Happening)
    requires ServerInv(v) && CanHappen(v, h)
    ensures ServerInv(Next(v, h)) <==> !LateData(v, h)
  {
    hide ReadSocketData, Handshake, FlagOk;
    match h
    case Accept(c, packets) =>
      if packets == [] {
        StoreConn(v, c, FRESH);
      } else {
        HandshakeKeepsInv(v, c, FRESH, packets[0]);
      }
    case Data(c, packets) =>
      if LateData(v, h) {
        LateDataBreaks(v, c, packets);
      } else {
        ReadKeepsInv(v, c, packets);
      }
    case SetupTimer(s) => TimerKeepsInv(v, s);
    case SetupEnds(s) => EndKeepsInv(v, s);
    case Kill(c) => KillKeepsInv(v, c);
    case Deleted(c) => DeletedKeepsInv(v, c);
  }

  /** A session inside its setup stays alive and inside until its setup ends, so the flag is released;
      and a doomed connection stays doomed, without a session, until it is deleted. */
  lemma SetupIsNotInterrupted(v: Server, h: Happening)
    requires ServerInv(v) && CanHappen(v, h)
    ensures var v' := Next(v, h);
            (forall s :: s in v.sessions && v.sessions[s].stage == Inside && h != SetupEnds(s) ==>
              s in v'.sessions && v'.sessions[s].stage == Inside) &&
            (forall s :: h == SetupEnds(s) ==> !v'.flag) &&
            (forall c :: c in v.conns && v.conns[c].phase == Doomed && c in v'.conns ==>
              v'.conns[c].phase == Doomed && v'.conns[c].session == None)
  {
    hide ToInt, AnnouncedVersion, NameFrom, Fetch;
    var v' := Next(v, h);
    forall s | s in v.sessions && v.sessions[s].stage == Inside && h != SetupEnds(s)
      ensures s in v'.sessions && v'.sessions[s].stage == Inside
    {
      assert ConnOk(v, v.sessions[s].owner);
    }
    forall c | c in v.conns && v.conns[c].phase == Doomed && c in v'.conns
      ensures v'.conns[c].phase == Doomed && v'.conns[c].session == None
    {
      assert ConnOk(v, c);
      if h.SetupEnds? {
        assert ConnOk(v, v.sessions[h.session].owner);
      }
    }
  }

  // Runs

  const IDLE := Server(map[], map[], false, 0)

  function Run(v: Server, hs: seq<Happening>): Option<Server>
    decreases |hs|
  {
    if hs == [] then Some(v)
    else if CanHappen(v, hs[0]) then Run(Next(v, hs[0]), hs[1..])
    else None
  }

  ghost predicate NoLateData(v: Server, hs: seq<Happening>)
    decreases |hs|
  {
    hs != [] && CanHappen(v, hs[0]) ==> !LateData(v, hs[0]) && NoLateData(Next(v, hs[0]), hs[1..])
  }

  /** The lifetimes are in order before and after every step. */
  ghost predicate AlwaysInOrder(v: Server, hs: seq<Happening>)
    decreases |hs|
  {
    ServerInv(v) && (hs != [] && CanHappen(v, hs[0]) ==> AlwaysInOrder(Next(v, hs[0]), hs[1..]))
  }

  lemma {:induction false} InOrderExactlyWhen(v: Server, hs: seq<Happening>)
    requires ServerInv(v)
    ensures AlwaysInOrder(v, hs) <==> NoLateData(v, hs)
    decreases |hs|
  {
    hide ServerInv, CanHappen, Next, LateData;
    if hs != [] && CanHappen(v, hs[0]) {
      LifetimesExactlyWhen(v, hs[0]);
      if ServerInv(Next(v, hs[0])) {
        InOrderExactlyWhen(Next(v, hs[0]), hs[1..]);
      }
    }
  }

  /** From the start of the daemon on, lifetimes are in order at every point of a run exactly if no late
      data is read in it. */
  lemma LifetimesOverRuns(hs: seq<Happening>)
    ensures AlwaysInOrder(IDLE, hs) <==> NoLateData(IDLE, hs)
  {
    InOrderExactlyWhen(IDLE, hs);
  }

  /** No session is inside its setup, but the flag is set: nobody will release it. */
  predicate Stuck(v: Server) {
    v.flag && forall s :: s in v.sessions ==> v.sessions[s].stage != Inside
  }

  /** Once stuck, always stuck: no session will ever be set up again. */
  lemma {:induction false} StuckForever(v: Server, hs: seq<Happening>)
    requires Stuck(v) && Run(v, hs).Some?
    ensures Stuck(Run(v, hs).value)
    decreases |hs|
  {
    if hs != [] {
      StuckForever(Next(v, hs[0]), hs[1..]);
    }
  }

  // Why late data matters

  const HELLO := Packet("app", [], true)
  const BROKEN := Packet([], [], false)

  const WAITING := Conn(WaitingSession, Some(0), true, "app", false, false)
  const PLAYING := WAITING.(phase := Playback)
  const OTHER := WAITING.(session := Some(1))
  const ENDED := PLAYING.(phase := Terminated, dying := true, inner := true)
  const LATE := ENDED.(phase := WaitingSession, session := Some(2))

  /** Two clients; the first is terminated, and sends data again, while the second is being set up. */
  const V1 := Server(map[1 := WAITING], map[0 := Owned(1, Scheduled)], false, 1)
  const V2 := Server(map[1 := WAITING], map[0 := Owned(1, Inside)], true, 1)
  const V3 := Server(map[1 := PLAYING], map[0 := Owned(1, Ready)], false, 1)
  const V4 := Server(map[1 := PLAYING, 2 := OTHER], map[0 := Owned(1, Ready), 1 := Owned(2, Scheduled)], false, 2)
  const V5 := Server(map[1 := PLAYING, 2 := OTHER], map[0 := Owned(1, Ready), 1 := Owned(2, Inside)], true, 2)
  const V6 := Server(map[1 := ENDED, 2 := OTHER], map[0 := Owned(1, Ready), 1 := Owned(2, Inside)], true, 2)
  const V7 := Server(map[1 := LATE, 2 := OTHER],
                     map[0 := Owned(1, Ready), 1 := Owned(2, Inside), 2 := Owned(1, Scheduled)], true, 3)
  const V8 := Server(map[1 := LATE, 2 := OTHER.(phase := Playback)],
                     map[0 := Owned(1, Ready), 1 := Owned(2, Ready), 2 := Owned(1, Scheduled)], false, 3)
  const V9 := Server(map[1 := LATE, 2 := OTHER.(phase := Playback)],
                     map[0 := Owned(1, Ready), 1 := Owned(2, Ready), 2 := Owned(1, Inside)], true, 3)
  const V10 := Server(map[2 := OTHER.(phase := Playback)], map[1 := Owned(2, Ready)], true, 3)

  function LateRun(): seq<Happening> {
    [Accept(1, [HELLO]), SetupTimer(0), SetupEnds(0), Accept(2, [HELLO]), SetupTimer(1),
     Data(1, [BROKEN]), Data(1, [HELLO]), SetupEnds(1), SetupTimer(2), Deleted(1)]
  }

  lemma TwoClients()
    ensures CanHappen(IDLE, Accept(1, [HELLO])) && Next(IDLE, Accept(1, [HELLO])) == V1
    ensures CanHappen(V1, SetupTimer(0)) && Next(V1, SetupTimer(0)) == V2
    ensures CanHappen(V2, SetupEnds(0)) && Next(V2, SetupEnds(0)) == V3
    ensures CanHappen(V3, Accept(2, [HELLO])) && Next(V3, Accept(2, [HELLO])) == V4
    ensures CanHappen(V4, SetupTimer(1)) && Next(V4, SetupTimer(1)) == V5
  {
    assert AnnouncedVersion(HELLO.text) == Some(1);
    assert V1.sessions[0 := Owned(1, Inside)] == V2.sessions;
    assert V2.sessions[0 := Owned(1, Ready)] == V3.sessions && V2.conns[1 := PLAYING] == V3.conns;
    assert V3.conns[2 := OTHER] == V4.conns && V3.sessions[1 := Owned(2, Scheduled)] == V4.sessions;
    assert V4.sessions[1 := Owned(2, Inside)] == V5.sessions;
  }

  lemma LateClient()
    ensures CanHappen(V5, Data(1, [BROKEN])) && Next(V5, Data(1, [BROKEN])) == V6
    ensures CanHappen(V6, Data(1, [HELLO])) && Next(V6, Data(1, [HELLO])) == V7
  {
    assert V5.sessions[1].stage == Inside && V6.sessions[1].stage == Inside;
    assert [BROKEN][1..] == [];
    assert Fetch(PLAYING, [BROKEN], true) == ENDED;
    assert V5.conns[1 := ENDED] == V6.conns;
    assert AnnouncedVersion(HELLO.text) == Some(1);
    assert V6.conns[1 := LATE] == V7.conns && V6.sessions[2 := Owned(1, Scheduled)] == V7.sessions;
  }

  lemma DeletedInside()
    ensures CanHappen(V7, SetupEnds(1)) && Next(V7, SetupEnds(1)) == V8
    ensures CanHappen(V8, SetupTimer(2)) && Next(V8, SetupTimer(2)) == V9
    ensures CanHappen(V9, Deleted(1)) && Next(V9, Deleted(1)) == V10
  {
    hide Handshake, ReadSocketData, Killed;
    assert V7.conns[2 := OTHER.(phase := Playback)] == V8.conns && V7.sessions[1 := Owned(2, Ready)] == V8.sessions;
    assert V8.sessions[2 := Owned(1, Inside)] == V9.sessions;
    assert V9.conns - {1} == V10.conns;
  }

  lemma RunStep(v: Server, hs: seq<Happening>, i: nat, v': Server)
    requires i < |hs| && CanHappen(v, hs[i]) && Next(v, hs[i]) == v'
    ensures Run(v, hs[i..]) == Run(v', hs[i + 1..])
  {
    assert hs[i..][1..] == hs[i + 1..];
  }

  /** A client that sends data after its connection was terminated can leave the flag set for ever: its
      second session is deleted, with the connection, in the middle of its setup. */
  lemma LateDataCanBlockAllSessions()
    ensures Run(IDLE, LateRun()).Some? && Stuck(Run(IDLE, LateRun()).value)
  {
    hide Next, CanHappen, Run;
    var hs := LateRun();
    TwoClientsRun();
    LateClient();
    DeletedInside();
    RunStep(V5, hs, 5, V6);
    RunStep(V6, hs, 6, V7);
    RunStep(V7, hs, 7, V8);
    RunStep(V8, hs, 8, V9);
    RunStep(V9, hs, 9, V10);
    assert hs[10..] == [];
    EmptyRun(V10);
  }

  lemma TwoClientsRun()
    ensures Run(IDLE, LateRun()) == Run(V5, LateRun()[5..])
  {
    hide Next, CanHappen, Run;
    var hs := LateRun();
    TwoClients();
    RunStep(IDLE, hs, 0, V1);
    RunStep(V1, hs, 1, V2);
    RunStep(V2, hs, 2, V3);
    RunStep(V3, hs, 3, V4);
    RunStep(V4, hs, 4, V5);
    assert hs[0..] == hs;
  }

  lemma EmptyRun(v: Server)
    ensures Run(v, []) == Some(v)
  {
  }
}
