/** What every operation on shared handles keeps: the cache, the reference counts, the weak pointers of
    all feedbacks and the calls made to the backends agree with one another. */
module HandleInvariants {
  import opened Text
  import opened Handles

  /** A feedback is known by its session and its name. */
  datatype Fb = Fb(session: nat, name: string)

  /** The handles together with the weak pointers of every feedback. */
  datatype World = World(store: Store, rows: map<Fb, Row>)

  /** The slots that hold a handle. */
  ghost function Holders(rows: map<Fb, Row>, id: Id): set<(Fb, nat)> {
    set f, b | f in rows && 0 <= b < |rows[f]| && rows[f][b] == Some(id) :: (f, b)
  }

  /** The backend data in use according to the calls made so far, with the backend that provided it;
      None once some call was wrong: data unloaded twice, unloaded without having been loaded or by
      another backend, or an identity loaded twice. */
  function Replay(calls: seq<BackendCall>): Option<map<Id, nat>> {
    if calls == [] then Some(map[])
    else
      match Replay(calls[..|calls| - 1])
      case None => None
      case Some(inUse) => Account(inUse, calls[|calls| - 1])
  }

  function Account(inUse: map<Id, nat>, call: BackendCall): Option<map<Id, nat>> {
    match call
    case LoadCall(b, id) => if id in inUse then None else Some(inUse[id := b])
    case UnloadCall(b, id) => if id in inUse && inUse[id] == b then Some(inUse - {id}) else None
  }

  function ReadyData(live: map<Id, Handle>): map<Id, nat> {
    map id | id in live && live[id].state == Ready :: live[id].backend
  }

  /** The cache maps the key of every live handle to that handle, and nothing else. */
  ghost predicate CacheInv(disk: Disk, st: Store) {
    && (forall key :: key in st.cache ==> st.cache[key] in st.live && HandleKey(disk, st.live[st.cache[key]]) == key)
    && (forall id :: id in st.live ==>
          HandleKey(disk, st.live[id]) in st.cache && st.cache[HandleKey(disk, st.live[id])] == id)
  }

  /** Identities are fresh, a live handle is what its backend makes of its directory, and the data
      the backends have handed out and not got back is that of the live Ready handles. */
  ghost predicate LiveInv(disk: Disk, st: Store) {
    && (forall id :: id in st.live ==> id < st.nextId)
    && (forall id :: id in st.live ==>
          st.live[id].state != Empty && st.live[id].state == Sample(disk, st.live[id].path, st.live[id].backend))
    && Replay(st.calls) == Some(ReadyData(st.live))
  }

  ghost predicate StoreInv(disk: Disk, st: Store) {
    CacheInv(disk, st) && LiveInv(disk, st)
  }

  /** Slots never hold an identity that is still to come, and hold a handle of their own backend. */
  ghost predicate SlotsInv(w: World) {
    forall f, b {:trigger w.rows[f][b]} :: f in w.rows && 0 <= b < |w.rows[f]| && w.rows[f][b].Some? ==>
      var id := w.rows[f][b].value;
      id < w.store.nextId && (id in w.store.live ==> w.store.live[id].backend == b)
  }

  /** Every count is the number of slots holding the handle, one more for the handle `extra`: a
      reference that is held, for the moment, outside the slots. No handle is without a reference. */
  ghost predicate CountsInv(w: World, extra: Option<Id>) {
    forall id :: id in w.store.live ==>
      w.store.live[id].refCnt == |Holders(w.rows, id)| + (if extra == Some(id) then 1 else 0) &&
      w.store.live[id].refCnt >= 1
  }

  /** The invariant between operations. */
  ghost predicate Inv(disk: Disk, w: World) {
    StoreInv(disk, w.store) && SlotsInv(w) && CountsInv(w, None)
  }

  /** What a slot shows: the directory and state of its handle, or nothing. */
  datatype Sound = Sound(path: string, state: HandleState)

  function View(st: Store, slot: Option<Id>): Option<Sound> {
    if Deref(st, slot).Some? then Some(Sound(st.live[slot.value].path, st.live[slot.value].state)) else None
  }

  /** Handles keep their path, state and backend as long as they live, and stay dead once they are dead. */
  ghost predicate SameSlot(st: Store, st': Store, slot: Option<Id>) {
    View(st, slot) == View(st', slot) && Deref(st, slot) == Deref(st', slot)
  }

  // Keys

  /** The key of a handle tells its backend, whatever the directories are. */
  lemma KeyTellsBackend(disk: Disk, path: string, b: nat, path': string, b': nat)
    requires Key(disk, path, b) == Key(disk, path', b')
    ensures b == b' && RemoveAll(path, disk.prefix) == RemoveAll(path', disk.prefix)
  {
    HexRoundTrip(b);
    HexRoundTrip(b');
    JoinInjective(RemoveAll(path, disk.prefix), Hex(b), RemoveAll(path', disk.prefix), Hex(b'), '#');
  }

  // Counting references

  lemma HoldersAfterMove(rows: map<Fb, Row>, f: Fb, b: nat, slot: Option<Id>, id: Id)
    requires f in rows && b < |rows[f]|
    ensures Holders(rows[f := rows[f][b := slot]], id) ==
            Holders(rows, id) - {(f, b)} + (if slot == Some(id) then {(f, b)} else {})
  {
    var rows' := rows[f := rows[f][b := slot]];
    forall g, c
      ensures (g, c) in Holders(rows', id) <==>
              (g, c) in Holders(rows, id) - {(f, b)} + (if slot == Some(id) then {(f, b)} else {})
    {
    }
  }

  /** Writing a slot gives the outside reference to the slot, and makes the old content the outside one. */
  lemma MoveReference(w: World, f: Fb, b: nat, slot: Option<Id>)
    requires f in w.rows && b < |w.rows[f]| && CountsInv(w, slot)
    ensures CountsInv(World(w.store, w.rows[f := w.rows[f][b := slot]]), w.rows[f][b])
  {
    var rows' := w.rows[f := w.rows[f][b := slot]];
    forall id | id in w.store.live
      ensures w.store.live[id].refCnt == |Holders(rows', id)| + (if w.rows[f][b] == Some(id) then 1 else 0)
    {
      HoldersAfterMove(w.rows, f, b, slot, id);
      var before := Holders(w.rows, id);
      assert (f, b) in before <==> w.rows[f][b] == Some(id);
      assert |before - {(f, b)}| == |before| - (if (f, b) in before then 1 else 0);
    }
  }

  // The calls made to the backends

  lemma ReplaySnoc(calls: seq<BackendCall>, call: BackendCall)
    requires Replay(calls).Some?
    ensures Replay(calls + [call]) == Account(Replay(calls).value, call)
  {
    assert (calls + [call])[..|calls|] == calls;
  }

  /** Deleting a handle returns its data, if it has any. */
  lemma DeleteKeepsLedger(st: Store, id: Id)
    requires id in st.live && Replay(st.calls) == Some(ReadyData(st.live))
    ensures Replay(Delete(st, id).calls) == Some(ReadyData(Delete(st, id).live))
  {
    var h := st.live[id];
    var live' := st.live - {id};
    assert ReadyData(live') == ReadyData(st.live) - {id};
    if h.state == Ready {
      ReplaySnoc(st.calls, UnloadCall(h.backend, id));
    } else {
      assert ReadyData(live') == ReadyData(st.live);
    }
  }

  lemma UnloadKeepsLedger(st: Store, id: Id)
    requires id in st.live && Replay(st.calls) == Some(ReadyData(st.live))
    ensures Replay(Unload(st, id).calls) == Some(ReadyData(Unload(st, id).live))
  {
    hide Replay;
    var h, live' := st.live[id], Unload(st, id).live;
    assert ReadyData(live') == ReadyData(st.live) - {id};
    if h.state == Ready {
      ReplaySnoc(st.calls, UnloadCall(h.backend, id));
    } else {
      assert ReadyData(live') == ReadyData(st.live);
    }
  }

  lemma FillKeepsLedger(st: Store, id: Id, h: Handle)
    requires id in st.live && st.live[id].state != Ready && Replay(st.calls) == Some(ReadyData(st.live))
    ensures var live' := st.live[id := h];
            Replay(if h.state == Ready then st.calls + [LoadCall(h.backend, id)] else st.calls) ==
              Some(ReadyData(live'))
  {
    var live' := st.live[id := h];
    if h.state == Ready {
      assert ReadyData(live') == ReadyData(st.live)[id := h.backend];
      ReplaySnoc(st.calls, LoadCall(h.backend, id));
    } else {
      assert ReadyData(live') == ReadyData(st.live);
    }
  }

  /** A handle may be loaded again, whatever it holds: what it held is returned once, before the new data
      is taken, even when another backend loads it. */
  lemma LoadIntoKeepsLedger(disk: Disk, up: set<nat>, st: Store, id: Id, path: string, b: nat)
    requires id in st.live && Replay(st.calls) == Some(ReadyData(st.live))
    ensures var st' := LoadInto(disk, up, st, id, path, b);
            Replay(st'.calls) == Some(ReadyData(st'.live)) && st'.live.Keys == st.live.Keys
  {
    hide Probe, Replay, ReadyData;
    UnloadKeepsLedger(st, id);
    var st1 := if st.live[id].state == Ready then Unload(st, id) else st;
    FillKeepsLedger(st1, id, Handle(path, b, st1.live[id].refCnt, Probe(disk, up, path, b)));
  }

  lemma SameData(live: map<Id, Handle>, live': map<Id, Handle>)
    requires live.Keys == live'.Keys
    requires forall id :: id in live ==> live[id].state == live'[id].state && live[id].backend == live'[id].backend
    ensures ReadyData(live) == ReadyData(live')
  {
  }

  // Taking a reference

  /** Attaching keeps everything but the count. */
  lemma AttachKeeps(disk: Disk, st: Store, id: Id)
    requires StoreInv(disk, st) && id in st.live
    ensures StoreInv(disk, Attach(st, id))
  {
    hide RemoveAll, Hex, Replay, ReadyData;
    SameData(st.live, Attach(st, id).live);
  }

  /** The handle a load leaves behind: one more reference to a live handle, or a new handle. */
  ghost predicate TookReference(disk: Disk, st: Store, st': Store, id: Id, b: nat) {
    && id in st'.live && id < st'.nextId && st.nextId <= st'.nextId && st'.live[id].backend == b
    && if id in st.live
       then st' == Attach(st, id).(nextId := st'.nextId)
       else id >= st.nextId && st'.live == st.live[id := st'.live[id]] &&
            st'.live[id].refCnt == 1 &&
            st'.cache == st.cache[HandleKey(disk, st'.live[id]) := id] &&
            HandleKey(disk, st'.live[id]) !in st.cache
  }

  /** A new handle that loaded data accounts for the call that provided it. */
  lemma CreateKeepsLedger(st: Store, path: string, b: nat, state: HandleState)
    requires Replay(st.calls) == Some(ReadyData(st.live)) && forall id :: id in st.live ==> id < st.nextId
    ensures Replay(Create(st, path, b, state).calls) == Some(ReadyData(Create(st, path, b, state).live))
  {
    var live' := Create(st, path, b, state).live;
    if state == Ready {
      ReplaySnoc(st.calls, LoadCall(b, st.nextId));
      assert ReadyData(live') == ReadyData(st.live)[st.nextId := b];
    } else {
      assert ReadyData(live') == ReadyData(st.live);
    }
  }

  lemma CreateKeeps(disk: Disk, st: Store, path: string, b: nat, state: HandleState)
    requires StoreInv(disk, st) && SearchFromCache(disk, st, path, b).None?
    requires state != Empty && state == Sample(disk, path, b)
    ensures StoreInv(disk, AddToCache(disk, Create(st, path, b, state), st.nextId))
  {
    hide RemoveAll, Hex, Replay, ReadyData;
    CreateKeepsLedger(st, path, b, state);
    assert Key(disk, path, b) !in st.cache;
  }

  lemma CreateTakesReference(disk: Disk, st: Store, path: string, b: nat, state: HandleState)
    requires st.nextId !in st.live && Key(disk, path, b) !in st.cache
    ensures TookReference(disk, st, Attach(AddToCache(disk, Create(st, path, b, state), st.nextId), st.nextId),
            st.nextId, b)
  {
    hide RemoveAll, Hex;
    var id := st.nextId;
    var st1 := AddToCache(disk, Create(st, path, b, state), id);
    var st2 := Attach(st1, id);
    assert st2.live == st.live[id := st2.live[id]];
  }

  lemma LoadHandleKeeps(disk: Disk, up: set<nat>, st: Store, path: string, b: nat)
    requires StoreInv(disk, st)
    ensures var r := LoadHandle(disk, up, st, path, b);
            StoreInv(disk, r.0) &&
            (r.1.None? ==> r.0 == st.(nextId := st.nextId + 1)) &&
            (r.1.Some? ==> TookReference(disk, st, r.0, r.1.value, b))
  {
    hide RemoveAll, Hex, Replay, ReadyData;
    match SearchFromCache(disk, st, path, b)
    case Some(id) =>
      KeyTellsBackend(disk, path, b, st.live[id].path, st.live[id].backend);
      AttachKeeps(disk, st, id);
    case None =>
      var state := Probe(disk, up, path, b);
      if state != Empty {
        CreateKeeps(disk, st, path, b, state);
        CreateTakesReference(disk, st, path, b, state);
        AttachKeeps(disk, AddToCache(disk, Create(st, path, b, state), st.nextId), st.nextId);
      }
  }

  lemma {:induction false} FirstLoadKeeps(disk: Disk, up: set<nat>, st: Store, dirs: seq<string>, b: nat)
    requires StoreInv(disk, st)
    ensures var r := FirstLoad(disk, up, st, dirs, b);
            StoreInv(disk, r.0) &&
            (r.1.None? ==> r.0 == st.(nextId := r.0.nextId) && r.0.nextId >= st.nextId) &&
            (r.1.Some? ==> TookReference(disk, st, r.0, r.1.value, b))
    decreases |dirs|
  {
    hide RemoveAll, Hex, Replay, ReadyData, Key, LoadHandle, CacheInv, LiveInv;
    if dirs != [] {
      LoadHandleKeeps(disk, up, st, dirs[0], b);
      var r := LoadHandle(disk, up, st, dirs[0], b);
      if r.1.None? {
        FirstLoadKeeps(disk, up, r.0, dirs[1..], b);
      }
    }
  }

  // Dropping a reference

  /** A handle and its cache entry go together. */
  lemma RemovalKeepsCache(disk: Disk, st: Store, st': Store, id: Id)
    requires CacheInv(disk, st) && id in st.live
    requires st'.live == st.live - {id} && st'.cache == st.cache - {HandleKey(disk, st.live[id])}
    ensures CacheInv(disk, st')
  {
    hide HandleKey;
  }

  /** Dropping the last reference takes the handle out of the cache and out of life together. */
  lemma LastReleaseKeepsStore(disk: Disk, st: Store, id: Id)
    requires StoreInv(disk, st) && id in st.live && st.live[id].refCnt <= 1
    ensures StoreInv(disk, Release(disk, st, id))
    ensures Release(disk, st, id).live == st.live - {id}
  {
    hide Replay, ReadyData, HandleKey, CacheInv;
    var h := st.live[id];
    var lower := st.live[id := h.(refCnt := h.refCnt - 1)];
    SameData(st.live, lower);
    var st1 := RemoveFromCache(disk, st, id).(live := lower);
    DeleteKeepsLedger(st1, id);
    assert Release(disk, st, id) == Delete(st1, id);
    assert lower - {id} == st.live - {id};
    RemovalKeepsCache(disk, st, Release(disk, st, id), id);
  }

  lemma EarlierReleaseKeepsStore(disk: Disk, st: Store, id: Id)
    requires StoreInv(disk, st) && id in st.live && st.live[id].refCnt > 1
    ensures StoreInv(disk, Release(disk, st, id))
    ensures Release(disk, st, id) == st.(live := st.live[id := st.live[id].(refCnt := st.live[id].refCnt - 1)])
  {
    hide RemoveAll, Hex, Replay, ReadyData, Key;
    SameData(st.live, Release(disk, st, id).live);
  }

  lemma ReleaseKeeps(disk: Disk, w: World, id: Id)
    requires StoreInv(disk, w.store) && SlotsInv(w) && id in w.store.live && CountsInv(w, Some(id))
    ensures var st' := Release(disk, w.store, id);
            Inv(disk, World(st', w.rows)) && st'.nextId == w.store.nextId &&
            forall f, b {:trigger w.rows[f][b]} :: f in w.rows && 0 <= b < |w.rows[f]| ==>
              SameSlot(w.store, st', w.rows[f][b])
  {
    hide StoreInv, CacheInv, LiveInv, HandleKey;
    if w.store.live[id].refCnt > 1 {
      EarlierReleaseKeepsStore(disk, w.store, id);
    } else {
      LastReleaseKeepsStore(disk, w.store, id);
      assert Holders(w.rows, id) == {};
      forall f, b | f in w.rows && 0 <= b < |w.rows[f]| ensures w.rows[f][b] != Some(id) {
        assert (f, b) !in Holders(w.rows, id);
      }
    }
  }

  // Loading one backend's slot

  ghost predicate OthersSame(w: World, st': Store, f: Fb, b: nat) {
    forall g, c {:trigger w.rows[g][c]} :: g in w.rows && 0 <= c < |w.rows[g]| && (g, c) != (f, b) ==>
      SameSlot(w.store, st', w.rows[g][c])
  }

  function WithSlot(w: World, st: Store, f: Fb, b: nat, slot: Option<Id>): World
    requires f in w.rows && b < |w.rows[f]|
  {
    World(st, w.rows[f := w.rows[f][b := slot]])
  }

  /** Taking a reference disturbs no slot: what it creates is new, what it shares only counts one more. */
  lemma TakingKeepsSlots(disk: Disk, w: World, st': Store, id: Id, b: nat)
    requires SlotsInv(w) && CountsInv(w, None) && TookReference(disk, w.store, st', id, b)
    ensures SlotsInv(World(st', w.rows)) && CountsInv(World(st', w.rows), Some(id))
    ensures forall f, c {:trigger w.rows[f][c]} :: f in w.rows && 0 <= c < |w.rows[f]| ==>
            SameSlot(w.store, st', w.rows[f][c])
  {
    hide HandleKey;
    if id !in w.store.live {
      forall f, c | f in w.rows && 0 <= c < |w.rows[f]| ensures w.rows[f][c] != Some(id) {
      }
      assert Holders(w.rows, id) == {};
    }
  }

  lemma WritingKeepsSlots(w: World, f: Fb, b: nat, slot: Option<Id>)
    requires SlotsInv(w) && f in w.rows && b < |w.rows[f]|
    requires slot.Some? ==>
               slot.value < w.store.nextId && slot.value in w.store.live && w.store.live[slot.value].backend == b
    ensures SlotsInv(WithSlot(w, w.store, f, b, slot))
  {
    var rows' := w.rows[f := w.rows[f][b := slot]];
    forall g, c | g in rows' && 0 <= c < |rows'[g]| && (g, c) != (f, b)
      ensures rows'[g][c] == w.rows[g][c]
    {
    }
  }

  /** The body of the loop in MfFeedback::load keeps the invariant, touches no other slot, and leaves in
      this slot what the scan found. */
  lemma SwapSlotKeeps(disk: Disk, up: set<nat>, w: World, f: Fb, b: nat, dirs: seq<string>)
    requires Inv(disk, w) && f in w.rows && b < |w.rows[f]|
    ensures var r := SwapSlot(disk, up, w.store, w.rows[f][b], dirs, b);
            var found := FirstLoad(disk, up, w.store, dirs, b);
            Inv(disk, WithSlot(w, r.0, f, b, r.1)) && OthersSame(w, r.0, f, b) &&
            r.1 == found.1 && SameSlot(found.0, r.0, r.1) && Deref(r.0, r.1) == r.1
  {
    hide CacheInv, LiveInv, HandleKey, FirstLoad, Release, Holders;
    FirstLoadKeeps(disk, up, w.store, dirs, b);
    var found := FirstLoad(disk, up, w.store, dirs, b);
    var w1 := World(found.0, w.rows);
    if found.1.Some? {
      TakingKeepsSlots(disk, w, found.0, found.1.value, b);
    }
    MoveReference(w1, f, b, found.1);
    WritingKeepsSlots(w1, f, b, found.1);
    var w2 := WithSlot(w, found.0, f, b, found.1);
    var previous := w.rows[f][b];
    assert SameSlot(w.store, found.0, previous);
    forall g, c | g in w2.rows && 0 <= c < |w2.rows[g]| && (g, c) != (f, b)
      ensures w2.rows[g][c] == w.rows[g][c]
    {
    }
    if Deref(w.store, previous).Some? {
      ReleaseKeeps(disk, w2, previous.value);
      assert w2.rows[f][b] == found.1;
    }
  }

  // What a load finds

  /** The first directory of the list that the backend accepts, without any cache. */
  function Scan(disk: Disk, dirs: seq<string>, b: nat): Option<Sound> {
    if dirs == [] then None
    else if Sample(disk, dirs[0], b) != Empty then Some(Sound(dirs[0], Sample(disk, dirs[0], b)))
    else Scan(disk, dirs[1..], b)
  }

  /** The directory exists, and the backend has something for it: data, or silence on purpose. */
  predicate Takes(disk: Disk, dir: string, b: nat) {
    dir in disk.dirs && (b, dir) in disk.samples && disk.samples[(b, dir)] != Empty
  }

  /** The backend takes this directory and none before it. */
  predicate TakesFirst(disk: Disk, dirs: seq<string>, b: nat, i: int) {
    0 <= i < |dirs| && Takes(disk, dirs[i], b) && forall j :: 0 <= j < i ==> !Takes(disk, dirs[j], b)
  }

  /** The scan finds the first directory that the backend takes, with what it has for it, and nothing
      exactly when it takes none. */
  lemma {:induction false} ScanFindsFirst(disk: Disk, dirs: seq<string>, b: nat)
    ensures Scan(disk, dirs, b) == None <==> forall i :: 0 <= i < |dirs| ==> !Takes(disk, dirs[i], b)
    ensures forall i :: TakesFirst(disk, dirs, b, i) ==>
              Scan(disk, dirs, b) == Some(Sound(dirs[i], disk.samples[(b, dirs[i])]))
  {
    if dirs != [] && !Takes(disk, dirs[0], b) {
      var rest := dirs[1..];
      ScanFindsFirst(disk, rest, b);
      assert forall i :: 0 < i < |dirs| ==> dirs[i] == rest[i - 1];
      forall i | TakesFirst(disk, dirs, b, i)
        ensures Scan(disk, dirs, b) == Some(Sound(dirs[i], disk.samples[(b, dirs[i])]))
      {
        assert forall j :: 0 <= j < i - 1 ==> rest[j] == dirs[j + 1];
        assert i > 0 && TakesFirst(disk, rest, b, i - 1);
      }
    }
  }

  lemma {:induction false} FirstTaken(disk: Disk, dirs: seq<string>, b: nat, k: nat) returns (i: nat)
    requires k < |dirs| && Takes(disk, dirs[k], b)
    ensures TakesFirst(disk, dirs, b, i)
  {
    if j :| 0 <= j < k && Takes(disk, dirs[j], b) {
      i := FirstTaken(disk, dirs, b, j);
    } else {
      i := k;
    }
  }

  /** The slot holds a live handle of the first directory of the list that the backend takes, in the
      state of what it has for it; and no live handle if it takes none. */
  ghost predicate Plays(disk: Disk, st: Store, slot: Option<Id>, dirs: seq<string>, b: nat) {
    && (forall i :: TakesFirst(disk, dirs, b, i) ==>
          slot.Some? && slot.value in st.live && st.live[slot.value].path == dirs[i] &&
          st.live[slot.value].state == disk.samples[(b, dirs[i])])
    && ((forall i :: 0 <= i < |dirs| ==> !Takes(disk, dirs[i], b)) ==> slot.None? || slot.value !in st.live)
  }

  lemma PlaysWhatTheScanFinds(disk: Disk, st: Store, slot: Option<Id>, dirs: seq<string>, b: nat)
    ensures Plays(disk, st, slot, dirs, b) <==> View(st, slot) == Scan(disk, dirs, b)
  {
    hide Scan, Takes;
    ScanFindsFirst(disk, dirs, b);
    if k :| 0 <= k < |dirs| && Takes(disk, dirs[k], b) {
      var i := FirstTaken(disk, dirs, b, k);
    }
  }

  // Wanted directories

  /** Backends with a directory that the scan of some list gives for them. */
  type Wishes = iset<(nat, string)>

  /** Every live handle is of a wanted directory. */
  ghost predicate WantedStore(wanted: Wishes, st: Store) {
    forall id :: id in st.live ==> (st.live[id].backend, st.live[id].path) in wanted
  }

  /** What the scan of the list gives for the backend is wanted. */
  ghost predicate WantedList(disk: Disk, wanted: Wishes, dirs: seq<string>, b: nat) {
    Scan(disk, dirs, b).Some? ==> (b, Scan(disk, dirs, b).value.path) in wanted
  }

  /** The scan looks at this directory: the backend accepts none before it. */
  predicate Searched(disk: Disk, dirs: seq<string>, b: nat, k: nat) {
    k < |dirs| && forall j :: 0 <= j < k ==> Sample(disk, dirs[j], b) == Empty
  }

  predicate Gives(disk: Disk, dirs: seq<string>, b: nat, path: string) {
    Scan(disk, dirs, b).Some? && Scan(disk, dirs, b).value.path == path
  }

  /** No directory searched for the list has the key of a wanted one, unless the scan of the list gives
      that one anyway. */
  ghost predicate Apart(disk: Disk, wanted: Wishes, dirs: seq<string>, b: nat) {
    forall k: nat, path ::
      Searched(disk, dirs, b, k) && (b, path) in wanted && Key(disk, dirs[k], b) == Key(disk, path, b) ==>
      Gives(disk, dirs, b, path)
  }

  lemma ApartFromFewer(disk: Disk, wanted: Wishes, wanted': Wishes, dirs: seq<string>, b: nat)
    requires wanted <= wanted' && Apart(disk, wanted', dirs, b)
    ensures Apart(disk, wanted, dirs, b)
  {
    hide Key, Searched, Gives;
  }

  ghost predicate WantedDirs(disk: Disk, wanted: Wishes, up: set<nat>, dirs: seq<string>) {
    forall b :: b in up ==> WantedList(disk, wanted, dirs, b)
  }

  ghost predicate ApartDirs(disk: Disk, wanted: Wishes, up: set<nat>, dirs: seq<string>) {
    forall b :: b in up ==> Apart(disk, wanted, dirs, b)
  }

  /** The key of a handle determines its directory and backend, for directories that contain the theme
      prefix once. */
  lemma KeyInjective(disk: Disk, path: string, b: nat, path': string, b': nat)
    requires CleanPath(disk.prefix, path) && CleanPath(disk.prefix, path')
    ensures Key(disk, path, b) == Key(disk, path', b') <==> path == path' && b == b'
  {
    if Key(disk, path, b) == Key(disk, path', b') {
      KeyTellsBackend(disk, path, b, path', b');
      CleanPathsDiffer(disk.prefix, path, path');
    }
  }

  lemma ApartTail(disk: Disk, wanted: Wishes, dirs: seq<string>, b: nat)
    requires dirs != [] && Sample(disk, dirs[0], b) == Empty
    ensures WantedList(disk, wanted, dirs, b) ==> WantedList(disk, wanted, dirs[1..], b)
    ensures Apart(disk, wanted, dirs, b) ==> Apart(disk, wanted, dirs[1..], b)
  {
    hide Key, Sample;
    forall k: nat | Searched(disk, dirs[1..], b, k)
      ensures Searched(disk, dirs, b, k + 1) && dirs[1..][k] == dirs[k + 1]
    {
      forall j | 0 <= j < k + 1 ensures Sample(disk, dirs[j], b) == Empty {
        assert j > 0 ==> dirs[1..][j - 1] == dirs[j];
      }
    }
  }

  /** On a cache hit the handle is of a wanted directory with the key of the one that was searched. */
  lemma HitIsGiven(disk: Disk, wanted: Wishes, st: Store, dirs: seq<string>, b: nat)
    requires StoreInv(disk, st) && WantedStore(wanted, st) && Apart(disk, wanted, dirs, b) && dirs != []
    requires SearchFromCache(disk, st, dirs[0], b).Some?
    ensures View(st, SearchFromCache(disk, st, dirs[0], b)) == Scan(disk, dirs, b)
  {
    hide RemoveAll, Hex, Replay, ReadyData, Key, Sample;
    var id := SearchFromCache(disk, st, dirs[0], b).value;
    var h := st.live[id];
    KeyTellsBackend(disk, dirs[0], b, h.path, h.backend);
    assert Searched(disk, dirs, b, 0);
    assert Gives(disk, dirs, b, h.path);
    ScanIsSample(disk, dirs, b);
  }

  lemma {:induction false} ScanIsSample(disk: Disk, dirs: seq<string>, b: nat)
    ensures Scan(disk, dirs, b).Some? ==>
              var s := Scan(disk, dirs, b).value; s.state != Empty && s.state == Sample(disk, s.path, b)
  {
    hide Sample;
    if dirs != [] {
      ScanIsSample(disk, dirs[1..], b);
    }
  }

  lemma MissGivesHead(disk: Disk, up: set<nat>, wanted: Wishes, st: Store, dirs: seq<string>, b: nat)
    requires StoreInv(disk, st) && WantedStore(wanted, st) && dirs != []
    requires b in up ==> WantedList(disk, wanted, dirs, b)
    requires SearchFromCache(disk, st, dirs[0], b).None?
    ensures var r := LoadHandle(disk, up, st, dirs[0], b);
            WantedStore(wanted, r.0) && (r.1.None? && b in up ==> Sample(disk, dirs[0], b) == Empty) &&
            (r.1.Some? ==> b in up && View(r.0, r.1) == Scan(disk, dirs, b))
  {
    hide RemoveAll, Hex, Replay, ReadyData, Key;
  }

  /** Cache transparency: on a Connected backend a load finds what a scan without a cache would find,
      whatever wanted directories were loaded or released before, if their keys are apart. */
  lemma {:induction false} FirstLoadScans(disk: Disk, wanted: Wishes, up: set<nat>, st: Store, dirs: seq<string>,
                                          b: nat)
    requires StoreInv(disk, st) && WantedStore(wanted, st) && (b in up ==> WantedList(disk, wanted, dirs, b))
    ensures var r := FirstLoad(disk, up, st, dirs, b);
            WantedStore(wanted, r.0) &&
            (b in up && Apart(disk, wanted, dirs, b) ==> View(r.0, r.1) == Scan(disk, dirs, b))
    decreases |dirs|
  {
    hide CacheInv, LiveInv, Sample, Apart, WantedList, Key;
    if dirs != [] {
      var r := LoadHandle(disk, up, st, dirs[0], b);
      LoadHandleKeeps(disk, up, st, dirs[0], b);
      if SearchFromCache(disk, st, dirs[0], b).Some? {
        if Apart(disk, wanted, dirs, b) {
          HitIsGiven(disk, wanted, st, dirs, b);
        }
      } else {
        MissGivesHead(disk, up, wanted, st, dirs, b);
        if r.1.None? {
          if b in up {
            ApartTail(disk, wanted, dirs, b);
          }
          FirstLoadScans(disk, wanted, up, r.0, dirs[1..], b);
        }
      }
    }
  }

  lemma SampledIsTaken(disk: Disk, dirs: seq<string>, b: nat, k: nat)
    requires Searched(disk, dirs, b, k) && Sample(disk, dirs[k], b) != Empty
    ensures TakesFirst(disk, dirs, b, k)
  {
  }

  /** Directories that contain the theme prefix once have keys of their own. */
  lemma CleanDirsAreApart(disk: Disk, wanted: Wishes, dirs: seq<string>, b: nat)
    requires forall path :: (b, path) in wanted ==> CleanPath(disk.prefix, path) && Sample(disk, path, b) != Empty
    requires forall k :: 0 <= k < |dirs| ==> CleanPath(disk.prefix, dirs[k])
    ensures Apart(disk, wanted, dirs, b)
  {
    hide Sample, Key, CleanPath;
    forall k: nat, path |
      Searched(disk, dirs, b, k) && (b, path) in wanted && Key(disk, dirs[k], b) == Key(disk, path, b)
      ensures Gives(disk, dirs, b, path)
    {
      KeyInjective(disk, dirs[k], b, path, b);
      ScanFindsFirst(disk, dirs, b);
      SampledIsTaken(disk, dirs, b, k);
    }
  }

  // Whole feedbacks

  ghost predicate OtherFeedbacksSame(w: World, st': Store, f: Fb) {
    forall g, c {:trigger w.rows[g][c]} :: g in w.rows && g != f && 0 <= c < |w.rows[g]| ==>
      SameSlot(w.store, st', w.rows[g][c])
  }

  function WithRow(w: World, r: (Store, Row), f: Fb): World {
    World(r.0, w.rows[f := r.1])
  }

  predicate SamePlace(h: Handle, h': Handle) {
    h.path == h'.path && h.backend == h'.backend
  }

  /** Handles have only gone. */
  ghost predicate OnlyFewer(st: Store, st': Store) {
    forall id :: id in st'.live ==> id in st.live && SamePlace(st.live[id], st'.live[id])
  }

  lemma ReleaseOnlyTakes(disk: Disk, st: Store, slot: Option<Id>)
    ensures OnlyFewer(st, ReleaseSlot(disk, st, slot))
  {
  }

  /** Loading keeps the invariant and every other feedback's slots; on Connected backends the slots
      from `b` on then show what the scan of the list finds. */
  lemma {:induction false} LoadRowKeeps(disk: Disk, wanted: Wishes, up: set<nat>, w: World, f: Fb, dirs: seq<string>,
                                        b: nat)
    requires Inv(disk, w) && f in w.rows && b <= |w.rows[f]|
    ensures var r := LoadRow(disk, up, w.store, w.rows[f], dirs, b);
            Inv(disk, WithRow(w, r, f)) && OtherFeedbacksSame(w, r.0, f) &&
            (forall c :: 0 <= c < b ==> r.1[c] == w.rows[f][c] && SameSlot(w.store, r.0, r.1[c])) &&
            (forall c :: b <= c < |r.1| ==> Deref(r.0, r.1[c]) == r.1[c]) &&
            (WantedStore(wanted, w.store) && WantedDirs(disk, wanted, up, dirs) ==>
              WantedStore(wanted, r.0) &&
              (ApartDirs(disk, wanted, up, dirs) ==>
                forall c :: b <= c < |r.1| && c in up ==> View(r.0, r.1[c]) == Scan(disk, dirs, c)))
    decreases |w.rows[f]| - b
  {
    hide Inv, WantedStore, SwapSlot, FirstLoad, Deref, View, Scan, WantedDirs, ApartDirs;
    if b == |w.rows[f]| {
      assert w.rows[f := w.rows[f]] == w.rows;
    } else {
      var step := SwapSlot(disk, up, w.store, w.rows[f][b], dirs, b);
      var w1 := WithSlot(w, step.0, f, b, step.1);
      SwapSlotKeeps(disk, up, w, f, b, dirs);
      SwapSlotScans(disk, wanted, up, w, f, b, dirs);
      LoadRowKeeps(disk, wanted, up, w1, f, dirs, b + 1);
      var r := LoadRow(disk, up, w.store, w.rows[f], dirs, b);
      assert WithRow(w, r, f) == WithRow(w1, r, f);
      forall g, c | g in w.rows && g != f && 0 <= c < |w.rows[g]| ensures SameSlot(w.store, r.0, w.rows[g][c]) {
        assert w1.rows[g][c] == w.rows[g][c];
      }
      forall c | 0 <= c < b ensures r.1[c] == w.rows[f][c] && SameSlot(w.store, r.0, r.1[c]) {
        assert w1.rows[f][c] == w.rows[f][c];
      }
    }
  }

  lemma SwapSlotScans(disk: Disk, wanted: Wishes, up: set<nat>, w: World, f: Fb, b: nat, dirs: seq<string>)
    requires Inv(disk, w) && f in w.rows && b < |w.rows[f]|
    ensures var r := SwapSlot(disk, up, w.store, w.rows[f][b], dirs, b);
            WantedStore(wanted, w.store) && WantedDirs(disk, wanted, up, dirs) ==>
              WantedStore(wanted, r.0) &&
              (b in up && ApartDirs(disk, wanted, up, dirs) ==> View(r.0, r.1) == Scan(disk, dirs, b))
  {
    hide StoreInv, SlotsInv, CountsInv, FirstLoad, Scan, ReleaseSlot, Apart, WantedList;
    SwapSlotKeeps(disk, up, w, f, b, dirs);
    if WantedStore(wanted, w.store) && WantedDirs(disk, wanted, up, dirs) {
      FirstLoadScans(disk, wanted, up, w.store, dirs, b);
      ReleaseOnlyTakes(disk, FirstLoad(disk, up, w.store, dirs, b).0, Deref(w.store, w.rows[f][b]));
    }
  }

  /** MfFeedback::load as a whole. */
  lemma LoadFeedbackKeeps(disk: Disk, wanted: Wishes, up: set<nat>, w: World, f: Fb, dirs: seq<string>)
    requires Inv(disk, w) && f in w.rows
    ensures var r := LoadFeedback(disk, up, w.store, w.rows[f], dirs);
            Inv(disk, WithRow(w, r, f)) && OtherFeedbacksSame(w, r.0, f) &&
            (WantedStore(wanted, w.store) && WantedDirs(disk, wanted, up, dirs) ==>
              WantedStore(wanted, r.0) &&
              (dirs != [] && ApartDirs(disk, wanted, up, dirs) ==>
                forall c :: 0 <= c < |r.1| && c in up ==> View(r.0, r.1[c]) == Scan(disk, dirs, c)))
  {
    hide Inv, WantedStore, View, Scan, WantedDirs, ApartDirs, Deref;
    if dirs == [] {
      assert w.rows[f := w.rows[f]] == w.rows;
    } else {
      LoadRowKeeps(disk, wanted, up, w, f, dirs, 0);
    }
  }

  /** What a load leaves, without the cache and the scan: on a Connected backend whose keys are apart, the
      slot holds the first directory of the list that the backend takes, or nothing. */
  lemma LoadedFeedbackPlays(disk: Disk, wanted: Wishes, up: set<nat>, w: World, f: Fb, dirs: seq<string>, b: nat)
    requires Inv(disk, w) && f in w.rows && b < |w.rows[f]| && b in up && dirs != []
    requires WantedStore(wanted, w.store) && WantedDirs(disk, wanted, up, dirs) && ApartDirs(disk, wanted, up, dirs)
    ensures var r := LoadFeedback(disk, up, w.store, w.rows[f], dirs);
            Plays(disk, r.0, r.1[b], dirs, b)
  {
    hide Inv, WantedStore, WantedDirs, ApartDirs, Plays, View, Scan, LoadFeedback;
    LoadFeedbackKeeps(disk, wanted, up, w, f, dirs);
    var r := LoadFeedback(disk, up, w.store, w.rows[f], dirs);
    PlaysWhatTheScanFinds(disk, r.0, r.1[b], dirs, b);
  }

  // Reloading the same list

  /** Loading the list finds the handle that the slot holds. */
  ghost predicate Finds(disk: Disk, up: set<nat>, st: Store, dirs: seq<string>, b: nat, slot: Option<Id>) {
    && FirstLoad(disk, up, st, dirs, b).1 == slot && Deref(st, slot) == slot
    && (slot.Some? ==> st.live[slot.value].backend == b && st.live[slot.value].refCnt >= 1)
  }

  /** A load finds the same handle again as long as that lives and its backend has got no other handle. */
  lemma {:induction false} FirstLoadAgain(disk: Disk, up: set<nat>, st: Store, st': Store, dirs: seq<string>, b: nat)
    requires StoreInv(disk, st) && StoreInv(disk, st')
    requires var r := FirstLoad(disk, up, st, dirs, b);
             (r.1.Some? ==> r.1.value in st'.live && SamePlace(r.0.live[r.1.value], st'.live[r.1.value])) &&
             forall id :: id in st'.live && st'.live[id].backend == b && Some(id) != r.1 ==>
               id in st.live && SamePlace(st.live[id], st'.live[id])
    ensures FirstLoad(disk, up, st', dirs, b).1 == FirstLoad(disk, up, st, dirs, b).1
    decreases |dirs|
  {
    hide RemoveAll, Hex, Replay, ReadyData, Key, Sample;
    if dirs != [] {
      LoadHandleKeeps(disk, up, st, dirs[0], b);
      LoadHandleKeeps(disk, up, st', dirs[0], b);
      var r, r' := LoadHandle(disk, up, st, dirs[0], b), LoadHandle(disk, up, st', dirs[0], b);
      HeadAgain(disk, up, st, st', dirs, b);
      if r.1.None? && r'.1.None? {
        FirstLoadAgain(disk, up, r.0, r'.0, dirs[1..], b);
      }
    }
  }

  lemma HeadAgain(disk: Disk, up: set<nat>, st: Store, st': Store, dirs: seq<string>, b: nat)
    requires StoreInv(disk, st) && StoreInv(disk, st') && dirs != []
    requires var r := FirstLoad(disk, up, st, dirs, b);
             (r.1.Some? ==> r.1.value in st'.live && SamePlace(r.0.live[r.1.value], st'.live[r.1.value])) &&
             forall id :: id in st'.live && st'.live[id].backend == b && Some(id) != r.1 ==>
               id in st.live && SamePlace(st.live[id], st'.live[id])
    ensures var r, r' := LoadHandle(disk, up, st, dirs[0], b), LoadHandle(disk, up, st', dirs[0], b);
            (r.1.Some? ==> r'.1 == r.1) && (r'.1.Some? ==> r'.1 == FirstLoad(disk, up, st, dirs, b).1)
  {
    hide RemoveAll, Hex, Replay, ReadyData, Key, Sample;
    var hit, hit' := SearchFromCache(disk, st, dirs[0], b), SearchFromCache(disk, st', dirs[0], b);
    if hit.Some? {
      KeyTellsBackend(disk, dirs[0], b, st.live[hit.value].path, st.live[hit.value].backend);
    } else if hit'.Some? {
      KeyTellsBackend(disk, dirs[0], b, st'.live[hit'.value].path, st'.live[hit'.value].backend);
    }
  }

  /** The slot keeps its handle, whose count goes up and down again, even from 1; nothing is loaded or
      unloaded. */
  lemma SwapSlotRepeats(disk: Disk, up: set<nat>, st: Store, slot: Option<Id>, dirs: seq<string>, b: nat)
    requires StoreInv(disk, st) && Finds(disk, up, st, dirs, b, Deref(st, slot))
    ensures var r := SwapSlot(disk, up, st, slot, dirs, b);
            r.1 == Deref(st, slot) && r.0 == st.(nextId := r.0.nextId) && r.0.nextId >= st.nextId
  {
    hide StoreInv, FirstLoad, HandleKey;
    FirstLoadKeeps(disk, up, st, dirs, b);
    if Deref(st, slot).Some? {
      var id := slot.value;
      assert st.live[id := st.live[id].(refCnt := st.live[id].refCnt + 1)][id := st.live[id]] == st.live;
    }
  }

  ghost predicate RowFinds(disk: Disk, up: set<nat>, st: Store, row: Row, dirs: seq<string>, n: nat) {
    forall c :: 0 <= c < n && c < |row| ==> Finds(disk, up, st, dirs, c, row[c])
  }

  /** After one round the slot holds what the next load will find; and so do the slots before it. */
  lemma SwapSlotFinds(disk: Disk, up: set<nat>, w: World, f: Fb, b: nat, dirs: seq<string>)
    requires Inv(disk, w) && f in w.rows && b < |w.rows[f]| && RowFinds(disk, up, w.store, w.rows[f], dirs, b)
    ensures var r := SwapSlot(disk, up, w.store, w.rows[f][b], dirs, b);
            RowFinds(disk, up, r.0, w.rows[f][b := r.1], dirs, b + 1)
  {
    hide StoreInv, FirstLoad, ReleaseSlot, Holders;
    SwapSlotKeeps(disk, up, w, f, b, dirs);
    var found, r := FirstLoad(disk, up, w.store, dirs, b), SwapSlot(disk, up, w.store, w.rows[f][b], dirs, b);
    var w' := WithSlot(w, r.0, f, b, r.1);
    FirstLoadKeeps(disk, up, w.store, dirs, b);
    ReleaseOnlyTakes(disk, found.0, Deref(w.store, w.rows[f][b]));
    forall c | 0 <= c < b + 1 ensures Finds(disk, up, r.0, dirs, c, w'.rows[f][c]) {
      assert c < b ==> w'.rows[f][c] == w.rows[f][c] && SameSlot(w.store, r.0, w.rows[f][c]);
      FirstLoadKeeps(disk, up, w.store, dirs, c);
      FirstLoadAgain(disk, up, w.store, r.0, dirs, c);
    }
  }

  lemma {:induction false} LoadRowFinds(disk: Disk, up: set<nat>, w: World, f: Fb, dirs: seq<string>, b: nat)
    requires Inv(disk, w) && f in w.rows && b <= |w.rows[f]| && RowFinds(disk, up, w.store, w.rows[f], dirs, b)
    ensures var r := LoadRow(disk, up, w.store, w.rows[f], dirs, b);
            Inv(disk, WithRow(w, r, f)) && RowFinds(disk, up, r.0, r.1, dirs, |r.1|)
    decreases |w.rows[f]| - b
  {
    hide Inv, RowFinds, SwapSlot;
    if b == |w.rows[f]| {
      assert w.rows[f := w.rows[f]] == w.rows;
    } else {
      var step := SwapSlot(disk, up, w.store, w.rows[f][b], dirs, b);
      var w1 := WithSlot(w, step.0, f, b, step.1);
      SwapSlotKeeps(disk, up, w, f, b, dirs);
      SwapSlotFinds(disk, up, w, f, b, dirs);
      LoadRowFinds(disk, up, w1, f, dirs, b + 1);
      assert WithRow(w, LoadRow(disk, up, w.store, w.rows[f], dirs, b), f) ==
             WithRow(w1, LoadRow(disk, up, w.store, w.rows[f], dirs, b), f);
    }
  }

  lemma LaterIdentities(disk: Disk, up: set<nat>, st: Store, next: Id, dirs: seq<string>, b: nat, slot: Option<Id>)
    requires StoreInv(disk, st) && next >= st.nextId && Finds(disk, up, st, dirs, b, slot)
    ensures StoreInv(disk, st.(nextId := next)) && Finds(disk, up, st.(nextId := next), dirs, b, slot)
  {
    hide RemoveAll, Hex, Replay, ReadyData, Key, FirstLoad;
    FirstLoadKeeps(disk, up, st, dirs, b);
    FirstLoadAgain(disk, up, st, st.(nextId := next), dirs, b);
  }

  lemma {:induction false} LoadRowRepeats(disk: Disk, up: set<nat>, st: Store, row: Row, dirs: seq<string>, b: nat)
    requires StoreInv(disk, st) && b <= |row| && RowFinds(disk, up, st, row, dirs, |row|)
    ensures var r := LoadRow(disk, up, st, row, dirs, b); r.1 == row && r.0 == st.(nextId := r.0.nextId)
    decreases |row| - b
  {
    hide StoreInv, SwapSlot, Finds;
    if b < |row| {
      assert Finds(disk, up, st, dirs, b, row[b]);
      assert Deref(st, row[b]) == row[b] by { FoundIsLive(disk, up, st, dirs, b, row[b]); }
      SwapSlotRepeats(disk, up, st, row[b], dirs, b);
      var r := SwapSlot(disk, up, st, row[b], dirs, b);
      assert row[b := r.1] == row;
      NothingIsLost(disk, st, r.0.nextId);
      forall c | 0 <= c < |row| ensures Finds(disk, up, r.0, dirs, c, row[c]) {
        LaterIdentities(disk, up, st, r.0.nextId, dirs, c, row[c]);
      }
      LoadRowRepeats(disk, up, r.0, row, dirs, b + 1);
    }
  }

  lemma FoundIsLive(disk: Disk, up: set<nat>, st: Store, dirs: seq<string>, b: nat, slot: Option<Id>)
    requires Finds(disk, up, st, dirs, b, slot)
    ensures Deref(st, slot) == slot
  {
  }

  lemma NothingIsLost(disk: Disk, st: Store, next: Id)
    requires StoreInv(disk, st) && next >= st.nextId
    ensures StoreInv(disk, st.(nextId := next))
  {
    hide RemoveAll, Hex, Replay, ReadyData, Key;
  }

  /** Reload stability: whatever the backends are, and whatever the keys, loading the same list again
      changes nothing: the live handles and their counts, the cache, the slots and the calls to the
      backends stay as they are. */
  lemma ReloadChangesNothing(disk: Disk, up: set<nat>, w: World, f: Fb, dirs: seq<string>)
    requires Inv(disk, w) && f in w.rows
    ensures var once := LoadFeedback(disk, up, w.store, w.rows[f], dirs);
            var twice := LoadFeedback(disk, up, once.0, once.1, dirs);
            twice.1 == once.1 && twice.0.live == once.0.live && twice.0.cache == once.0.cache &&
            twice.0.calls == once.0.calls
  {
    hide StoreInv, Finds, LoadRow, Holders;
    if dirs != [] {
      LoadRowFinds(disk, up, w, f, dirs, 0);
      var once := LoadRow(disk, up, w.store, w.rows[f], dirs, 0);
      LoadRowRepeats(disk, up, once.0, once.1, dirs, 0);
    }
  }

  // Reloading at any later time

  function HandlesOf(st: Store, b: nat): map<Id, Handle> {
    map id | id in st.live && st.live[id].backend == b :: st.live[id]
  }

  function CallsOf(calls: seq<BackendCall>, b: nat): seq<BackendCall> {
    if calls == [] then []
    else CallsOf(calls[..|calls| - 1], b) + if calls[|calls| - 1].backend == b then [calls[|calls| - 1]] else []
  }

  /** The backend has been asked nothing, and has the same handles with the same counts. */
  ghost predicate BackendSame(st: Store, st': Store, b: nat) {
    HandlesOf(st', b) == HandlesOf(st, b) && CallsOf(st'.calls, b) == CallsOf(st.calls, b)
  }

  lemma CallsSnoc(calls: seq<BackendCall>, call: BackendCall, b: nat)
    requires call.backend != b
    ensures CallsOf(calls + [call], b) == CallsOf(calls, b)
  {
    assert (calls + [call])[..|calls|] == calls;
  }

  lemma LoadHandleSpares(disk: Disk, up: set<nat>, st: Store, path: string, b: nat, c: nat)
    requires StoreInv(disk, st) && b != c
    ensures BackendSame(st, LoadHandle(disk, up, st, path, b).0, c)
  {
    hide RemoveAll, Hex, Replay, ReadyData, Key, CallsOf, HandlesOf;
    LoadHandleKeeps(disk, up, st, path, b);
    CallsSnoc(st.calls, LoadCall(b, st.nextId), c);
    var r := LoadHandle(disk, up, st, path, b);
    hide LoadHandle;
    if r.1.Some? {
      TakingSpares(disk, st, r.0, r.1.value, b, c);
    } else {
      LaterSpares(st, r.0.nextId, c);
    }
  }

  lemma TakingSpares(disk: Disk, st: Store, st': Store, id: Id, b: nat, c: nat)
    requires TookReference(disk, st, st', id, b) && b != c
    ensures HandlesOf(st', c) == HandlesOf(st, c)
  {
    hide HandleKey;
  }

  lemma LaterSpares(st: Store, next: Id, c: nat)
    ensures HandlesOf(st.(nextId := next), c) == HandlesOf(st, c)
  {
  }

  lemma {:induction false} FirstLoadSpares(disk: Disk, up: set<nat>, st: Store, dirs: seq<string>, b: nat, c: nat)
    requires StoreInv(disk, st) && b != c
    ensures BackendSame(st, FirstLoad(disk, up, st, dirs, b).0, c)
    decreases |dirs|
  {
    hide StoreInv, LoadHandle;
    if dirs != [] {
      LoadHandleKeeps(disk, up, st, dirs[0], b);
      LoadHandleSpares(disk, up, st, dirs[0], b, c);
      var r := LoadHandle(disk, up, st, dirs[0], b);
      if r.1.None? {
        FirstLoadSpares(disk, up, r.0, dirs[1..], b, c);
      }
    }
  }

  lemma ReleaseSpares(disk: Disk, st: Store, slot: Option<Id>, b: nat, c: nat)
    requires b != c && (Deref(st, slot).Some? ==> st.live[slot.value].backend == b)
    ensures BackendSame(st, ReleaseSlot(disk, st, slot), c)
  {
    hide HandleKey, CallsOf, HandlesOf;
    if Deref(st, slot).Some? {
      CallsSnoc(st.calls, UnloadCall(b, slot.value), c);
      OthersSpared(st, ReleaseSlot(disk, st, slot), slot.value, c);
    }
  }

  lemma OthersSpared(st: Store, st': Store, id: Id, c: nat)
    requires id in st.live && st.live[id].backend != c && (id in st'.live ==> st'.live[id].backend != c)
    requires st'.live - {id} == st.live - {id}
    ensures HandlesOf(st', c) == HandlesOf(st, c)
  {
    forall other | other != id
      ensures other in st.live <==> other in st'.live
      ensures other in st.live ==> st.live[other] == st'.live[other]
    {
      assert other in st.live <==> other in st.live - {id};
      assert other in st'.live <==> other in st'.live - {id};
      assert other in st.live ==> st.live[other] == (st.live - {id})[other];
      assert other in st'.live ==> st'.live[other] == (st'.live - {id})[other];
    }
  }

  lemma SwapSlotSpares(disk: Disk, up: set<nat>, w: World, f: Fb, b: nat, dirs: seq<string>, c: nat)
    requires Inv(disk, w) && f in w.rows && b < |w.rows[f]| && b != c
    ensures BackendSame(w.store, SwapSlot(disk, up, w.store, w.rows[f][b], dirs, b).0, c)
  {
    hide StoreInv, CountsInv, FirstLoad, ReleaseSlot;
    FirstLoadKeeps(disk, up, w.store, dirs, b);
    FirstLoadSpares(disk, up, w.store, dirs, b, c);
    ReleaseSpares(disk, FirstLoad(disk, up, w.store, dirs, b).0, Deref(w.store, w.rows[f][b]), b, c);
  }

  /** A slot that shows what the scan of the list gives holds what a load finds. */
  lemma ShownIsFound(disk: Disk, wanted: Wishes, up: set<nat>, w: World, f: Fb, b: nat, dirs: seq<string>)
    requires Inv(disk, w) && f in w.rows && b < |w.rows[f]| && b in up
    requires WantedStore(wanted, w.store) && WantedList(disk, wanted, dirs, b) && Apart(disk, wanted, dirs, b)
    requires View(w.store, w.rows[f][b]) == Scan(disk, dirs, b)
    ensures Finds(disk, up, w.store, dirs, b, Deref(w.store, w.rows[f][b]))
  {
    hide RemoveAll, Hex, Replay, ReadyData, Key, Scan, Apart, WantedList, Holders, FirstLoad;
    FirstLoadScans(disk, wanted, up, w.store, dirs, b);
    FirstLoadKeeps(disk, up, w.store, dirs, b);
  }

  lemma {:induction false} LoadRowSpares(disk: Disk, wanted: Wishes, up: set<nat>, w: World, f: Fb, dirs: seq<string>,
                                         b: nat, c: nat)
    requires Inv(disk, w) && f in w.rows && b <= |w.rows[f]| && c < |w.rows[f]| && c in up
    requires WantedStore(wanted, w.store) && WantedDirs(disk, wanted, up, dirs) && Apart(disk, wanted, dirs, c)
    requires b <= c ==> View(w.store, w.rows[f][c]) == Scan(disk, dirs, c)
    ensures var r := LoadRow(disk, up, w.store, w.rows[f], dirs, b);
            BackendSame(w.store, r.0, c) && r.1[c] == if b <= c then Deref(w.store, w.rows[f][c]) else w.rows[f][c]
    decreases |w.rows[f]| - b
  {
    hide Inv, WantedStore, SwapSlot, View, Scan, WantedList, Apart, HandlesOf, CallsOf, Finds;
    if b < |w.rows[f]| {
      var step := SwapSlot(disk, up, w.store, w.rows[f][b], dirs, b);
      var w1 := WithSlot(w, step.0, f, b, step.1);
      SwapSlotKeeps(disk, up, w, f, b, dirs);
      SwapSlotScans(disk, wanted, up, w, f, b, dirs);
      if b == c {
        ShownIsFound(disk, wanted, up, w, f, b, dirs);
        SwapSlotRepeatsFor(disk, up, w, f, b, dirs);
      } else {
        SwapSlotSpares(disk, up, w, f, b, dirs, c);
      }
      assert w1.rows[f] == w.rows[f][b := step.1];
      LoadRowSpares(disk, wanted, up, w1, f, dirs, b + 1, c);
    }
  }

  lemma SwapSlotRepeatsFor(disk: Disk, up: set<nat>, w: World, f: Fb, b: nat, dirs: seq<string>)
    requires Inv(disk, w) && f in w.rows && b < |w.rows[f]|
    requires Finds(disk, up, w.store, dirs, b, Deref(w.store, w.rows[f][b]))
    ensures var r := SwapSlot(disk, up, w.store, w.rows[f][b], dirs, b);
            r.1 == Deref(w.store, w.rows[f][b]) && BackendSame(w.store, r.0, b)
  {
    hide StoreInv, SwapSlot, Finds;
    SwapSlotRepeats(disk, up, w.store, w.rows[f][b], dirs, b);
  }

  /** Reload stability at any later time, backend by backend: if the slot of a Connected backend shows
      what the scan of the list gives, loading the list makes no call to that backend, keeps its handles
      and their counts, and leaves the slot, whatever the other backends are. */
  lemma ReloadSparesBackend(disk: Disk, wanted: Wishes, up: set<nat>, w: World, f: Fb, dirs: seq<string>, c: nat)
    requires Inv(disk, w) && f in w.rows && c < |w.rows[f]| && c in up
    requires WantedStore(wanted, w.store) && WantedDirs(disk, wanted, up, dirs) && Apart(disk, wanted, dirs, c)
    requires View(w.store, w.rows[f][c]) == Scan(disk, dirs, c)
    ensures var r := LoadFeedback(disk, up, w.store, w.rows[f], dirs);
            BackendSame(w.store, r.0, c) && Deref(r.0, r.1[c]) == Deref(w.store, w.rows[f][c])
  {
    hide Inv, WantedStore, View, Scan, WantedDirs, Apart, HandlesOf, CallsOf;
    if dirs != [] {
      LoadRowSpares(disk, wanted, up, w, f, dirs, 0, c);
      LoadRowKeeps(disk, wanted, up, w, f, dirs, 0);
    }
  }
}
