/** Reference-counted feedback handles, shared through the manager's cache, as functions on values.

    A handle that has been deleted is no longer in `live`; identities are never used twice, so a weak
    pointer to a deleted handle is one whose identity is not live. */
module Handles {
  import opened Text

  type Id = nat

  datatype HandleState = Empty | Ready | Ignored

  /** `backend` is the position of the handle's backend in the manager's list. */
  datatype Handle = Handle(path: string, backend: nat, refCnt: int, state: HandleState)

  /** What the backends see: a successful loadHandle that produced data, and an unloadHandle. */
  datatype BackendCall = LoadCall(backend: nat, id: Id) | UnloadCall(backend: nat, id: Id)

  datatype Store = Store(live: map<Id, Handle>, cache: map<string, Id>, nextId: Id, calls: seq<BackendCall>)

  /** The theme prefix, the existing directories, and what each backend makes of a directory:
      data (Ready), silence on purpose (Ignored), or nothing. */
  datatype Disk = Disk(prefix: string, dirs: set<string>, samples: map<(nat, string), HandleState>)

  function Sample(disk: Disk, path: string, b: nat): HandleState {
    if path in disk.dirs && (b, path) in disk.samples then disk.samples[(b, path)] else Empty
  }

  // Cache

  function Key(disk: Disk, path: string, b: nat): string {
    RemoveAll(path, disk.prefix) + ['#'] + Hex(b)
  }

  function HandleKey(disk: Disk, h: Handle): string {
    Key(disk, h.path, h.backend)
  }

  /** The cached weak pointer, null when there is none or its handle is gone. */
  function SearchFromCache(disk: Disk, st: Store, path: string, b: nat): Option<Id> {
    var key := Key(disk, path, b);
    if key in st.cache && st.cache[key] in st.live then Some(st.cache[key]) else None
  }

  /** An existing entry is kept, whatever it points to. */
  function AddToCache(disk: Disk, st: Store, id: Id): Store
    requires id in st.live
  {
    var key := HandleKey(disk, st.live[id]);
    if key in st.cache then st else st.(cache := st.cache[key := id])
  }

  function RemoveFromCache(disk: Disk, st: Store, id: Id): Store
    requires id in st.live
  {
    st.(cache := st.cache - {HandleKey(disk, st.live[id])})
  }

  // Handles

  /** The state a fresh handle reaches: `up` are the backends that are Connected. */
  function Probe(disk: Disk, up: set<nat>, path: string, b: nat): HandleState {
    if path !in disk.dirs then Empty
    else if b !in up then Empty
    else Sample(disk, path, b)
  }

  function Attach(st: Store, id: Id): Store
    requires id in st.live
  {
    st.(live := st.live[id := st.live[id].(refCnt := st.live[id].refCnt + 1)])
  }

  /** Deletion; the destructor unloads a handle that is still Ready. */
  function Delete(st: Store, id: Id): Store
    requires id in st.live
  {
    var h := st.live[id];
    st.(live := st.live - {id},
        calls := if h.state == Ready then st.calls + [UnloadCall(h.backend, id)] else st.calls)
  }

  /** Unloading returns the data, if there is any, and leaves the handle Empty. */
  function Unload(st: Store, id: Id): Store
    requires id in st.live
  {
    var h := st.live[id];
    st.(live := st.live[id := h.(path := [], state := Empty)],
        calls := if h.state == Ready then st.calls + [UnloadCall(h.backend, id)] else st.calls)
  }

  /** MfFeedbackHandle::load: a handle that has data unloads it first, but only if the new directory exists. */
  function LoadInto(disk: Disk, up: set<nat>, st: Store, id: Id, path: string, b: nat): Store
    requires id in st.live
  {
    if path !in disk.dirs then st
    else
      var st1 := if st.live[id].state == Ready then Unload(st, id) else st;
      var state := Probe(disk, up, path, b);
      if state == Empty then st1
      else
        st1.(live := st1.live[id := Handle(path, b, st1.live[id].refCnt, state)],
             calls := if state == Ready then st1.calls + [LoadCall(b, id)] else st1.calls)
  }

  /** A handle that has just been made has nothing to unload. */
  lemma LoadIntoFresh(disk: Disk, up: set<nat>, st: Store, id: Id, path: string, b: nat)
    requires id in st.live && st.live[id].state == Empty
    ensures var state := Probe(disk, up, path, b);
            LoadInto(disk, up, st, id, path, b) ==
              if state == Empty then st
              else st.(live := st.live[id := Handle(path, b, st.live[id].refCnt, state)],
                       calls := if state == Ready then st.calls + [LoadCall(b, id)] else st.calls)
  {
  }

  function Detach(st: Store, id: Id): Store
    requires id in st.live
  {
    var st1 := st.(live := st.live[id := st.live[id].(refCnt := st.live[id].refCnt - 1)]);
    if st1.live[id].refCnt <= 0 then Delete(st1, id) else st1
  }

  /** A new handle that loaded something. */
  function Create(st: Store, path: string, b: nat, state: HandleState): Store {
    st.(live := st.live[st.nextId := Handle(path, b, 0, state)],
        nextId := st.nextId + 1,
        calls := if state == Ready then st.calls + [LoadCall(b, st.nextId)] else st.calls)
  }

  /** MfFeedback::loadHandle: a shared handle on a cache hit, otherwise a new one, discarded again if
      it stayed Empty. */
  function LoadHandle(disk: Disk, up: set<nat>, st: Store, path: string, b: nat): (r: (Store, Option<Id>))
    ensures r.1.Some? ==> r.1.value in r.0.live
  {
    match SearchFromCache(disk, st, path, b)
    case Some(id) => (Attach(st, id), Some(id))
    case None =>
      var state := Probe(disk, up, path, b);
      if state == Empty then (st.(nextId := st.nextId + 1), None)
      else
        var id := st.nextId;
        (Attach(AddToCache(disk, Create(st, path, b, state), id), id), Some(id))
  }

  /** The scan over the directory list for one backend. */
  function FirstLoad(disk: Disk, up: set<nat>, st: Store, dirs: seq<string>, b: nat): (r: (Store, Option<Id>))
    ensures r.1.Some? ==> r.1.value in r.0.live
    decreases |dirs|
  {
    if dirs == [] then (st, None)
    else
      var r := LoadHandle(disk, up, st, dirs[0], b);
      if r.1.Some? then r else FirstLoad(disk, up, r.0, dirs[1..], b)
  }

  /** Dropping a reference; the cache entry goes first when it is the last one. */
  function Release(disk: Disk, st: Store, id: Id): Store
    requires id in st.live
  {
    Detach(if st.live[id].refCnt <= 1 then RemoveFromCache(disk, st, id) else st, id)
  }

  // Feedbacks

  /** One weak pointer per backend. */
  type Row = seq<Option<Id>>

  function Deref(st: Store, slot: Option<Id>): Option<Id> {
    if slot.Some? && slot.value in st.live then slot else None
  }

  function ReleaseSlot(disk: Disk, st: Store, slot: Option<Id>): Store {
    if Deref(st, slot).Some? then Release(disk, st, slot.value) else st
  }

  /** The body of the loop of MfFeedback::load: the new reference is taken before the old one is dropped. */
  function SwapSlot(disk: Disk, up: set<nat>, st: Store, previous: Option<Id>, dirs: seq<string>, b: nat)
      : (Store, Option<Id>)
  {
    var r := FirstLoad(disk, up, st, dirs, b);
    (ReleaseSlot(disk, r.0, Deref(st, previous)), r.1)
  }

  /** MfFeedback::load from backend `b` on, for a list that is not empty. */
  function LoadRow(disk: Disk, up: set<nat>, st: Store, row: Row, dirs: seq<string>, b: nat): (r: (Store, Row))
    requires b <= |row|
    ensures |r.1| == |row|
    decreases |row| - b
  {
    if b == |row| then (st, row)
    else
      var r := SwapSlot(disk, up, st, row[b], dirs, b);
      LoadRow(disk, up, r.0, row[b := r.1], dirs, b + 1)
  }

  function LoadFeedback(disk: Disk, up: set<nat>, st: Store, row: Row, dirs: seq<string>): (r: (Store, Row))
    ensures |r.1| == |row|
  {
    if dirs == [] then (st, row) else LoadRow(disk, up, st, row, dirs, 0)
  }

  /** MfFeedback::unload from backend `b` on. */
  function UnloadRow(disk: Disk, st: Store, row: Row, b: nat): Store
    requires b <= |row|
    decreases |row| - b
  {
    if b == |row| then st else UnloadRow(disk, ReleaseSlot(disk, st, row[b]), row, b + 1)
  }

  // Disconnects and shutdown

  /** One entry in the loop of unloadHandlesForABackend: the handle is unloaded, which leaves it Empty,
      and then deleted, which must not unload it a second time. */
  function PurgeEntry(st: Store, key: string, b: nat): Store
    requires key in st.cache
  {
    var id := st.cache[key];
    if id in st.live && st.live[id].backend == b then
      var deleted := Delete(Unload(st, id), id);
      deleted.(cache := deleted.cache - {key})
    else st
  }

  /** The cache is visited in the order of the hash, given by `order`. */
  function Purge(st: Store, order: seq<string>, b: nat): Store
    decreases |order|
  {
    if order == [] then st
    else if order[0] in st.cache then Purge(PurgeEntry(st, order[0], b), order[1..], b)
    else Purge(st, order[1..], b)
  }

  function DeleteEntry(st: Store, key: string): Store
    requires key in st.cache
  {
    var deleted := if st.cache[key] in st.live then Delete(st, st.cache[key]) else st;
    deleted.(cache := deleted.cache - {key})
  }

  function DeleteCache(st: Store, order: seq<string>): Store
    decreases |order|
  {
    if order == [] then st
    else if order[0] in st.cache then DeleteCache(DeleteEntry(st, order[0]), order[1..])
    else DeleteCache(st, order[1..])
  }
}
