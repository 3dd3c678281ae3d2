/** Handles going away: a feedback that is destroyed, a backend that disconnects, and the shutdown of
    the manager. Each keeps the invariant, and the backends get back exactly what they handed out. */
module Teardown {
  import opened Text
  import opened Handles
  import opened HandleInvariants

  // Destroying a feedback

  /** The slots before `b` cleared. */
  function Cleared(row: Row, b: nat): Row
    requires b <= |row|
  {
    seq(|row|, i requires 0 <= i < |row| => if i < b then None else row[i])
  }

  /** Releasing the slots of a row one after the other. */
  lemma {:induction false} UnloadRowKeeps(disk: Disk, w: World, f: Fb, row: Row, b: nat)
    requires Inv(disk, w) && f in w.rows && b <= |row| && w.rows[f] == Cleared(row, b)
    ensures var st' := UnloadRow(disk, w.store, row, b);
            Inv(disk, World(st', w.rows[f := Cleared(row, |row|)])) && OtherFeedbacksSame(w, st', f) &&
            OnlyFewer(w.store, st')
    decreases |row| - b
  {
    hide StoreInv, Release;
    if b == |row| {
      assert w.rows[f := w.rows[f]] == w.rows;
    } else {
      var st1 := ReleaseSlot(disk, w.store, row[b]);
      var w1 := WithSlot(w, st1, f, b, None);
      UnloadSlotKeeps(disk, w, f, b);
      assert w1.rows[f] == Cleared(row, b + 1);
      UnloadRowKeeps(disk, w1, f, row, b + 1);
      var st' := UnloadRow(disk, w.store, row, b);
      assert w1.rows[f := Cleared(row, |row|)] == w.rows[f := Cleared(row, |row|)];
      forall g, c | g in w.rows && g != f && 0 <= c < |w.rows[g]| ensures SameSlot(w.store, st', w.rows[g][c]) {
        assert w1.rows[g][c] == w.rows[g][c];
      }
    }
  }

  lemma UnloadSlotKeeps(disk: Disk, w: World, f: Fb, b: nat)
    requires Inv(disk, w) && f in w.rows && b < |w.rows[f]|
    ensures var st' := ReleaseSlot(disk, w.store, w.rows[f][b]);
            Inv(disk, WithSlot(w, st', f, b, None)) && OthersSame(w, st', f, b) &&
            OnlyFewer(w.store, st')
  {
    hide StoreInv, Holders, Release;
    var slot := w.rows[f][b];
    var w1 := WithSlot(w, w.store, f, b, None);
    MoveReference(w, f, b, None);
    WritingKeepsSlots(w, f, b, None);
    forall g, c | g in w1.rows && 0 <= c < |w1.rows[g]| && (g, c) != (f, b)
      ensures w1.rows[g][c] == w.rows[g][c]
    {
    }
    ReleaseOnlyTakes(disk, w.store, slot);
    if Deref(w.store, slot).Some? {
      ReleaseKeeps(disk, w1, slot.value);
    }
  }

  /** Destroying a feedback releases its handles and nothing else. */
  lemma UnloadFeedbackKeeps(disk: Disk, w: World, f: Fb)
    requires Inv(disk, w) && f in w.rows
    ensures var st' := UnloadRow(disk, w.store, w.rows[f], 0);
            Inv(disk, World(st', w.rows - {f})) && OtherFeedbacksSame(w, st', f) &&
            OnlyFewer(w.store, st')
  {
    hide StoreInv, UnloadRow;
    var row := w.rows[f];
    assert Cleared(row, 0) == row;
    UnloadRowKeeps(disk, w, f, row, 0);
    var st' := UnloadRow(disk, w.store, row, 0);
    var rows1, rows2 := w.rows[f := Cleared(row, |row|)], w.rows - {f};
    forall id ensures Holders(rows1, id) == Holders(rows2, id) {
    }
    forall g, c | g in rows2 && 0 <= c < |rows2[g]| ensures rows2[g][c] == rows1[g][c] {
    }
  }

  // A backend disconnects

  /** `st` without the handles of backend `b` whose keys are among `keys`. */
  ghost predicate Purged(disk: Disk, st: Store, st': Store, b: nat, keys: seq<string>)
    requires CacheInv(disk, st)
  {
    && st'.nextId == st.nextId
    && st'.live ==
         (map id | id in st.live && !(st.live[id].backend == b && HandleKey(disk, st.live[id]) in keys) :: st.live[id])
    && st'.cache ==
         (map key | key in st.cache && !(st.live[st.cache[key]].backend == b && key in keys) :: st.cache[key])
  }

  /** The handle is unloaded by the explicit call only: by then it is Empty, so its destructor does not
      unload it again. */
  lemma PurgeEntryKeepsLedger(st: Store, key: string, b: nat)
    requires key in st.cache && st.cache[key] in st.live && st.live[st.cache[key]].backend == b
    requires Replay(st.calls) == Some(ReadyData(st.live))
    ensures var st' := PurgeEntry(st, key, b);
            Replay(st'.calls) == Some(ReadyData(st'.live)) &&
            st'.live == st.live - {st.cache[key]} && st'.cache == st.cache - {key} && st'.nextId == st.nextId
  {
    var id := st.cache[key];
    var st' := PurgeEntry(st, key, b);
    assert st'.live == st.live - {id};
    if st.live[id].state == Ready {
      ReplaySnoc(st.calls, UnloadCall(b, id));
      assert ReadyData(st'.live) == ReadyData(st.live) - {id};
    } else {
      assert ReadyData(st'.live) == ReadyData(st.live);
    }
  }

  lemma PurgeEntryKeeps(disk: Disk, st: Store, key: string, b: nat)
    requires StoreInv(disk, st) && key in st.cache
    ensures StoreInv(disk, PurgeEntry(st, key, b)) && Purged(disk, st, PurgeEntry(st, key, b), b, [key])
  {
    hide RemoveAll, Hex, Replay, ReadyData, Key;
    if st.live[st.cache[key]].backend == b {
      PurgeEntryKeepsLedger(st, key, b);
      RemovalKeepsCache(disk, st, PurgeEntry(st, key, b), st.cache[key]);
    }
  }

  lemma {:induction false} PurgeKeeps(disk: Disk, st: Store, order: seq<string>, b: nat)
    requires StoreInv(disk, st)
    ensures StoreInv(disk, Purge(st, order, b)) && Purged(disk, st, Purge(st, order, b), b, order)
    decreases |order|
  {
    hide CacheInv, LiveInv, PurgeEntry, Purged;
    if order == [] {
      PurgedAbsent(disk, st, st, b, []);
    } else {
      var key := order[0];
      assert [key] + order[1..] == order;
      if key in st.cache {
        PurgeEntryKeeps(disk, st, key, b);
        var st1 := PurgeEntry(st, key, b);
        PurgeKeeps(disk, st1, order[1..], b);
        PurgedTwice(disk, st, st1, Purge(st, order, b), b, key, order[1..]);
      } else {
        PurgeKeeps(disk, st, order[1..], b);
        PurgedAbsent(disk, st, st, b, [key]);
        PurgedTwice(disk, st, st, Purge(st, order, b), b, key, order[1..]);
      }
    }
  }

  lemma PurgedAbsent(disk: Disk, st: Store, st': Store, b: nat, keys: seq<string>)
    requires CacheInv(disk, st) && st' == st
    requires forall key :: key in keys ==> key !in st.cache
    ensures Purged(disk, st, st', b, keys)
  {
    hide HandleKey;
  }

  lemma PurgedTwice(disk: Disk, st: Store, st1: Store, st2: Store, b: nat, key: string, keys: seq<string>)
    requires CacheInv(disk, st) && CacheInv(disk, st1)
    requires Purged(disk, st, st1, b, [key]) && Purged(disk, st1, st2, b, keys)
    ensures Purged(disk, st, st2, b, [key] + keys)
  {
    hide HandleKey;
    assert forall x :: x in [key] + keys <==> x == key || x in keys;
  }

  /** All entries of the cache, in some order. */
  ghost predicate Enumerates(st: Store, order: seq<string>) {
    forall key :: key in st.cache ==> key in order
  }

  /** Disconnect isolation: processing a lost connection removes exactly the handles of that backend,
      empties exactly its slots, and leaves every other handle, count and cache entry as it was,
      whatever the order in which the cache is visited. */
  lemma DisconnectIsolates(disk: Disk, w: World, order: seq<string>, b: nat)
    requires Inv(disk, w) && Enumerates(w.store, order)
    ensures var st, st' := w.store, Purge(w.store, order, b);
            Inv(disk, World(st', w.rows)) && st'.nextId == st.nextId &&
            st'.live == (map id | id in st.live && st.live[id].backend != b :: st.live[id]) &&
            st'.cache == (map key | key in st.cache && st.live[st.cache[key]].backend != b :: st.cache[key]) &&
            forall f, c {:trigger w.rows[f][c]} :: f in w.rows && 0 <= c < |w.rows[f]| ==>
              if c == b then Deref(st', w.rows[f][c]) == None else SameSlot(st, st', w.rows[f][c])
  {
    hide HandleKey, LiveInv, Holders;
    PurgeKeeps(disk, w.store, order, b);
  }

  // Shutdown

  lemma {:induction false} DeleteCacheEmpties(disk: Disk, st: Store, order: seq<string>)
    requires StoreInv(disk, st) && Enumerates(st, order)
    ensures var st' := DeleteCache(st, order);
            st'.live == map[] && st'.cache == map[] && Replay(st'.calls) == Some(map[])
    decreases |order|
  {
    hide RemoveAll, Hex, Replay, ReadyData, Key, Delete;
    if order == [] {
      assert st.cache == map[] && st.live == map[];
      NoHandlesNoData(st);
    } else if order[0] in st.cache {
      DeleteEntryKeeps(disk, st, order[0]);
      assert forall key :: key in order <==> key == order[0] || key in order[1..];
      DeleteCacheEmpties(disk, DeleteEntry(st, order[0]), order[1..]);
    } else {
      assert forall key :: key in order <==> key == order[0] || key in order[1..];
      DeleteCacheEmpties(disk, st, order[1..]);
    }
  }

  lemma NoHandlesNoData(st: Store)
    requires st.live == map[]
    ensures ReadyData(st.live) == map[]
  {
  }

  lemma DeleteEntryKeeps(disk: Disk, st: Store, key: string)
    requires StoreInv(disk, st) && key in st.cache
    ensures StoreInv(disk, DeleteEntry(st, key)) && DeleteEntry(st, key).cache == st.cache - {key}
  {
    hide RemoveAll, Hex, Replay, ReadyData, Key;
    DeleteKeepsLedger(st, st.cache[key]);
  }

  // The balance of the calls to the backends

  function CountLoads(calls: seq<BackendCall>, b: nat): nat {
    if calls == [] then 0
    else
      var last := calls[|calls| - 1];
      (if last.LoadCall? && last.backend == b then 1 else 0) + CountLoads(calls[..|calls| - 1], b)
  }

  function CountUnloads(calls: seq<BackendCall>, b: nat): nat {
    if calls == [] then 0
    else
      var last := calls[|calls| - 1];
      (if last.UnloadCall? && last.backend == b then 1 else 0) + CountUnloads(calls[..|calls| - 1], b)
  }

  ghost function DataOf(inUse: map<Id, nat>, b: nat): set<Id> {
    set id | id in inUse && inUse[id] == b
  }

  lemma {:induction false} CallsBalance(calls: seq<BackendCall>, b: nat)
    requires Replay(calls).Some?
    ensures CountLoads(calls, b) - CountUnloads(calls, b) == |DataOf(Replay(calls).value, b)|
  {
    if calls == [] {
      assert DataOf(map[], b) == {};
    } else {
      var init, call := calls[..|calls| - 1], calls[|calls| - 1];
      CallsBalance(init, b);
      AccountCounts(Replay(init).value, call, b);
    }
  }

  lemma DataAdded(inUse: map<Id, nat>, id: Id, c: nat, b: nat)
    requires id !in inUse
    ensures id !in DataOf(inUse, b)
    ensures DataOf(inUse[id := c], b) == DataOf(inUse, b) + (if c == b then {id} else {})
  {
  }

  lemma DataRemoved(inUse: map<Id, nat>, id: Id, b: nat)
    requires id in inUse
    ensures id in DataOf(inUse, b) <==> inUse[id] == b
    ensures DataOf(inUse - {id}, b) == DataOf(inUse, b) - {id}
  {
  }

  lemma AccountCounts(before: map<Id, nat>, call: BackendCall, b: nat)
    requires Account(before, call).Some?
    ensures |DataOf(Account(before, call).value, b)| ==
            |DataOf(before, b)| + (if call.backend != b then 0 else if call.LoadCall? then 1 else -1)
  {
    hide DataOf;
    match call
    case LoadCall(c, id) => DataAdded(before, id, c, b);
    case UnloadCall(_, id) =>
      DataRemoved(before, id, b);
      assert id !in DataOf(before, b) ==> DataOf(before, b) - {id} == DataOf(before, b);
  }

  ghost function ReadyOf(st: Store, b: nat): set<Id> {
    set id | id in st.live && st.live[id].state == Ready && st.live[id].backend == b
  }

  /** Conservation: for every backend, what it loaded minus what it unloaded is the number of its live
      Ready handles. */
  lemma ResourcesConserved(disk: Disk, st: Store, b: nat)
    requires StoreInv(disk, st)
    ensures CountLoads(st.calls, b) - CountUnloads(st.calls, b) == |ReadyOf(st, b)|
  {
    CallsBalance(st.calls, b);
    assert DataOf(ReadyData(st.live), b) == ReadyOf(st, b);
  }

  /** After the manager has deleted its cache no handle is left and every backend has got everything back. */
  lemma ShutdownReturnsEverything(disk: Disk, st: Store, order: seq<string>, b: nat)
    requires StoreInv(disk, st) && Enumerates(st, order)
    ensures var st' := DeleteCache(st, order);
            st'.live == map[] && st'.cache == map[] && CountLoads(st'.calls, b) == CountUnloads(st'.calls, b)
  {
    DeleteCacheEmpties(disk, st, order);
    CallsBalance(DeleteCache(st, order).calls, b);
    assert DataOf(map[], b) == {};
  }
}
