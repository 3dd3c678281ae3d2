/** The manager as the source has it: an object that owns the handles and updates its cache, its
    volumes and its theme in place. Its methods are specified by the functions of module Handles. */
module MfManager {
  import opened Text
  import opened Theming
  import opened Handles
  import opened Reconnection
  import opened Volumes
  import Daemon

  /** The backends of `found`, in order, that are not yet in the list. */
  function AddNew(list: seq<MfBackendBase>, found: seq<MfBackendBase>): seq<MfBackendBase>
    decreases |found|
  {
    if found == [] then list
    else AddNew(if found[0] in list then list else list + [found[0]], found[1..])
  }

  /** The duplicate check keeps the list free of duplicates, the old list in front, and loads every plugin. */
  lemma {:induction false} AddNewKeepsDistinct(list: seq<MfBackendBase>, found: seq<MfBackendBase>)
    requires Distinct(list)
    ensures Distinct(AddNew(list, found)) && list <= AddNew(list, found)
    ensures forall x :: x in AddNew(list, found) <==> x in list || x in found
    decreases |found|
  {
    if found != [] {
      AddNewKeepsDistinct(if found[0] in list then list else list + [found[0]], found[1..]);
    }
  }

  lemma {:induction false} IndexOfDistinct<T>(s: seq<T>, i: nat)
    requires Distinct(s) && i < |s|
    ensures IndexOf(s, s[i]) == i
  {
    assert s[i] in s;
    var k := IndexOf(s, s[i]);
  }

  /** `order` without duplicates lists the keys of the cache. */
  ghost predicate Lists(order: seq<string>, keys: set<string>) {
    Distinct(order) && forall key :: key in order <==> key in keys
  }

  lemma {:induction false} PurgeSnoc(st: Store, order: seq<string>, key: string, b: nat)
    ensures Purge(st, order + [key], b) ==
            var st1 := Purge(st, order, b);
            if key in st1.cache then PurgeEntry(st1, key, b) else st1
    decreases |order|
  {
    if order != [] {
      assert (order + [key])[1..] == order[1..] + [key];
      PurgeSnoc(if order[0] in st.cache then PurgeEntry(st, order[0], b) else st, order[1..], key, b);
    } else {
      assert [key][1..] == [];
    }
  }

  lemma {:induction false} DeleteCacheSnoc(st: Store, order: seq<string>, key: string)
    ensures DeleteCache(st, order + [key]) ==
            var st1 := DeleteCache(st, order);
            if key in st1.cache then DeleteEntry(st1, key) else st1
    decreases |order|
  {
    if order != [] {
      assert (order + [key])[1..] == order[1..] + [key];
      DeleteCacheSnoc(if order[0] in st.cache then DeleteEntry(st, order[0]) else st, order[1..], key);
    } else {
      assert [key][1..] == [];
    }
  }

  class MfManager {
    const disk: Disk
    var children: map<Id, Handle>
    var nextId: Id
    var calls: seq<BackendCall>
    var feedbackHandleHash: map<string, Id>
    var backendList: seq<MfBackendBase>
    var backendVolumes: seq<VolumeMap>
    var currentThemeName: string
    var listeners: seq<nat>
    var eventQueue: seq<Daemon.Event>

    function State(): Store
      reads `children, `feedbackHandleHash, `nextId, `calls
    {
      Store(children, feedbackHandleHash, nextId, calls)
    }

    function ConnectedBackends(): (up: set<nat>)
      reads `backendList, backendList
      ensures forall b :: b in up <==> 0 <= b < |backendList| && backendList[b].currentState == Connected
    {
      set b | 0 <= b < |backendList| && backendList[b].currentState == Connected
    }

    /** The daemon's state `d` has these backends in the same connection states. */
    ghost predicate Mirrors(d: Daemon.State)
      reads `backendList, backendList
    {
      |d.backends| == |backendList| &&
      forall b :: 0 <= b < |backendList| ==> d.backends[b].link == backendList[b].currentState
    }

    /** The manager loads on the backends that are up in the daemon's machine. */
    lemma ConnectedIsUp(d: Daemon.State)
      requires Mirrors(d)
      ensures ConnectedBackends() == Daemon.Up(d)
    {
      forall b ensures b in ConnectedBackends() <==> b in Daemon.Up(d) {
      }
    }

    /** Every handle belongs to a backend of the list, which has no duplicates, and identities are
        never used twice. */
    ghost predicate Valid()
      reads this
    {
      Distinct(backendList) && forall id :: id in children ==> children[id].backend < |backendList| && id < nextId
    }

    constructor (disk: Disk, theme: string, volumes: seq<VolumeMap>)
      ensures Valid() && this.disk == disk && State() == Store(map[], map[], 0, [])
      ensures backendList == [] && currentThemeName == theme && backendVolumes == volumes
      ensures listeners == [] && eventQueue == []
    {
      this.disk := disk;
      children, nextId, calls, feedbackHandleHash := map[], 0, [], map[];
      backendList, backendVolumes, currentThemeName := [], volumes, theme;
      listeners, eventQueue := [], [];
    }

    /** `found` are the instances of the plugins in a directory, by file name; the same plugin under two
        names gives the same instance twice. */
    method LoadBackendPlugins(found: seq<MfBackendBase>)
      requires Valid() && children == map[] && forall x :: x in found ==> x.Valid()
      modifies this`backendList, found
      ensures Valid() && backendList == AddNew(old(backendList), found)
      ensures forall x :: x in found && x !in old(backendList) ==> x.State() == Attempt(old(x.State()))
      ensures forall x :: x in old(backendList) ==> x.State() == old(x.State())
    {
      hide Attempt;
      AddNewKeepsDistinct(backendList, found);
      for i := 0 to |found|
        invariant AddNew(backendList, found[i..]) == old(AddNew(backendList, found))
        invariant forall x :: x in backendList <==> x in old(backendList) || x in found[..i]
        invariant forall x :: x in found && x !in old(backendList) ==>
                    x.State() == if x in found[..i] then Attempt(old(x.State())) else old(x.State())
        invariant forall x :: x in old(backendList) ==> x.State() == old(x.State())
      {
        assert found[i..][1..] == found[i + 1..] && found[..i + 1] == found[..i] + [found[i]];
        if found[i] !in backendList {
          found[i].Connecting();
          backendList := backendList + [found[i]];
        }
      }
    }

    // Cache

    method SearchFromCache(dir: string, b: nat) returns (id: Option<Id>)
      ensures id == Handles.SearchFromCache(disk, State(), dir, b)
    {
      var key := RemoveAll(dir, disk.prefix) + ['#'] + Hex(b);
      if key in feedbackHandleHash && feedbackHandleHash[key] in children {
        return Some(feedbackHandleHash[key]);
      }
      return None;
    }

    /** The key is built from the position of the handle's backend in the list, which is the position it
        was loaded for, because the list has no duplicates. */
    method AddToCache(id: Id)
      requires Valid() && id in children
      modifies this`feedbackHandleHash
      ensures Valid() && State() == Handles.AddToCache(disk, old(State()), id)
    {
      var h := children[id];
      IndexOfDistinct(backendList, h.backend);
      var key := RemoveAll(h.path, disk.prefix) + ['#'] + Hex(IndexOf(backendList, backendList[h.backend]));
      if key !in feedbackHandleHash {
        feedbackHandleHash := feedbackHandleHash[key := id];
      }
    }

    method RemoveFromCache(id: Id)
      requires Valid() && id in children
      modifies this`feedbackHandleHash
      ensures Valid() && State() == Handles.RemoveFromCache(disk, old(State()), id)
    {
      var h := children[id];
      IndexOfDistinct(backendList, h.backend);
      var key := RemoveAll(h.path, disk.prefix) + ['#'] + Hex(IndexOf(backendList, backendList[h.backend]));
      feedbackHandleHash := feedbackHandleHash - {key};
    }

    // The handles, which the manager owns

    method AttachHandle(id: Id)
      requires Valid() && id in children
      modifies this`children
      ensures Valid() && State() == Attach(old(State()), id)
    {
      children := children[id := children[id].(refCnt := children[id].refCnt + 1)];
    }

    /** Unloading a handle returns its data, if it has any, and leaves it Empty. */
    method UnloadHandle(id: Id)
      requires Valid() && id in children
      modifies this`children, this`calls
      ensures Valid() && State() == Unload(old(State()), id)
      ensures id in children && children[id].state == Empty && children[id].path == []
    {
      if children[id].state == Ready {
        calls := calls + [UnloadCall(children[id].backend, id)];
      }
      children := children[id := children[id].(path := [], state := Empty)];
    }

    method DeleteHandle(id: Id)
      requires Valid() && id in children
      modifies this`children, this`calls
      ensures Valid() && State() == Delete(old(State()), id)
    {
      if children[id].state == Ready {
        UnloadHandle(id);
      }
      children := children - {id};
    }

    method DetachHandle(id: Id)
      requires Valid() && id in children
      modifies this`children, this`calls
      ensures Valid() && State() == Detach(old(State()), id)
    {
      children := children[id := children[id].(refCnt := children[id].refCnt - 1)];
      if children[id].refCnt <= 0 {
        DeleteHandle(id);
      }
    }

    /** The directory must exist, and the backend must be Connected and accept it; a handle that has data
        unloads it in between. */
    method LoadHandle(id: Id, dir: string, b: nat)
      requires Valid() && id in children && b < |backendList|
      modifies this`children, this`calls
      ensures Valid() && State() == LoadInto(disk, old(ConnectedBackends()), old(State()), id, dir, b)
      ensures dir !in disk.dirs ==> children == old(children) && calls == old(calls)
      ensures backendList[b].currentState != Connected || (b, dir) !in disk.samples ||
              disk.samples[(b, dir)] == Empty ==>
                calls == old(calls) +
                         (if dir in disk.dirs && old(children)[id].state == Ready
                          then [UnloadCall(old(children)[id].backend, id)] else [])
      ensures backendList[b].currentState != Connected ==>
                children[id] == old(children)[id] || (old(children)[id].state == Ready && children[id].state == Empty)
      ensures backendList[b].currentState == Connected && dir in disk.dirs && (b, dir) in disk.samples &&
              disk.samples[(b, dir)] != Empty ==>
                children[id] == Handle(dir, b, old(children)[id].refCnt, disk.samples[(b, dir)]) &&
                calls == old(calls) +
                         (if old(children)[id].state == Ready
                          then [UnloadCall(old(children)[id].backend, id)] else []) +
                         (if disk.samples[(b, dir)] == Ready then [LoadCall(b, id)] else [])
    {
      if dir !in disk.dirs {
        return;
      }
      if children[id].state == Ready {
        UnloadHandle(id);
      }
      if backendList[b].currentState != Connected || Sample(disk, dir, b) == Empty {
        return;
      }
      var state := Sample(disk, dir, b);
      children := children[id := Handle(dir, b, children[id].refCnt, state)];
      if state == Ready {
        calls := calls + [LoadCall(b, id)];
      }
    }

    // Disconnects and shutdown

    /** The handles of a lost backend are unloaded, deleted and erased while the hash is iterated. */
    method UnloadHandlesForABackend(b: nat) returns (ghost order: seq<string>)
      requires Valid()
      modifies this`children, this`calls, this`feedbackHandleHash
      ensures Valid() && Lists(order, old(feedbackHandleHash.Keys))
      ensures State() == Purge(old(State()), order, b)
    {
      order := [];
      var keys := feedbackHandleHash.Keys;
      while keys != {}
        invariant Valid() && keys <= feedbackHandleHash.Keys
        invariant Lists(order, old(feedbackHandleHash.Keys) - keys)
        invariant State() == Purge(old(State()), order, b)
        decreases keys
      {
        var key :| key in keys;
        ghost var before := State();
        PurgeSnoc(old(State()), order, key, b);
        var id := feedbackHandleHash[key];
        if id in children && children[id].backend == b {
          UnloadHandle(id);
          DeleteHandle(id);
          feedbackHandleHash := feedbackHandleHash - {key};
        }
        assert State() == PurgeEntry(before, key, b);
        order, keys := order + [key], keys - {key};
      }
    }

    method DeleteCache() returns (ghost order: seq<string>)
      requires Valid()
      modifies this`children, this`calls, this`feedbackHandleHash
      ensures Valid() && Lists(order, old(feedbackHandleHash.Keys))
      ensures State() == Handles.DeleteCache(old(State()), order)
    {
      order := [];
      while feedbackHandleHash != map[]
        invariant Valid() && feedbackHandleHash.Keys <= old(feedbackHandleHash.Keys)
        invariant Lists(order, old(feedbackHandleHash.Keys) - feedbackHandleHash.Keys)
        invariant State() == Handles.DeleteCache(old(State()), order)
        decreases feedbackHandleHash.Keys
      {
        var key :| key in feedbackHandleHash;
        ghost var before := State();
        DeleteCacheSnoc(old(State()), order, key);
        if feedbackHandleHash[key] in children {
          DeleteHandle(feedbackHandleHash[key]);
        }
        feedbackHandleHash := feedbackHandleHash - {key};
        assert State() == DeleteEntry(before, key);
        order := order + [key];
      }
    }

    // Theme and volumes

    /** A session connects its slot to the theme signal, which is always queued. */
    method ConnectSession(session: nat)
      modifies this`listeners
      ensures listeners == old(listeners) + [session]
    {
      listeners := listeners + [session];
    }

    /** Emits themeChanged: one queued slot for each listener, in the order in which they connected. */
    method EmitThemeChanged(theme: string)
      modifies this`eventQueue
      ensures eventQueue == old(eventQueue) + Daemon.Broadcast(listeners, theme)
    {
      eventQueue := eventQueue + Daemon.Broadcast(listeners, theme);
    }

    /** The new theme is stored and announced to all sessions: what the daemon's action LoadTheme does. */
    method LoadTheme(theme: string)
      modifies this`currentThemeName, this`eventQueue
      ensures currentThemeName == theme
      ensures forall cfg: Daemon.Config, d: Daemon.State {:trigger Daemon.Next(cfg, d, Daemon.LoadTheme(theme))} ::
                Daemon.ValidConfig(cfg) && d.theme == old(currentThemeName) && d.listeners == listeners &&
                d.queue == old(eventQueue) ==>
                Daemon.Next(cfg, d, Daemon.LoadTheme(theme)) ==
                  d.(theme := currentThemeName, themes := d.themes + {theme}, queue := eventQueue)
    {
      currentThemeName := theme;
      EmitThemeChanged(theme);
    }

    /** The slot backendConnected: the current theme is announced to all sessions, so that they reload. It
        runs when the notice is delivered: what the daemon does with an established notice. */
    method BackendConnected()
      modifies this`eventQueue
      ensures forall cfg: Daemon.Config, d: Daemon.State, order: seq<string>
                {:trigger Daemon.DeliverFirst(cfg, d, order)} ::
                Daemon.ValidConfig(cfg) && d.theme == currentThemeName && d.listeners == listeners &&
                d.queue != [] && d.queue[0].Established? && d.queue[1..] == old(eventQueue) ==>
                Daemon.DeliverFirst(cfg, d, order) == d.(queue := eventQueue)
    {
      EmitThemeChanged(currentThemeName);
    }

    /** Out of range volume identities are ignored. */
    method SetVolume(volumeId: int, backend: string, volume: Volume)
      requires volumeId >= 0
      modifies this`backendVolumes
      ensures backendVolumes == Volumes.SetVolume(old(backendVolumes), volumeId, backend, volume)
      ensures |backendVolumes| == |old(backendVolumes)|
      ensures forall i, name {:trigger backendVolumes[i][name]} :: 0 <= i < |backendVolumes| ==>
                if i == volumeId && name == backend then name in backendVolumes[i] && backendVolumes[i][name] == volume
                else (name in backendVolumes[i] <==> name in old(backendVolumes)[i]) &&
                     (name in backendVolumes[i] ==> backendVolumes[i][name] == old(backendVolumes)[i][name])
    {
      if volumeId < |backendVolumes| {
        backendVolumes := backendVolumes[volumeId := backendVolumes[volumeId][backend := volume]];
      }
    }
  }
}
