/** Feedbacks and sessions as objects: the loops that fill the weak pointers and the feedback hash in
    place, specified by the functions of modules Handles and Sessions. */
module MfFeedback {
  import opened Text
  import opened Handles
  import opened Sessions
  import opened MfManager
  import Volumes

  /** The volume identity a feedback's name asks for; a name without the prefix leaves it as it was. */
  function PriorityOf(name: string, previous: int): int {
    var first := Split(name, '_')[0];
    if Volumes.StartsWith(first, Volumes.PRIORITY) then
      var number := ToInt(first[|Volumes.PRIORITY|..]);
      if number.Some? then number.value else 0
    else previous
  }

  /** As documented, a name that starts with "priority", a number and an underscore has that priority. */
  lemma NamedPriority(n: nat, rest: string, previous: int)
    requires n <= INT_MAX
    ensures PriorityOf(Volumes.PRIORITY + Digits(n) + ['_'] + rest, previous) == n
  {
    var first := Volumes.PRIORITY + Digits(n);
    DigitsAreDecimal(n);
    assert !IsDigit('_');
    SplitConcat(first, '_', rest);
    SplitWhole(first, '_');
    assert first[|Volumes.PRIORITY|..] == Digits(n) && first[..|Volumes.PRIORITY|] == Volumes.PRIORITY;
    NumberRoundTrip(n);
  }

  /** A name that does not start with "priority" leaves the priority as it was; one that does, but has no
      number up to the first underscore or the end, has priority 0. */
  lemma OtherPriorities(name: string, text: string, rest: string, previous: int)
    requires '_' !in text && ToInt(text) == None
    ensures !("priority" <= name) ==> PriorityOf(name, previous) == previous
    ensures PriorityOf("priority" + text, previous) == 0
    ensures PriorityOf("priority" + text + ['_'] + rest, previous) == 0
  {
    FirstPartIsPrefix(name, '_');
    var first := Volumes.PRIORITY + text;
    assert forall i :: 0 <= i < |first| ==> first[i] != '_' by {
      assert '_' !in Volumes.PRIORITY;
      assert forall i :: 0 <= i < |first| ==> first[i] in Volumes.PRIORITY || first[i] in text;
    }
    SplitConcat(first, '_', rest);
    SplitWhole(first, '_');
    assert first[|Volumes.PRIORITY|..] == text && first[..|Volumes.PRIORITY|] == Volumes.PRIORITY;
    hide Split, ToInt;
    var part := Split(name, '_')[0];
    if Volumes.StartsWith(part, Volumes.PRIORITY) {
      assert Volumes.PRIORITY <= part <= name;
    }
  }

  lemma {:induction false} FirstPartIsPrefix(s: string, c: char)
    ensures Split(s, c)[0] <= s
  {
    if s != [] {
      FirstPartIsPrefix(s[1..], c);
    }
  }

  /** Loading deletes nothing. */
  lemma {:induction false} FirstLoadGrows(disk: Disk, up: set<nat>, st: Store, dirs: seq<string>, b: nat)
    ensures st.live.Keys <= FirstLoad(disk, up, st, dirs, b).0.live.Keys
    decreases |dirs|
  {
    hide Key, Probe;
    if dirs != [] {
      var r := Handles.LoadHandle(disk, up, st, dirs[0], b);
      if r.1.None? {
        FirstLoadGrows(disk, up, r.0, dirs[1..], b);
      }
    }
  }

  class MfFeedback {
    const manager: MfManager
    var feedbackName: string
    var feedbackVolumePriority: int
    var feedbackHandles: Row

    /** There is one weak pointer for each backend. */
    ghost predicate Valid()
      reads this, manager
    {
      manager.Valid() && |feedbackHandles| == |manager.backendList|
    }

    constructor (manager: MfManager)
      requires manager.Valid()
      ensures Valid() && this.manager == manager
      ensures feedbackHandles == NullRow(|manager.backendList|) && feedbackName == [] && feedbackVolumePriority == 0
    {
      this.manager := manager;
      feedbackName, feedbackVolumePriority := [], 0;
      feedbackHandles := seq(|manager.backendList|, i => None);
    }

    method LoadHandle(dir: string, b: nat) returns (handle: Option<Id>)
      requires manager.Valid() && b < |manager.backendList|
      modifies manager`children, manager`calls, manager`nextId, manager`feedbackHandleHash
      ensures manager.Valid()
      ensures (manager.State(), handle) ==
              Handles.LoadHandle(manager.disk, old(manager.ConnectedBackends()), old(manager.State()), dir, b)
    {
      hide Handles.SearchFromCache, Handles.AddToCache, Probe, Create, Attach;
      handle := manager.SearchFromCache(dir, b);
      if handle.None? {
        handle := CreateHandle(dir, b);
      } else {
        assert handle.value in manager.children by { FoundIsLive(manager.disk, manager.State(), dir, b); }
      }
      if handle.Some? {
        manager.AttachHandle(handle.value);
      }
    }

    lemma FoundIsLive(disk: Disk, st: Store, dir: string, b: nat)
      ensures var r := Handles.SearchFromCache(disk, st, dir, b); r.Some? ==> r.value in st.live
    {
    }

    /** The part of loadHandle after a cache miss: a new handle is cached if it loaded something, and
        deleted again if it did not. */
    method CreateHandle(dir: string, b: nat) returns (handle: Option<Id>)
      requires manager.Valid() && b < |manager.backendList|
      modifies manager`children, manager`calls, manager`nextId, manager`feedbackHandleHash
      ensures manager.Valid() && (handle.Some? ==> handle.value in manager.children)
      ensures var st, state := old(manager.State()), Probe(manager.disk, old(manager.ConnectedBackends()), dir, b);
              if state == Empty then handle.None? && manager.State() == st.(nextId := st.nextId + 1)
              else handle == Some(st.nextId) &&
                   manager.State() == Handles.AddToCache(manager.disk, Create(st, dir, b, state), st.nextId)
    {
      hide RemoveAll, Hex, Key, Probe, LoadInto;
      ghost var st := manager.State();
      var id := manager.nextId;
      manager.nextId := manager.nextId + 1;
      // A new handle has no backend yet; position 0 stands in for it.
      manager.children := manager.children[id := Handle([], 0, 0, Empty)];
      LoadIntoFresh(manager.disk, manager.ConnectedBackends(), manager.State(), id, dir, b);
      manager.LoadHandle(id, dir, b);
      if manager.children[id].state != Empty {
        assert manager.State() == Create(st, dir, b, manager.children[id].state);
        manager.AddToCache(id);
        handle := Some(id);
      } else {
        manager.DeleteHandle(id);
        assert manager.children == st.live;
        handle := None;
      }
    }

    /** The first directory of the list that gives a handle for backend `b`. */
    method LoadFirst(dirs: seq<string>, b: nat) returns (handle: Option<Id>)
      requires manager.Valid() && b < |manager.backendList|
      modifies manager`children, manager`calls, manager`nextId, manager`feedbackHandleHash
      ensures manager.Valid()
      ensures (manager.State(), handle) ==
              FirstLoad(manager.disk, old(manager.ConnectedBackends()), old(manager.State()), dirs, b)
    {
      hide Handles.LoadHandle;
      ghost var st, up := manager.State(), manager.ConnectedBackends();
      handle := None;
      var i2 := 0;
      while i2 < |dirs| && handle.None?
        invariant manager.Valid() && 0 <= i2 <= |dirs|
        invariant handle.None? ==>
                    FirstLoad(manager.disk, up, manager.State(), dirs[i2..], b) ==
                      FirstLoad(manager.disk, up, st, dirs, b)
        invariant handle.Some? ==> (manager.State(), handle) == FirstLoad(manager.disk, up, st, dirs, b)
        decreases |dirs| - i2 + if handle.None? then 1 else 0
      {
        assert dirs[i2..][1..] == dirs[i2 + 1..];
        handle := LoadHandle(dirs[i2], b);
        i2 := i2 + 1;
      }
    }

    method DropReference(id: Id)
      requires manager.Valid() && id in manager.children
      modifies manager`children, manager`calls, manager`feedbackHandleHash
      ensures manager.Valid() && manager.State() == Release(manager.disk, old(manager.State()), id)
    {
      if manager.children[id].refCnt <= 1 {
        manager.RemoveFromCache(id);
      }
      manager.DetachHandle(id);
    }

    method Load(dirs: seq<string>)
      requires Valid()
      modifies this`feedbackName, this`feedbackVolumePriority, this`feedbackHandles
      modifies manager`children, manager`calls, manager`nextId, manager`feedbackHandleHash
      ensures Valid()
      ensures (manager.State(), feedbackHandles) ==
              LoadFeedback(manager.disk, old(manager.ConnectedBackends()), old(manager.State()),
                           old(feedbackHandles), dirs)
      ensures dirs == [] ==> manager.State() == old(manager.State()) && feedbackHandles == old(feedbackHandles)
      ensures feedbackName == if dirs == [] then old(feedbackName) else NameOf(dirs)
      ensures feedbackVolumePriority ==
              if dirs == [] then old(feedbackVolumePriority) else PriorityOf(NameOf(dirs), old(feedbackVolumePriority))
    {
      hide SwapSlot, Split, ToInt;
      if dirs == [] {
        return;
      }
      feedbackName := LastSection(dirs[0], '/');
      var volumePriority := Split(feedbackName, '_')[0];
      if Volumes.StartsWith(volumePriority, Volumes.PRIORITY) {
        var number := ToInt(volumePriority[|Volumes.PRIORITY|..]);
        feedbackVolumePriority := if number.Some? then number.value else 0;
      }
      ghost var up, named, priority := manager.ConnectedBackends(), feedbackName, feedbackVolumePriority;
      for i1 := 0 to |feedbackHandles|
        invariant Valid() && |feedbackHandles| == |old(feedbackHandles)|
        invariant feedbackName == named && feedbackVolumePriority == priority
        invariant LoadRow(manager.disk, up, manager.State(), feedbackHandles, dirs, i1) ==
                  LoadRow(manager.disk, up, old(manager.State()), old(feedbackHandles), dirs, 0)
      {
        LoadSlot(dirs, i1);
      }
    }

    /** The body of the loop of load: the new handle is attached before the old one is detached, since
        they can be the same. */
    method LoadSlot(dirs: seq<string>, i1: nat)
      requires Valid() && i1 < |feedbackHandles|
      modifies this`feedbackHandles
      modifies manager`children, manager`calls, manager`nextId, manager`feedbackHandleHash
      ensures Valid()
      ensures var r := SwapSlot(manager.disk, old(manager.ConnectedBackends()), old(manager.State()),
                                old(feedbackHandles)[i1], dirs, i1);
              manager.State() == r.0 && feedbackHandles == old(feedbackHandles)[i1 := r.1]
    {
      hide FirstLoad, Release;
      var slot := feedbackHandles[i1];
      var previous := if slot.Some? && slot.value in manager.children then slot else None;
      FirstLoadGrows(manager.disk, manager.ConnectedBackends(), manager.State(), dirs, i1);
      var handle := LoadFirst(dirs, i1);
      feedbackHandles := feedbackHandles[i1 := handle];
      if previous.Some? {
        DropReference(previous.value);
      }
    }

    /** Releases all handles; run by the destructor, which then clears the list of weak pointers. */
    method Unload()
      requires Valid()
      modifies this`feedbackName, this`feedbackVolumePriority
      modifies manager`children, manager`calls, manager`feedbackHandleHash
      ensures Valid() && manager.State() == UnloadRow(manager.disk, old(manager.State()), feedbackHandles, 0)
      ensures feedbackName == [] && feedbackVolumePriority == 0
    {
      hide Release;
      for i1 := 0 to |feedbackHandles|
        invariant Valid()
        invariant UnloadRow(manager.disk, manager.State(), feedbackHandles, i1) ==
                  UnloadRow(manager.disk, old(manager.State()), feedbackHandles, 0)
      {
        if feedbackHandles[i1].Some? && feedbackHandles[i1].value in manager.children {
          DropReference(feedbackHandles[i1].value);
        }
      }
      feedbackName := [];
      feedbackVolumePriority := 0;
    }
  }
}
