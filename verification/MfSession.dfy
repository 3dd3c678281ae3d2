/** A session as an object: its setup, its reaction to theme changes and its destructor, which run the
    resolver and load or release every feedback of the hash. */
module MfSession {
  import opened Text
  import opened Theming
  import opened Handles
  import opened Sessions
  import opened MfManager
  import opened MfFeedback
  import MfUtil
  import Resolver

  /** The flag that admits one session to setup at a time. */
  class SetupFlag {
    var inProgress: bool

    constructor ()
      ensures !inProgress
    {
      inProgress := false;
    }
  }

  /** Deferred: the timer is started again. Fatal: the process ends. */
  datatype Outcome = Deferred | Finished | Fatal

  lemma {:induction false} UnloadHashSnoc(disk: Disk, st: Store, hash: Hash, names: seq<string>, name: string)
    ensures UnloadHash(disk, st, hash, names + [name]) ==
            var r := UnloadHash(disk, st, hash, names);
            if name in r.1 then (UnloadRow(disk, r.0, r.1[name], 0), r.1 - {name}) else r
    decreases |names|
  {
    hide UnloadRow;
    if names != [] {
      assert (names + [name])[1..] == names[1..] + [name];
      if names[0] in hash {
        UnloadHashSnoc(disk, UnloadRow(disk, st, hash[names[0]], 0), hash - {names[0]}, names[1..], name);
      } else {
        UnloadHashSnoc(disk, st, hash, names[1..], name);
      }
    } else {
      assert [name][1..] == [];
    }
  }

  /** A new feedback takes the place of one with the same name, whose handles are not looked at. */
  lemma LoadListCreates(disk: Disk, up: set<nat>, n: nat, st: Store, hash: Hash, dirs: seq<string>)
    ensures var r := LoadFeedback(disk, up, st, NullRow(n), dirs);
            LoadList(disk, up, n, st, hash, dirs, true) == (r.0, hash[NameOf(dirs) := r.1])
  {
    hide LoadFeedback, NameOf;
    var row := LoadFeedback(disk, up, st, NullRow(n), dirs).1;
    assert hash[NameOf(dirs) := NullRow(n)][NameOf(dirs) := row] == hash[NameOf(dirs) := row];
  }

  class MfSession {
    const fs: FileSystem
    const appName: string
    const manager: MfManager
    const flag: SetupFlag
    var feedbackHash: map<string, MfFeedback>
    var setupFinished: bool

    /** Every hashed feedback is an object of its own and has a weak pointer for each backend. */
    ghost predicate Valid()
      reads this, manager, feedbackHash.Values
    {
      && manager.Valid()
      && (forall m :: m in feedbackHash ==> feedbackHash[m].manager == manager && feedbackHash[m].Valid())
      && (forall m, k :: m in feedbackHash && k in feedbackHash && m != k ==> feedbackHash[m] != feedbackHash[k])
    }

    /** The hash by value. */
    function Rows(): Hash
      reads `feedbackHash, feedbackHash.Values
    {
      map m | m in feedbackHash :: feedbackHash[m].feedbackHandles
    }

    /** The session listens to theme changes from now on; its setup is started by a timer. */
    constructor (fs: FileSystem, appName: string, manager: MfManager, flag: SetupFlag, id: nat)
      requires manager.Valid()
      modifies manager`listeners
      ensures Valid() && Rows() == map[] && !setupFinished && manager.listeners == old(manager.listeners) + [id]
      ensures this.fs == fs && this.appName == appName && this.manager == manager && this.flag == flag
    {
      this.fs, this.appName, this.manager, this.flag := fs, appName, manager, flag;
      feedbackHash, setupFinished := map[], false;
      new;
      manager.ConnectSession(id);
    }

    method Setup() returns (outcome: Outcome)
      requires Valid() && WellFormed(fs) && feedbackHash == map[]
      modifies this`feedbackHash, this`setupFinished, flag
      modifies manager`children, manager`calls, manager`nextId, manager`feedbackHandleHash
      ensures Valid() && (outcome.Deferred? <==> old(flag.inProgress))
      ensures outcome.Deferred? ==>
                flag.inProgress && manager.State() == old(manager.State()) && Rows() == map[] &&
                setupFinished == old(setupFinished)
      ensures outcome.Finished? ==>
                DEFAULT_THEME in fs.themes && setupFinished && !flag.inProgress &&
                (manager.State(), Rows()) ==
                  LoadLists(manager.disk, old(manager.ConnectedBackends()), |manager.backendList|, old(manager.State()),
                            map[], DirLists(fs, manager.currentThemeName, appName), true)
      ensures outcome.Fatal? ==> DEFAULT_THEME !in fs.themes || DirLists(fs, manager.currentThemeName, appName) == []
    {
      hide LoadLists, DirLists, WellFormed;
      if flag.inProgress {
        return Deferred;
      }
      flag.inProgress := true;
      var lists := MfUtil.GetFeedbackDirLists(fs, manager.currentThemeName, appName);
      if lists.None? || lists.value == [] {
        return Fatal;
      }
      CreateFeedbacks(lists.value);
      setupFinished := true;
      flag.inProgress := false;
      return Finished;
    }

    method CreateFeedbacks(lists: seq<seq<string>>)
      requires Valid() && feedbackHash == map[]
      modifies this`feedbackHash
      modifies manager`children, manager`calls, manager`nextId, manager`feedbackHandleHash
      ensures Valid()
      ensures (manager.State(), Rows()) ==
              LoadLists(manager.disk, old(manager.ConnectedBackends()), |manager.backendList|,
                        old(manager.State()), map[], lists, true)
    {
      hide LoadList;
      ghost var up, n := manager.ConnectedBackends(), |manager.backendList|;
      assert Rows() == map[];
      for i := 0 to |lists|
        invariant Valid()
        invariant forall m :: m in feedbackHash ==> fresh(feedbackHash[m])
        invariant LoadLists(manager.disk, up, n, manager.State(), Rows(), lists[i..], true) ==
                  LoadLists(manager.disk, up, n, old(manager.State()), map[], lists, true)
      {
        assert lists[i..][1..] == lists[i + 1..];
        CreateFeedback(lists[i]);
      }
    }

    method CreateFeedback(dirs: seq<string>)
      requires Valid()
      modifies this`feedbackHash
      modifies manager`children, manager`calls, manager`nextId, manager`feedbackHandleHash
      ensures Valid()
      ensures forall m :: m in feedbackHash ==>
                (m in old(feedbackHash) && feedbackHash[m] == old(feedbackHash)[m]) || fresh(feedbackHash[m])
      ensures (manager.State(), Rows()) ==
              LoadList(manager.disk, old(manager.ConnectedBackends()), |manager.backendList|,
                       old(manager.State()), old(Rows()), dirs, true)
    {
      hide LoadFeedback, NameOf, PriorityOf, LoadList;
      ghost var st, up, rows := manager.State(), manager.ConnectedBackends(), Rows();
      var feedback := NewFeedback(dirs);
      LoadListCreates(manager.disk, up, |manager.backendList|, st, rows, dirs);
      feedbackHash := feedbackHash[feedback.feedbackName := feedback];
      assert Rows() == rows[feedback.feedbackName := feedback.feedbackHandles];
    }

    method NewFeedback(dirs: seq<string>) returns (feedback: MfFeedback)
      requires manager.Valid()
      modifies manager`children, manager`calls, manager`nextId, manager`feedbackHandleHash
      ensures fresh(feedback) && feedback.manager == manager && feedback.Valid() &&
              feedback.feedbackName == NameOf(dirs)
      ensures (manager.State(), feedback.feedbackHandles) ==
              LoadFeedback(manager.disk, old(manager.ConnectedBackends()), old(manager.State()),
                           NullRow(|manager.backendList|), dirs)
    {
      hide LoadFeedback, PriorityOf;
      feedback := new MfFeedback(manager);
      feedback.Load(dirs);
      assert feedback.feedbackName == NameOf(dirs) by { NameOfNothing(); }
    }

    lemma NameOfNothing()
      ensures NameOf([]) == []
    {
    }

    /** A name that is not hashed is skipped. */
    method ThemeChanged(themeName: string) returns (outcome: Outcome)
      requires Valid() && WellFormed(fs)
      modifies feedbackHash.Values
      modifies manager`children, manager`calls, manager`nextId, manager`feedbackHandleHash
      ensures Valid() && (outcome.Finished? <==> DEFAULT_THEME in fs.themes) && !outcome.Deferred?
      ensures outcome.Finished? ==>
                (manager.State(), Rows()) ==
                  LoadLists(manager.disk, old(manager.ConnectedBackends()), |manager.backendList|, old(manager.State()),
                            old(Rows()), DirLists(fs, themeName, appName), false)
    {
      hide DirLists, LoadLists, WellFormed, FeedbackNames;
      var lists := MfUtil.GetFeedbackDirLists(fs, themeName, appName);
      if lists.None? {
        return Fatal;
      }
      Resolver.NamesAreStable(fs, themeName, appName);
      ReloadFeedbacks(lists.value);
      return Finished;
    }

    method ReloadFeedbacks(lists: seq<seq<string>>)
      requires Valid() && forall i :: 0 <= i < |lists| ==> lists[i] != []
      modifies feedbackHash.Values
      modifies manager`children, manager`calls, manager`nextId, manager`feedbackHandleHash
      ensures Valid()
      ensures (manager.State(), Rows()) ==
              LoadLists(manager.disk, old(manager.ConnectedBackends()), |manager.backendList|,
                        old(manager.State()), old(Rows()), lists, false)
    {
      hide LoadList;
      ghost var up, n := manager.ConnectedBackends(), |manager.backendList|;
      for i := 0 to |lists|
        invariant Valid()
        invariant LoadLists(manager.disk, up, n, manager.State(), Rows(), lists[i..], false) ==
                  LoadLists(manager.disk, up, n, old(manager.State()), old(Rows()), lists, false)
      {
        assert lists[i..][1..] == lists[i + 1..];
        ReloadFeedback(lists[i]);
      }
    }

    method ReloadFeedback(dirs: seq<string>)
      requires Valid() && dirs != []
      modifies feedbackHash.Values
      modifies manager`children, manager`calls, manager`nextId, manager`feedbackHandleHash
      ensures Valid()
      ensures (manager.State(), Rows()) ==
              LoadList(manager.disk, old(manager.ConnectedBackends()), |manager.backendList|,
                       old(manager.State()), old(Rows()), dirs, false)
    {
      hide LoadFeedback, PriorityOf;
      ghost var rows := Rows();
      var name := LastSection(dirs[0], '/');
      if name in feedbackHash {
        feedbackHash[name].Load(dirs);
        assert Rows() == rows[name := feedbackHash[name].feedbackHandles];
      }
    }

    /** The destructor: every feedback is released, in the order of the hash, and the hash is cleared. */
    method Destroy() returns (ghost order: seq<string>)
      requires Valid()
      modifies this`feedbackHash, feedbackHash.Values
      modifies manager`children, manager`calls, manager`feedbackHandleHash
      ensures Valid() && feedbackHash == map[] && forall m :: m in order <==> m in old(feedbackHash)
      ensures manager.State() == UnloadHash(manager.disk, old(manager.State()), old(Rows()), order).0
    {
      order := [];
      var left := feedbackHash.Keys;
      ghost var st, rows := manager.State(), Rows();
      assert UnloadHash(manager.disk, st, rows, order) == (st, rows);
      assert Restricted(rows, left) == rows && rows.Keys == left;
      hide UnloadHash, UnloadRow, Rows;
      while left != {}
        invariant Valid() && left <= feedbackHash.Keys && feedbackHash == old(feedbackHash) && Rows() == rows
        invariant forall m :: m in order <==> m in feedbackHash && m !in left
        invariant UnloadHash(manager.disk, st, rows, order) == (manager.State(), Restricted(rows, left))
        decreases left
      {
        var name :| name in left;
        UnloadHashSnoc(manager.disk, st, rows, order, name);
        RestrictedMinus(rows, left, name);
        ReleaseFeedback(name, feedbackHash[name]);
        order, left := order + [name], left - {name};
      }
      feedbackHash := map[];
    }

    method ReleaseFeedback(name: string, feedback: MfFeedback)
      requires Valid() && name in feedbackHash && feedback == feedbackHash[name]
      modifies feedback`feedbackName, feedback`feedbackVolumePriority
      modifies manager`children, manager`calls, manager`feedbackHandleHash
      ensures Valid() && Rows() == old(Rows())
      ensures manager.State() == UnloadRow(manager.disk, old(manager.State()), Rows()[name], 0)
    {
      feedback.Unload();
    }
  }

  lemma RestrictedMinus(rows: Hash, names: set<string>, name: string)
    requires name in names && name in rows
    ensures Restricted(rows, names) - {name} == Restricted(rows, names - {name})
    ensures name in Restricted(rows, names) && Restricted(rows, names)[name] == rows[name]
  {
  }

  function Restricted(rows: Hash, names: set<string>): Hash {
    map m | m in rows && m in names :: rows[m]
  }
}
