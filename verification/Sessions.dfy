/** The feedbacks of one session, as functions on values: loading all of them, reloading them for
    another theme, and destroying them, beside the feedbacks of all other sessions. */
module Sessions {
  import opened Text
  import opened Handles
  import opened HandleInvariants
  import opened Teardown

  /** The feedback hash: for each name, the weak pointers of the feedback. */
  type Hash = map<string, Row>

  function NullRow(n: nat): Row {
    seq(n, i => None)
  }

  /** The name a feedback takes from its directory list. */
  function NameOf(dirs: seq<string>): string {
    if dirs == [] then [] else LastSection(dirs[0], '/')
  }

  /** One round of the loop in setup (`create`, with `n` backends) or in themeChanged. */
  function LoadList(disk: Disk, up: set<nat>, n: nat, st: Store, hash: Hash, dirs: seq<string>, create: bool)
      : (Store, Hash)
  {
    var name := NameOf(dirs);
    var hash1 := if create then hash[name := NullRow(n)] else hash;
    if name in hash1 then
      var r := LoadFeedback(disk, up, st, hash1[name], dirs);
      (r.0, hash1[name := r.1])
    else (st, hash1)
  }

  function LoadLists(disk: Disk, up: set<nat>, n: nat, st: Store, hash: Hash, lists: seq<seq<string>>, create: bool)
      : (Store, Hash)
    decreases |lists|
  {
    if lists == [] then (st, hash)
    else
      var r := LoadList(disk, up, n, st, hash, lists[0], create);
      LoadLists(disk, up, n, r.0, r.1, lists[1..], create)
  }

  /** The destructor deletes the feedbacks in the order of the hash. */
  function UnloadHash(disk: Disk, st: Store, hash: Hash, names: seq<string>): (Store, Hash)
    decreases |names|
  {
    if names == [] then (st, hash)
    else if names[0] in hash then
      UnloadHash(disk, UnloadRow(disk, st, hash[names[0]], 0), hash - {names[0]}, names[1..])
    else UnloadHash(disk, st, hash, names[1..])
  }

  // A session beside the others

  function Tagged(s: nat, hash: Hash): map<Fb, Row> {
    map name | name in hash :: Fb(s, name) := hash[name]
  }

  /** The feedbacks of the session `s` together with those of the others. */
  function Beside(others: map<Fb, Row>, s: nat, hash: Hash): map<Fb, Row> {
    others + Tagged(s, hash)
  }

  predicate Foreign(others: map<Fb, Row>, s: nat) {
    forall f :: f in others ==> f.session != s
  }

  ghost predicate OthersKeep(others: map<Fb, Row>, st: Store, st': Store) {
    forall f, c {:trigger others[f][c]} :: f in others && 0 <= c < |others[f]| ==> SameSlot(st, st', others[f][c])
  }

  ghost predicate RowSame(st: Store, st': Store, row: Row) {
    forall c :: 0 <= c < |row| ==> SameSlot(st, st', row[c])
  }

  lemma BesideMembers(others: map<Fb, Row>, s: nat, hash: Hash)
    requires Foreign(others, s)
    ensures forall f :: f in Beside(others, s, hash) <==> f in others || (f.session == s && f.name in hash)
    ensures forall f :: f in Beside(others, s, hash) ==>
              Beside(others, s, hash)[f] == if f in others then others[f] else hash[f.name]
  {
    forall f ensures f in Tagged(s, hash) <==> f.session == s && f.name in hash {
      assert f == Fb(f.session, f.name);
    }
  }

  lemma BesideUpdate(others: map<Fb, Row>, s: nat, hash: Hash, name: string, row: Row)
    requires Foreign(others, s)
    ensures Beside(others, s, hash[name := row]) == Beside(others, s, hash)[Fb(s, name) := row]
  {
  }

  /** A new feedback holds nothing. */
  lemma NewFeedbackKeeps(disk: Disk, w: World, f: Fb, n: nat)
    requires Inv(disk, w) && f !in w.rows
    ensures Inv(disk, World(w.store, w.rows[f := NullRow(n)]))
  {
    hide StoreInv;
    var rows' := w.rows[f := NullRow(n)];
    forall id ensures Holders(rows', id) == Holders(w.rows, id) {
    }
    forall g, c | g in rows' && 0 <= c < |rows'[g]| && rows'[g][c].Some?
      ensures g in w.rows && rows'[g][c] == w.rows[g][c]
    {
    }
  }

  lemma NothingMoved(others: map<Fb, Row>, st: Store)
    ensures OthersKeep(others, st, st)
  {
  }

  lemma NoRowMoved(st: Store, row: Row)
    ensures RowSame(st, st, row)
  {
  }

  lemma BesideLookup(others: map<Fb, Row>, s: nat, hash: Hash)
    requires Foreign(others, s)
    ensures forall m :: m in hash ==>
              Fb(s, m) in Beside(others, s, hash) && Beside(others, s, hash)[Fb(s, m)] == hash[m]
    ensures forall g :: g in others ==> g in Beside(others, s, hash) && Beside(others, s, hash)[g] == others[g]
  {
  }

  /** Loading a feedback of the session touches neither the other sessions nor its other feedbacks. */
  lemma LoadOneKeeps(disk: Disk, wanted: Wishes, up: set<nat>, others: map<Fb, Row>, s: nat, st: Store, hash: Hash,
                     name: string, dirs: seq<string>)
    requires Foreign(others, s) && Inv(disk, World(st, Beside(others, s, hash))) && name in hash
    ensures var r := LoadFeedback(disk, up, st, hash[name], dirs);
            Inv(disk, World(r.0, Beside(others, s, hash[name := r.1]))) && OthersKeep(others, st, r.0) &&
            (forall m :: m in hash && m != name ==> RowSame(st, r.0, hash[m])) &&
            (WantedStore(wanted, st) && WantedDirs(disk, wanted, up, dirs) ==>
              WantedStore(wanted, r.0) &&
              (dirs != [] && ApartDirs(disk, wanted, up, dirs) ==> RowScans(disk, up, r.0, r.1, dirs)))
  {
    hide Inv, WantedStore, WantedDirs, ApartDirs, Scan, View, LoadFeedback, SameSlot, Beside;
    var w := World(st, Beside(others, s, hash));
    BesideLookup(others, s, hash);
    LoadFeedbackKeeps(disk, wanted, up, w, Fb(s, name), dirs);
    var r := LoadFeedback(disk, up, st, hash[name], dirs);
    BesideUpdate(others, s, hash, name, r.1);
    forall g, c | g in others && 0 <= c < |others[g]| ensures SameSlot(st, r.0, others[g][c]) {
      assert w.rows[g][c] == others[g][c];
    }
    forall m | m in hash && m != name ensures RowSame(st, r.0, hash[m]) {
      forall c | 0 <= c < |hash[m]| ensures SameSlot(st, r.0, hash[m][c]) {
        assert w.rows[Fb(s, m)][c] == hash[m][c];
      }
    }
  }

  /** On every Connected backend the row shows what a scan of the list finds. */
  ghost predicate RowScans(disk: Disk, up: set<nat>, st: Store, row: Row, dirs: seq<string>) {
    forall c :: 0 <= c < |row| && c in up ==> View(st, row[c]) == Scan(disk, dirs, c)
  }

  /** One round of the loops. A round of setup must not meet a name twice: it would lose the feedback
      already hashed, and with it the references that feedback holds. */
  lemma LoadListKeeps(disk: Disk, wanted: Wishes, up: set<nat>, n: nat, others: map<Fb, Row>, s: nat, st: Store,
                      hash: Hash, dirs: seq<string>, create: bool)
    requires Foreign(others, s) && Inv(disk, World(st, Beside(others, s, hash)))
    requires create ==> NameOf(dirs) !in hash
    ensures var r := LoadList(disk, up, n, st, hash, dirs, create);
            var name := NameOf(dirs);
            Inv(disk, World(r.0, Beside(others, s, r.1))) && OthersKeep(others, st, r.0) &&
            r.1.Keys == hash.Keys + (if create then {name} else {}) &&
            (forall m :: m in hash && m != name ==> r.1[m] == hash[m] && RowSame(st, r.0, hash[m])) &&
            (name in r.1 ==> |r.1[name]| == if create then n else |hash[name]|) &&
            (WantedStore(wanted, st) && WantedDirs(disk, wanted, up, dirs) ==>
              WantedStore(wanted, r.0) &&
              (dirs != [] && name in r.1 && ApartDirs(disk, wanted, up, dirs) ==>
                RowScans(disk, up, r.0, r.1[name], dirs)))
  {
    hide Inv, WantedStore, WantedDirs, ApartDirs, RowScans, RowSame, OthersKeep, LoadFeedback, Beside, NameOf;
    var name := NameOf(dirs);
    var hash1 := if create then hash[name := NullRow(n)] else hash;
    if create {
      var w := World(st, Beside(others, s, hash));
      FreshBeside(others, s, hash, name);
      NewFeedbackKeeps(disk, w, Fb(s, name), n);
      BesideUpdate(others, s, hash, name, NullRow(n));
    }
    if name in hash1 {
      LoadOneKeeps(disk, wanted, up, others, s, st, hash1, name, dirs);
    } else {
      NothingMoved(others, st);
      forall m | m in hash ensures RowSame(st, st, hash[m]) { NoRowMoved(st, hash[m]); }
    }
  }

  lemma FreshBeside(others: map<Fb, Row>, s: nat, hash: Hash, name: string)
    requires Foreign(others, s) && name !in hash
    ensures Fb(s, name) !in Beside(others, s, hash)
  {
  }

  predicate DistinctNames(lists: seq<seq<string>>) {
    forall i, j :: 0 <= i < j < |lists| ==> NameOf(lists[i]) != NameOf(lists[j])
  }

  function NamesOf(lists: seq<seq<string>>): set<string> {
    set i | 0 <= i < |lists| :: NameOf(lists[i])
  }

  ghost predicate WantedLists(disk: Disk, wanted: Wishes, up: set<nat>, lists: seq<seq<string>>) {
    forall i :: 0 <= i < |lists| ==> WantedDirs(disk, wanted, up, lists[i])
  }

  ghost predicate ApartLists(disk: Disk, wanted: Wishes, up: set<nat>, lists: seq<seq<string>>) {
    forall i :: 0 <= i < |lists| ==> ApartDirs(disk, wanted, up, lists[i])
  }

  /** Every feedback that has a list shows, on the Connected backends, what a scan of its list finds. */
  ghost predicate AllScan(disk: Disk, up: set<nat>, st: Store, hash: Hash, lists: seq<seq<string>>) {
    forall i :: 0 <= i < |lists| && lists[i] != [] && NameOf(lists[i]) in hash ==>
      RowScans(disk, up, st, hash[NameOf(lists[i])], lists[i])
  }

  lemma RowStillScans(disk: Disk, up: set<nat>, st: Store, st': Store, row: Row, dirs: seq<string>)
    requires RowSame(st, st', row) && RowScans(disk, up, st, row, dirs)
    ensures RowScans(disk, up, st', row, dirs)
  {
    hide Scan;
  }

  lemma RowSameTwice(st: Store, st1: Store, st2: Store, row: Row)
    requires RowSame(st, st1, row) && RowSame(st1, st2, row)
    ensures RowSame(st, st2, row)
  {
  }

  lemma OthersKeepTwice(others: map<Fb, Row>, st: Store, st1: Store, st2: Store)
    requires OthersKeep(others, st, st1) && OthersKeep(others, st1, st2)
    ensures OthersKeep(others, st, st2)
  {
  }

  /** The loop of setup or themeChanged as a whole: the invariant and all other sessions are kept, and
      every feedback ends up showing its own list, although the later rounds share and release handles. */
  lemma {:induction false} LoadListsKeeps(disk: Disk, wanted: Wishes, up: set<nat>, n: nat, others: map<Fb, Row>,
                                          s: nat, st: Store, hash: Hash, lists: seq<seq<string>>, create: bool)
    requires Foreign(others, s) && Inv(disk, World(st, Beside(others, s, hash))) && DistinctNames(lists)
    requires create ==> forall i :: 0 <= i < |lists| ==> NameOf(lists[i]) !in hash
    ensures var r := LoadLists(disk, up, n, st, hash, lists, create);
            Inv(disk, World(r.0, Beside(others, s, r.1))) && OthersKeep(others, st, r.0) &&
            r.1.Keys == hash.Keys + (if create then NamesOf(lists) else {}) &&
            (forall m :: m in hash && m !in NamesOf(lists) ==> r.1[m] == hash[m] && RowSame(st, r.0, hash[m])) &&
            (forall m :: m in r.1 ==> |r.1[m]| == if m in hash then |hash[m]| else n) &&
            (WantedStore(wanted, st) && WantedLists(disk, wanted, up, lists) ==>
              WantedStore(wanted, r.0) && (ApartLists(disk, wanted, up, lists) ==> AllScan(disk, up, r.0, r.1, lists)))
    decreases |lists|
  {
    hide Inv, WantedStore, WantedDirs, ApartDirs, RowScans, RowSame, OthersKeep, LoadList, Beside, NameOf;
    if lists == [] {
      NothingMoved(others, st);
      forall m | m in hash ensures RowSame(st, st, hash[m]) { NoRowMoved(st, hash[m]); }
    } else {
      var name, rest := NameOf(lists[0]), lists[1..];
      LoadListKeeps(disk, wanted, up, n, others, s, st, hash, lists[0], create);
      var r1 := LoadList(disk, up, n, st, hash, lists[0], create);
      NamesOfCons(lists);
      assert DistinctNames(rest);
      forall i | 0 <= i < |rest| ensures NameOf(rest[i]) != name && NameOf(rest[i]) in NamesOf(rest) {
        assert rest[i] == lists[i + 1];
      }
      LoadListsKeeps(disk, wanted, up, n, others, s, r1.0, r1.1, rest, create);
      var r := LoadLists(disk, up, n, st, hash, lists, create);
      OthersKeepTwice(others, st, r1.0, r.0);
      forall m | m in hash && m !in NamesOf(lists) ensures r.1[m] == hash[m] && RowSame(st, r.0, hash[m]) {
        RowSameTwice(st, r1.0, r.0, hash[m]);
      }
      if WantedStore(wanted, st) && WantedLists(disk, wanted, up, lists) && ApartLists(disk, wanted, up, lists) {
        AllScanCons(disk, up, r1, r, lists);
      }
    }
  }

  lemma NamesOfCons(lists: seq<seq<string>>)
    requires lists != []
    ensures NamesOf(lists) == {NameOf(lists[0])} + NamesOf(lists[1..])
  {
    forall i | 0 < i < |lists| ensures NameOf(lists[i]) in NamesOf(lists[1..]) {
      assert lists[i] == lists[1..][i - 1];
    }
  }

  lemma AllScanCons(disk: Disk, up: set<nat>, r1: (Store, Hash), r: (Store, Hash), lists: seq<seq<string>>)
    requires lists != [] && NameOf(lists[0]) !in NamesOf(lists[1..])
    requires lists[0] != [] && NameOf(lists[0]) in r1.1 ==> RowScans(disk, up, r1.0, r1.1[NameOf(lists[0])], lists[0])
    requires forall m :: m in r1.1 && m !in NamesOf(lists[1..]) ==>
             m in r.1 && r.1[m] == r1.1[m] && RowSame(r1.0, r.0, r1.1[m])
    requires NameOf(lists[0]) in r.1 ==> NameOf(lists[0]) in r1.1
    requires AllScan(disk, up, r.0, r.1, lists[1..])
    ensures AllScan(disk, up, r.0, r.1, lists)
  {
    hide RowScans, RowSame, NameOf;
    var name := NameOf(lists[0]);
    forall i | 0 <= i < |lists| && lists[i] != [] && NameOf(lists[i]) in r.1
      ensures RowScans(disk, up, r.0, r.1[NameOf(lists[i])], lists[i])
    {
      if i == 0 {
        RowStillScans(disk, up, r1.0, r.0, r1.1[name], lists[0]);
      } else {
        assert lists[i] == lists[1..][i - 1];
      }
    }
  }

  // Destroying a session

  lemma BesideRemove(others: map<Fb, Row>, s: nat, hash: Hash, name: string)
    requires Foreign(others, s)
    ensures Beside(others, s, hash - {name}) == Beside(others, s, hash) - {Fb(s, name)}
  {
    BesideMembers(others, s, hash);
    BesideMembers(others, s, hash - {name});
    hide Beside;
  }

  lemma UnloadOneKeeps(disk: Disk, others: map<Fb, Row>, s: nat, st: Store, hash: Hash, name: string)
    requires Foreign(others, s) && Inv(disk, World(st, Beside(others, s, hash))) && name in hash
    ensures var st' := UnloadRow(disk, st, hash[name], 0);
            Inv(disk, World(st', Beside(others, s, hash - {name}))) && OthersKeep(others, st, st') &&
            OnlyFewer(st, st')
  {
    hide Inv, UnloadRow, SameSlot;
    var w := World(st, Beside(others, s, hash));
    BesideLookup(others, s, hash);
    UnloadFeedbackKeeps(disk, w, Fb(s, name));
    BesideRemove(others, s, hash, name);
    hide Beside;
    forall g, c | g in others && 0 <= c < |others[g]|
      ensures SameSlot(st, UnloadRow(disk, st, hash[name], 0), others[g][c])
    {
      assert w.rows[g][c] == others[g][c];
    }
  }

  /** Destroying feedbacks releases their handles and leaves all other sessions as they are. */
  lemma {:induction false} UnloadHashKeeps(disk: Disk, others: map<Fb, Row>, s: nat, st: Store, hash: Hash,
                                           names: seq<string>)
    requires Foreign(others, s) && Inv(disk, World(st, Beside(others, s, hash)))
    ensures var r := UnloadHash(disk, st, hash, names);
            Inv(disk, World(r.0, Beside(others, s, r.1))) && OthersKeep(others, st, r.0) &&
            OnlyFewer(st, r.0) &&
            r.1 == (map m | m in hash && m !in names :: hash[m])
    decreases |names|
  {
    hide Inv, UnloadRow, OthersKeep, Beside;
    if names == [] {
      NothingMoved(others, st);
    } else {
      var name := names[0];
      assert forall m :: m in names <==> m == name || m in names[1..];
      if name in hash {
        var st1, hash1 := UnloadRow(disk, st, hash[name], 0), hash - {name};
        UnloadOneKeeps(disk, others, s, st, hash, name);
        UnloadHashKeeps(disk, others, s, st1, hash1, names[1..]);
        OthersKeepTwice(others, st, st1, UnloadHash(disk, st, hash, names).0);
      } else {
        UnloadHashKeeps(disk, others, s, st, hash, names[1..]);
      }
    }
  }
}
