/** Playback volumes: reading all of them from the configuration, and following its changes one at a
    time. The two must give the same table. */
module Volumes {
  import opened Text

  datatype Volume = VolumeHigh | VolumeMedium | VolumeLow | VolumeOff

  type VolumeMap = map<string, Volume>

  /** The configuration keys that have a string value. */
  type Configuration = map<string, string>

  const PRIORITY: string := "priority"
  const MAX_PRIORITY: nat := 2

  function Lower(s: string): string {
    seq(|s|, i requires 0 <= i < |s| => if 'A' <= s[i] <= 'Z' then s[i] - 'A' + 'a' else s[i])
  }

  /** None for an unknown value. */
  function ToVolume(value: string): Option<Volume> {
    if Lower(value) == "off" then Some(VolumeOff)
    else if Lower(value) == "low" then Some(VolumeLow)
    else if Lower(value) == "medium" then Some(VolumeMedium)
    else if Lower(value) == "high" then Some(VolumeHigh)
    else None
  }

  function VolumeOf(value: string): Volume {
    var v := ToVolume(value);
    if v.Some? then v.value else VolumeMedium
  }

  /** The value is this name, each letter small or capital. */
  predicate Spells(value: string, name: string) {
    |value| == |name| &&
    forall i :: 0 <= i < |name| ==> value[i] == name[i] || value[i] as int == name[i] as int - 'a' as int + 'A' as int
  }

  lemma LowerSpells(value: string, name: string)
    requires forall i :: 0 <= i < |name| ==> 'a' <= name[i] <= 'z'
    ensures Lower(value) == name <==> Spells(value, name)
  {
    if Spells(value, name) {
      forall i | 0 <= i < |name| ensures Lower(value)[i] == name[i] {
        assert value[i] == name[i] || value[i] as int == name[i] as int - 32;
      }
    }
    if Lower(value) == name {
      forall i | 0 <= i < |name| ensures value[i] == name[i] || value[i] as int == name[i] as int - 32 {
        assert Lower(value)[i] == name[i];
      }
    }
  }

  /** The four names are read in small and capital letters; everything else counts as medium. */
  lemma VolumeNamesAreRead(value: string)
    ensures ToVolume(value) == Some(VolumeOff) <==> Spells(value, "off")
    ensures ToVolume(value) == Some(VolumeLow) <==> Spells(value, "low")
    ensures ToVolume(value) == Some(VolumeMedium) <==> Spells(value, "medium")
    ensures ToVolume(value) == Some(VolumeHigh) <==> Spells(value, "high")
    ensures VolumeOf(value) == if Spells(value, "off") then VolumeOff else if Spells(value, "low") then VolumeLow
                               else if Spells(value, "high") then VolumeHigh else VolumeMedium
  {
    LowerSpells(value, "off");
    LowerSpells(value, "low");
    LowerSpells(value, "medium");
    LowerSpells(value, "high");
    assert |"off"| == 3 && |"low"| == 3 && |"medium"| == 6 && |"high"| == 4;
    assert "off"[0] != "low"[0];
    hide Lower, Spells;
  }

  predicate StartsWith(s: string, prefix: string) {
    |prefix| <= |s| && s[..|prefix|] == prefix
  }

  // The full read

  /** The directory of a volume identity. */
  function Dir(root: string, id: nat): string {
    if id == 0 then root else root + "/" + PRIORITY + Digits(id)
  }

  /** The key is an entry of the directory itself. */
  predicate InDir(key: string, dir: string) {
    StartsWith(key, dir + "/") && '/' !in key[|dir| + 1..]
  }

  function EntryNames(store: Configuration, dir: string): set<string> {
    set key | key in store && InDir(key, dir) :: key[|dir| + 1..]
  }

  lemma EntryOfDir(store: Configuration, dir: string, name: string)
    ensures name in EntryNames(store, dir) <==> dir + "/" + name in store && '/' !in name
  {
    var key := dir + "/" + name;
    assert key[..|dir| + 1] == dir + "/" && key[|dir| + 1..] == name;
    if name in EntryNames(store, dir) {
      var k :| k in store && InDir(k, dir) && k[|dir| + 1..] == name;
      assert k == k[..|dir| + 1] + k[|dir| + 1..];
    }
    if key in store && '/' !in name {
      assert InDir(key, dir);
    }
  }

  function VolumesOfDir(store: Configuration, dir: string): VolumeMap {
    map name | name in EntryNames(store, dir) && dir + "/" + name in store :: VolumeOf(store[dir + "/" + name])
  }

  function FullRead(store: Configuration, root: string): seq<VolumeMap> {
    seq(MAX_PRIORITY + 1, i requires 0 <= i => VolumesOfDir(store, Dir(root, i)))
  }

  /** `entries` are the entries of the directory, in any order; a value that is not a string is None. */
  method GetVolumesOfDir(ghost store: Configuration, ghost dir: string, entries: seq<(string, Option<string>)>)
    returns (volumes: VolumeMap)
    requires forall e :: e in entries && e.1.Some? ==> InDir(e.0, dir) && e.0 in store && store[e.0] == e.1.value
    requires forall key :: key in store && InDir(key, dir) ==> (key, Some(store[key])) in entries
    ensures volumes == VolumesOfDir(store, dir)
  {
    volumes := map[];
    for i := 0 to |entries|
      invariant forall name :: name in volumes <==>
                  exists j :: 0 <= j < i && entries[j].1.Some? && entries[j].0 == dir + "/" + name
      invariant forall name :: name in volumes ==>
                  dir + "/" + name in store && '/' !in name && volumes[name] == VolumeOf(store[dir + "/" + name])
    {
      var entry := entries[i];
      if entry.1.None? {
        continue;
      }
      assert entry in entries;
      ghost var name := entry.0[|dir| + 1..];
      assert entry.0 == dir + "/" + name;
      LastSectionOf(dir, '/', name);
      volumes := volumes[LastSection(entry.0, '/') := VolumeOf(entry.1.value)];
    }
    forall name ensures name in volumes <==> name in VolumesOfDir(store, dir) {
      EntryOfDir(store, dir, name);
      var key := dir + "/" + name;
      if key in store && '/' !in name {
        assert key[..|dir| + 1] == dir + "/" && key[|dir| + 1..] == name;
        assert (key, Some(store[key])) in entries;
      }
    }
  }

  // Following changes

  datatype Change = Change(volumeId: nat, backend: string, volume: Volume)

  /** The volume identity and backend that a changed key stands for, if any. */
  function Parse(keyPath: string, root: string): Option<(nat, string)> {
    if !StartsWith(keyPath, root + "/") then None
    else
      var parts := Split(keyPath[|root| + 1..], '/');
      if |parts| == 1 then Some((0, parts[0]))
      else if |parts| == 2 && StartsWith(parts[0], PRIORITY) then
        var id := ToInt(parts[0][|PRIORITY|..]);
        if id.None? || id.value > MAX_PRIORITY || id.value < 0 then None else Some((id.value, parts[1]))
      else None
  }

  /** What emitVolumeChanged announces. */
  function Notify(keyPath: string, value: string, root: string): Option<Change> {
    var target := Parse(keyPath, root);
    if target.None? then None else Some(Change(target.value.0, target.value.1, VolumeOf(value)))
  }

  method EmitVolumeChanged(keyPath: string, newVolume: string, root: string) returns (change: Option<Change>)
    ensures change == Notify(keyPath, newVolume, root)
  {
    var volumeId: int := -1;
    var backend := "";
    if !StartsWith(keyPath, root + "/") {
      return None;
    }
    var parts := Split(keyPath[|root| + 1..], '/');
    if |parts| == 1 {
      backend := parts[0];
      volumeId := 0;
    } else if |parts| == 2 {
      backend := parts[1];
      if StartsWith(parts[0], PRIORITY) {
        var number := ToInt(parts[0][|PRIORITY|..]);
        if number.Some? {
          volumeId := number.value;
        }
        if number.None? || volumeId > MAX_PRIORITY {
          volumeId := -1;
        }
      }
    }
    if volumeId >= 0 {
      var volume := ToVolume(newVolume);
      if volume.None? {
        volume := Some(VolumeMedium);
      }
      return Some(Change(volumeId, backend, volume.value));
    }
    return None;
  }

  /** MfManager::setVolume. */
  function SetVolume(table: seq<VolumeMap>, id: nat, backend: string, volume: Volume): seq<VolumeMap> {
    if id < |table| then table[id := table[id][backend := volume]] else table
  }

  function Apply(table: seq<VolumeMap>, change: Option<Change>): seq<VolumeMap> {
    if change.None? then table
    else SetVolume(table, change.value.volumeId, change.value.backend, change.value.volume)
  }

  // Agreement of the two

  lemma VolumesLookup(store: Configuration, dir: string, name: string)
    ensures name in VolumesOfDir(store, dir) <==> dir + "/" + name in store && '/' !in name
    ensures name in VolumesOfDir(store, dir) ==> VolumesOfDir(store, dir)[name] == VolumeOf(store[dir + "/" + name])
  {
    EntryOfDir(store, dir, name);
  }

  /** A full read gives three tables: the entries of the root itself, and those of its two directories. */
  lemma FullReadEntries(store: Configuration, root: string, name: string)
    requires '/' !in name
    ensures |FullRead(store, root)| == 3
    ensures var tables := FullRead(store, root);
            (name in tables[0] <==> root + "/" + name in store) &&
            (name in tables[1] <==> root + "/priority1/" + name in store) &&
            (name in tables[2] <==> root + "/priority2/" + name in store) &&
            (name in tables[0] ==> tables[0][name] == VolumeOf(store[root + "/" + name])) &&
            (name in tables[1] ==> tables[1][name] == VolumeOf(store[root + "/priority1/" + name])) &&
            (name in tables[2] ==> tables[2][name] == VolumeOf(store[root + "/priority2/" + name]))
  {
    hide VolumesOfDir, VolumeOf;
    assert Digits(1) == "1" && Digits(2) == "2";
    assert Dir(root, 1) + "/" + name == root + "/priority1/" + name;
    assert Dir(root, 2) + "/" + name == root + "/priority2/" + name;
    VolumesLookup(store, Dir(root, 0), name);
    VolumesLookup(store, Dir(root, 1), name);
    VolumesLookup(store, Dir(root, 2), name);
  }

  lemma EntryIsPath(key: string, dir: string, name: string)
    ensures key == dir + "/" + name && '/' !in name <==> InDir(key, dir) && key[|dir| + 1..] == name
  {
    if InDir(key, dir) {
      assert key == key[..|dir| + 1] + key[|dir| + 1..];
    } else if key == dir + "/" + name {
      assert key[..|dir| + 1] == dir + "/" && key[|dir| + 1..] == name;
    }
  }

  lemma WriteOneEntry(store: Configuration, key: string, value: string, dir: string)
    ensures VolumesOfDir(store[key := value], dir) ==
            if InDir(key, dir) then VolumesOfDir(store, dir)[key[|dir| + 1..] := VolumeOf(value)]
            else VolumesOfDir(store, dir)
  {
    hide VolumesOfDir, VolumeOf;
    var after := VolumesOfDir(store[key := value], dir);
    var expected :=
      if InDir(key, dir) then VolumesOfDir(store, dir)[key[|dir| + 1..] := VolumeOf(value)]
      else VolumesOfDir(store, dir);
    forall name ensures (name in after <==> name in expected) && (name in after ==> after[name] == expected[name]) {
      VolumesLookup(store, dir, name);
      VolumesLookup(store[key := value], dir, name);
      EntryIsPath(key, dir, name);
      hide InDir;
    }
  }

  /** A key with a number that is not written the way the daemon writes it, or with the number 0, which
      has no directory of its own. */
  predicate Misnumbered(key: string, root: string) {
    StartsWith(key, root + "/") &&
    var parts := Split(key[|root| + 1..], '/');
    |parts| == 2 && StartsWith(parts[0], PRIORITY) &&
    var id := ToInt(parts[0][|PRIORITY|..]);
    id.Some? && 0 <= id.value <= MAX_PRIORITY && (id.value == 0 || parts[0] != PRIORITY + Digits(id.value))
  }

  /** Below the root: an entry of the root itself is one section, an entry of another directory two. */
  lemma SectionsOfKey(rest: string, top: string, name: string)
    requires '/' !in top
    ensures Split(rest, '/') == [top, name] <==> rest == top + "/" + name && '/' !in name
    ensures Split(rest, '/') == [name] <==> rest == name && '/' !in name
  {
    SplitInTwo(rest, '/', top, name);
    if '/' !in rest {
      SplitWhole(rest, '/');
    }
    if Split(rest, '/') == [name] {
      JoinSplit(rest, '/');
      SectionsAreClean(rest, '/');
    }
  }

  /** Every other way to write a number, and every way to write 0, makes a misnumbered key. */
  lemma OtherNumbersAreMisnumbered(root: string, number: string, name: string)
    requires '/' !in number && '/' !in name
    requires ToInt(number).Some? && 0 <= ToInt(number).value <= MAX_PRIORITY
    requires ToInt(number).value == 0 || number != Digits(ToInt(number).value)
    ensures Misnumbered(root + "/" + PRIORITY + number + "/" + name, root)
  {
    hide ToInt, Digits, Split;
    var key, top := root + "/" + PRIORITY + number + "/" + name, PRIORITY + number;
    assert key == root + "/" + (top + "/" + name);
    assert key[|root| + 1..] == top + "/" + name && key[..|root| + 1] == root + "/";
    SectionsOfKey(top + "/" + name, top, name);
    assert top[|PRIORITY|..] == number && top[..|PRIORITY|] == PRIORITY;
    assert forall s: string :: PRIORITY + s == top ==> (PRIORITY + s)[|PRIORITY|..] == s;
  }

  lemma NumbersToRead()
    ensures ToInt("0") == Some(0) && ToInt("01") == Some(1) && Digits(1) != "01"
  {
    assert "0"[..0] == [] && "01"[..1] == "0";
    assert Decimal("0") == 0 && Decimal("01") == 1;
    assert Trim("0") == "0" && Trim("01") == "01";
  }

  /** Such keys exist below any root. */
  lemma MisnumberedKeys(root: string)
    ensures Misnumbered(root + "/priority0/x", root) && Misnumbered(root + "/priority01/x", root)
  {
    NumbersToRead();
    hide ToInt, Misnumbered;
    OtherNumbersAreMisnumbered(root, "0", "x");
    OtherNumbersAreMisnumbered(root, "01", "x");
    assert root + "/" + PRIORITY + "0" + "/" + "x" == root + "/priority0/x";
    assert root + "/" + PRIORITY + "01" + "/" + "x" == root + "/priority01/x";
  }

  lemma TopHasNoSlash(id: nat)
    ensures '/' !in PRIORITY + Digits(id)
  {
    DigitsAreDecimal(id);
    assert !IsDigit('/');
  }

  /** The directory a key belongs to, in terms of its sections below the root. */
  lemma DirOfKey(key: string, root: string, id: nat, name: string)
    requires id <= MAX_PRIORITY
    ensures InDir(key, Dir(root, id)) && key[|Dir(root, id)| + 1..] == name <==>
            StartsWith(key, root + "/") &&
            Split(key[|root| + 1..], '/') == if id == 0 then [name] else [PRIORITY + Digits(id), name]
  {
    hide Split, Digits, InDir;
    var top := PRIORITY + Digits(id);
    TopHasNoSlash(id);
    EntryIsPath(key, Dir(root, id), name);
    if StartsWith(key, root + "/") {
      var rest := key[|root| + 1..];
      assert key == root + "/" + rest;
      SectionsOfKey(rest, top, name);
      PathBelow(root, rest, top, name);
    } else {
      assert (root + "/" + name)[..|root| + 1] == root + "/";
      assert (root + "/" + top + "/" + name)[..|root| + 1] == root + "/";
    }
  }

  lemma PathBelow(root: string, rest: string, top: string, name: string)
    ensures root + "/" + rest == root + "/" + top + "/" + name <==> rest == top + "/" + name
    ensures root + "/" + rest == root + "/" + name <==> rest == name
  {
    assert (root + "/" + rest)[|root| + 1..] == rest;
    assert (root + "/" + top + "/" + name)[|root| + 1..] == top + "/" + name;
    assert (root + "/" + name)[|root| + 1..] == name;
    assert root + "/" + top + "/" + name == root + "/" + (top + "/" + name);
  }

  /** A key that is not misnumbered is parsed into the one directory it belongs to, or into none. */
  lemma ParsedDir(key: string, root: string, id: nat, name: string)
    requires !Misnumbered(key, root) && id <= MAX_PRIORITY
    ensures InDir(key, Dir(root, id)) && key[|Dir(root, id)| + 1..] == name <==> Parse(key, root) == Some((id, name))
  {
    hide ToInt, Digits, Split, InDir, Dir;
    DirOfKey(key, root, id, name);
    TopParses(id);
    if StartsWith(key, root + "/") {
      var parts := Split(key[|root| + 1..], '/');
      assert |parts| == 1 ==> parts == [parts[0]];
      assert |parts| == 2 ==> parts == [parts[0], parts[1]];
    }
  }

  lemma TopParses(id: nat)
    requires id <= MAX_PRIORITY
    ensures StartsWith(PRIORITY + Digits(id), PRIORITY) && ToInt((PRIORITY + Digits(id))[|PRIORITY|..]) == Some(id)
  {
    NumberRoundTrip(id);
    assert (PRIORITY + Digits(id))[|PRIORITY|..] == Digits(id);
    assert (PRIORITY + Digits(id))[..|PRIORITY|] == PRIORITY;
  }

  ghost predicate Follows(key: string, root: string) {
    forall store: Configuration, value ::
      Apply(FullRead(store, root), Notify(key, value, root)) == FullRead(store[key := value], root)
  }

  function EntryName(key: string, dir: string): string
    requires InDir(key, dir)
  {
    key[|dir| + 1..]
  }

  lemma WriteFollowed(store: Configuration, key: string, value: string, root: string)
    requires !Misnumbered(key, root)
    ensures Apply(FullRead(store, root), Notify(key, value, root)) == FullRead(store[key := value], root)
  {
    hide Parse, Misnumbered, InDir, VolumesOfDir, Dir;
    var before, after := FullRead(store, root), FullRead(store[key := value], root);
    var target := Parse(key, root);
    forall i | 0 <= i <= MAX_PRIORITY
      ensures after[i] == Apply(before, Notify(key, value, root))[i]
    {
      WriteOneEntry(store, key, value, Dir(root, i));
      ParsedDir(key, root, i, if InDir(key, Dir(root, i)) then EntryName(key, Dir(root, i)) else "");
      if target.Some? {
        ParsedDir(key, root, i, target.value.1);
      }
    }
  }

  /** A misnumbered key is announced for an identity whose directory it is not in. */
  lemma MisnumberedIsNotIn(key: string, root: string)
    requires Misnumbered(key, root)
    ensures Parse(key, root).Some? && Parse(key, root).value.0 <= MAX_PRIORITY
    ensures !InDir(key, Dir(root, Parse(key, root).value.0))
  {
    var target := Parse(key, root).value;
    var dir := Dir(root, target.0);
    if InDir(key, dir) {
      DirOfKey(key, root, target.0, EntryName(key, dir));
      assert false;
    }
  }

  lemma MisnumberedLost(key: string, root: string)
    requires Misnumbered(key, root)
    ensures !Follows(key, root)
  {
    hide Misnumbered, Parse, InDir, Dir, ToVolume;
    MisnumberedIsNotIn(key, root);
    var target := Parse(key, root).value;
    var store: Configuration := map[];
    WriteOneEntry(store, key, "", Dir(root, target.0));
    assert VolumesOfDir(store, Dir(root, target.0)) == map[];
    var followed, reread := Apply(FullRead(store, root), Notify(key, "", root)), FullRead(store[key := ""], root);
    assert target.1 in followed[target.0] && target.1 !in reread[target.0];
    assert followed != reread;
  }

  /** Following a write gives the table of a full read, whatever was stored before and whatever is
      written, exactly for the keys that are not misnumbered. */
  lemma FollowsExactlyWhen(key: string, root: string)
    ensures Follows(key, root) <==> !Misnumbered(key, root)
  {
    if Misnumbered(key, root) {
      MisnumberedLost(key, root);
    } else {
      forall store: Configuration, value
        ensures Apply(FullRead(store, root), Notify(key, value, root)) == FullRead(store[key := value], root)
      {
        WriteFollowed(store, key, value, root);
      }
    }
  }

  function WriteAll(store: Configuration, writes: seq<(string, string)>): Configuration {
    if writes == [] then store
    else
      var last := writes[|writes| - 1];
      WriteAll(store, writes[..|writes| - 1])[last.0 := last.1]
  }

  function FollowAll(table: seq<VolumeMap>, writes: seq<(string, string)>, root: string): seq<VolumeMap> {
    if writes == [] then table
    else
      var last := writes[|writes| - 1];
      Apply(FollowAll(table, writes[..|writes| - 1], root), Notify(last.0, last.1, root))
  }

  /** After any sequence of writes the table that followed them is the table of a full read. */
  lemma {:induction false} IncrementalEqualsFullRead(store: Configuration, writes: seq<(string, string)>, root: string)
    requires forall i :: 0 <= i < |writes| ==> !Misnumbered(writes[i].0, root)
    ensures FollowAll(FullRead(store, root), writes, root) == FullRead(WriteAll(store, writes), root)
  {
    if writes != [] {
      var init, last := writes[..|writes| - 1], writes[|writes| - 1];
      IncrementalEqualsFullRead(store, init, root);
      WriteFollowed(WriteAll(store, init), last.0, last.1, root);
    }
  }

  /** The documented keys are not misnumbered. */
  lemma DocumentedKeysFollow(root: string, id: nat, backend: string)
    requires id <= MAX_PRIORITY && '/' !in backend
    ensures !Misnumbered(Dir(root, id) + "/" + backend, root)
    ensures Parse(Dir(root, id) + "/" + backend, root) == Some((id, backend))
  {
    hide ToInt, Digits, Split, InDir, Dir;
    var key := Dir(root, id) + "/" + backend;
    EntryIsPath(key, Dir(root, id), backend);
    DirOfKey(key, root, id, backend);
    TopParses(id);
  }
}
