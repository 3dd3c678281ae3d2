/** The cache keys of the directories in one list: two of them are equal only if they are next to each
    other, the application's directory and the common one of the same theme. */
module CacheKeys {
  import opened Text
  import opened Theming
  import opened MfUtil
  import opened Resolver

  /** The theme prefix is absolute, and no section of it is called like the daemon's own directories. */
  ghost predicate PrefixApart(fs: FileSystem) {
    ThemePrefix(fs)[0] == '/' && !Occurs(ThemePrefix(fs), "/" + MEEGOTOUCH + "/")
  }

  // Removing the prefix in front of and behind a part without it

  lemma {:induction false} RemoveBack(s: string, tail: string, p: string)
    requires p != [] && forall i :: OccursAt(s + tail, p, i) ==> i + |p| <= |s|
    ensures RemoveAll(s + tail, p) == RemoveAll(s, p) + tail
    decreases |s|
  {
    var whole := s + tail;
    if s == [] {
      assert whole == tail;
      RemoveNothing(tail, p);
    } else if OccursAt(whole, p, 0) {
      assert whole[0..|p|] == whole[..|p|] == s[..|p|];
      assert whole[|p|..] == s[|p|..] + tail;
      OccurrencesBehind(s, tail, p, |p|);
      RemoveBack(s[|p|..], tail, p);
    } else {
      assert whole[1..] == s[1..] + tail;
      if |p| <= |s| {
        assert s[0..|p|] == whole[0..|p|];
      }
      OccurrencesBehind(s, tail, p, 1);
      RemoveBack(s[1..], tail, p);
      RemoveStep(whole, p);
      RemoveStep(s, p);
      hide RemoveAll;
      assert whole[0] == s[0];
    }
  }

  lemma OccurrencesBehind(s: string, tail: string, p: string, n: nat)
    requires n <= |s| && forall i :: OccursAt(s + tail, p, i) ==> i + |p| <= |s|
    ensures forall i :: OccursAt(s[n..] + tail, p, i) ==> i + |p| <= |s[n..]|
  {
    forall i | OccursAt(s[n..] + tail, p, i) ensures i + |p| <= |s[n..]| {
      assert (s[n..] + tail)[i..i + |p|] == (s + tail)[i + n..i + n + |p|];
      assert OccursAt(s + tail, p, i + n);
    }
  }

  // What a key tells

  /** What is left of a directory without the prefix: it tells the theme and the name. */
  function Stripped(t: string, middle: string, name: string): string {
    "/" + t + "/" + MEEGOTOUCH + middle + "/" + FEEDBACKS + "/" + name
  }

  lemma StrippedTells(t: string, middle: string, name: string, t': string, middle': string, name': string)
    requires '/' !in t && '/' !in t' && '/' !in name && '/' !in name'
    requires Stripped(t, middle, name) == Stripped(t', middle', name')
    ensures t == t' && name == name'
  {
    StrippedParts(t, middle, name);
    StrippedParts(t', middle', name');
    hide Stripped;
    var front := "/" + t + "/" + MEEGOTOUCH + middle + "/" + FEEDBACKS;
    var back := MEEGOTOUCH + middle + "/" + FEEDBACKS;
    var front' := "/" + t' + "/" + MEEGOTOUCH + middle' + "/" + FEEDBACKS;
    var back' := MEEGOTOUCH + middle' + "/" + FEEDBACKS;
    JoinInjective(front, name, front', name', '/');
    FirstPart(t, back + "/" + name, t', back' + "/" + name', '/');
  }

  lemma StrippedParts(t: string, middle: string, name: string)
    ensures var s := Stripped(t, middle, name);
            s == ("/" + t + "/" + MEEGOTOUCH + middle + "/" + FEEDBACKS) + ['/'] + name && s != [] &&
            s[1..] == t + ['/'] + (MEEGOTOUCH + middle + "/" + FEEDBACKS + "/" + name)
  {
  }

  lemma FirstPart(a: string, b: string, a': string, b': string, c: char)
    requires c !in a && c !in a' && a + [c] + b == a' + [c] + b'
    ensures a == a'
  {
    var s := a + [c] + b;
    assert s[|a|] == c && s[|a'|] == c;
    assert forall i :: 0 <= i < |a| ==> s[i] == a[i];
    assert forall i :: 0 <= i < |a'| ==> s[i] == a'[i];
    assert |a| == |a'|;
    assert a == s[..|a|] && a' == s[..|a|];
  }

  /** An occurrence of the prefix that begins in the part that names the theme would have the section in it. */
  lemma OccurrenceShowsSection(fs: FileSystem, t: string, app: string, i: nat)
    requires '/' !in t && ThemePrefix(fs)[0] == '/' && i < |"/" + t + "/" + MEEGOTOUCH|
    requires OccursAt(AppBelow(t, app), ThemePrefix(fs), i)
    ensures Occurs(ThemePrefix(fs), "/" + MEEGOTOUCH + "/")
  {
    var p, below, own := ThemePrefix(fs), AppBelow(t, app), "/" + MEEGOTOUCH + "/";
    TopOfBelow(t, app);
    LastSlash(fs.mfPrefix, below, i);
    LastSlashIsBehind(t, below, i + |fs.mfPrefix| + 6);
    assert below[i] == below[i..i + |p|][0] == p[0];
    hide AppBelow;
    TopSlash(t, below, i);
    PartOfOccurrence(below, p, i, own, |t| + 1);
  }

  lemma TopOfBelow(t: string, app: string)
    ensures "/" + t + "/" + MEEGOTOUCH + "/" <= AppBelow(t, app)
    ensures AppBelow(t, app)[|t| + 1..|t| + 13] == "/" + MEEGOTOUCH + "/"
  {
  }

  lemma TopSlash(t: string, below: string, i: nat)
    requires '/' !in t && "/" + t + "/" + MEEGOTOUCH + "/" <= below && i < |t| + 12 && below[i] == '/'
    ensures i <= |t| + 1
  {
    var top := "/" + t + "/" + MEEGOTOUCH + "/";
    assert below[i] == top[i];
    assert forall j :: |t| + 1 < j < |t| + 12 ==> top[j] == MEEGOTOUCH[j - |t| - 2] != '/';
  }

  lemma PartOfOccurrence(s: string, p: string, i: nat, part: string, at: nat)
    requires OccursAt(s, p, i) && i <= at && at + |part| <= i + |p| && s[at..at + |part|] == part
    ensures Occurs(p, part)
  {
    assert p == s[i..i + |p|];
    forall j | 0 <= j < |part| ensures p[at - i + j] == part[j] {
      assert s[at..at + |part|][j] == s[at + j];
    }
    assert p[at - i..at - i + |part|] == part;
    assert OccursAt(p, part, at - i);
  }

  lemma TopIsKept(fs: FileSystem, t: string, app: string)
    requires PrefixApart(fs) && '/' !in t
    ensures NotBefore(AppBelow(t, app), ThemePrefix(fs), |"/" + t + "/" + MEEGOTOUCH|)
  {
    hide OccursAt, Occurs, AppBelow;
    forall i | 0 <= i < |"/" + t + "/" + MEEGOTOUCH| ensures !OccursAt(AppBelow(t, app), ThemePrefix(fs), i) {
      if OccursAt(AppBelow(t, app), ThemePrefix(fs), i) {
        OccurrenceShowsSection(fs, t, app, i);
      }
    }
  }

  lemma LastSlashIsBehind(t: string, below: string, k: int)
    requires '/' !in t && "/" + t + "/" + MEEGOTOUCH + "/" <= below
    requires 6 <= k && k + 7 <= |below| && below[k - 1] == 'e' && below[k] == '/' && below[k + 1] == 't'
    ensures k > |t| + 12
  {
    var top := "/" + t + "/" + MEEGOTOUCH + "/";
    assert forall j :: 0 <= j < |top| ==> below[j] == top[j];
    assert top[|t| + 2] == 'm' && top[|t| + 11] == 'h';
    assert forall j :: 0 <= j < |top| && top[j] == '/' ==> j == 0 || j == |t| + 1 || j == |t| + 12;
  }

  lemma TailIsKept(fs: FileSystem, below: string, name: string)
    requires '/' !in name
    ensures var p, tail := ThemePrefix(fs), "/" + FEEDBACKS + "/" + name;
            RemoveAll(below + tail, p) == RemoveAll(below, p) + tail
  {
    var p, tail := ThemePrefix(fs), "/" + FEEDBACKS + "/" + name;
    hide RemoveAll, OccursAt;
    assert below + tail == below + "/" + FEEDBACKS + "/" + name;
    forall i | OccursAt(below + tail, p, i) ensures i + |p| <= |below| {
      OccursInside(fs.mfPrefix, below, name, i);
      EndOfOccurrence(below, p, i);
    }
    RemoveBack(below, tail, p);
  }

  lemma EndOfOccurrence(s: string, p: string, i: int)
    requires OccursAt(s, p, i)
    ensures i + |p| <= |s|
  {
  }

  lemma AppDirStripped(fs: FileSystem, t: string, app: string, name: string)
    requires PrefixApart(fs) && '/' !in t && '/' !in name
    ensures RemoveAll(AppDir(fs, t, app) + name, ThemePrefix(fs)) ==
            Stripped(t, RemoveAll("/" + app, ThemePrefix(fs)), name)
  {
    var p, top := ThemePrefix(fs), "/" + t + "/" + MEEGOTOUCH;
    var below, tail := AppBelow(t, app), "/" + FEEDBACKS + "/" + name;
    hide RemoveAll, PrefixApart;
    assert AppDir(fs, t, app) + name == p + (below + tail);
    RemoveOnce(p, below + tail);
    TailIsKept(fs, below, name);
    TopIsKept(fs, t, app);
    assert below == top + ("/" + app);
    RemoveFront(top, "/" + app, p);
    hide AppDir, AppBelow;
    assert Stripped(t, RemoveAll("/" + app, p), name) == top + RemoveAll("/" + app, p) + tail;
  }

  lemma CommonDirStripped(fs: FileSystem, t: string, name: string)
    requires '/' !in t && '/' !in name
    ensures RemoveAll(CommonDir(fs, t) + name, ThemePrefix(fs)) == Stripped(t, [], name)
  {
    var p, rest := ThemePrefix(fs), Stripped(t, [], name);
    assert CommonDir(fs, t) + name == p + rest;
    DirsAreClean(fs, t, [], name);
    assert (p + rest)[|p|..] == rest;
    RemovePrefix(p, rest);
  }

  // The directories of a list

  /** The directory belongs to this theme and name. */
  ghost predicate Tagged(fs: FileSystem, dir: string, t: string, name: string) {
    exists middle :: RemoveAll(dir, ThemePrefix(fs)) == Stripped(t, middle, name)
  }

  /** Directories with the same key are next to each other. */
  predicate Adjacent(fs: FileSystem, dirs: seq<string>) {
    var p := ThemePrefix(fs);
    forall i, j :: 0 <= i < j < |dirs| && RemoveAll(dirs[i], p) == RemoveAll(dirs[j], p) ==> j == i + 1
  }

  ghost predicate Differ(fs: FileSystem, dirs: seq<string>, more: seq<string>) {
    forall i, j :: 0 <= i < |dirs| && 0 <= j < |more| ==>
      RemoveAll(dirs[i], ThemePrefix(fs)) != RemoveAll(more[j], ThemePrefix(fs))
  }

  lemma AdjacentConcat(fs: FileSystem, dirs: seq<string>, more: seq<string>)
    requires Adjacent(fs, dirs) && Adjacent(fs, more) && Differ(fs, dirs, more)
    ensures Adjacent(fs, dirs + more)
  {
    hide RemoveAll;
    var all, p := dirs + more, ThemePrefix(fs);
    forall i, j | 0 <= i < j < |all| ensures RemoveAll(all[i], p) == RemoveAll(all[j], p) ==> j == i + 1 {
      if i < |dirs| <= j {
        assert all[i] == dirs[i] && all[j] == more[j - |dirs|];
      } else if i >= |dirs| {
        assert all[i] == more[i - |dirs|] && all[j] == more[j - |dirs|];
      }
    }
  }

  lemma ThemeIsTagged(fs: FileSystem, t: string, app: string, name: string)
    requires PrefixApart(fs) && '/' !in t && '/' !in name && DEFAULT_THEME in fs.themes && t in fs.themes
    ensures Adjacent(fs, ThemeCandidates(fs, t, app, name))
    ensures forall dir :: dir in ThemeCandidates(fs, t, app, name) ==> Tagged(fs, dir, t, name)
  {
    AppDirStripped(fs, t, app, name);
    CommonDirStripped(fs, t, name);
    hide RemoveAll, AppNames, CommonNames, AppMayOverride;
    assert Tagged(fs, AppDir(fs, t, app) + name, t, name);
    assert Tagged(fs, CommonDir(fs, t) + name, t, name);
  }

  /** All directories belong to the name, and to themes of the chain. */
  ghost predicate ChainTagged(fs: FileSystem, dirs: seq<string>, chain: seq<string>, name: string) {
    forall dir :: dir in dirs ==> exists t :: t in chain && Tagged(fs, dir, t, name)
  }

  lemma OtherTagsDiffer(fs: FileSystem, dirs: seq<string>, chain: seq<string>, name: string, more: seq<string>,
                        chain': seq<string>, name': string)
    requires ChainTagged(fs, dirs, chain, name) && ChainTagged(fs, more, chain', name') && '/' !in name && '/' !in name'
    requires forall t :: t in chain || t in chain' ==> '/' !in t
    requires name != name' || forall t :: t in chain ==> t !in chain'
    ensures Differ(fs, dirs, more)
  {
    forall i, j | 0 <= i < |dirs| && 0 <= j < |more|
      ensures RemoveAll(dirs[i], ThemePrefix(fs)) != RemoveAll(more[j], ThemePrefix(fs))
    {
      assert dirs[i] in dirs && more[j] in more;
      var t :| t in chain && Tagged(fs, dirs[i], t, name);
      var t' :| t' in chain' && Tagged(fs, more[j], t', name');
      var m :| RemoveAll(dirs[i], ThemePrefix(fs)) == Stripped(t, m, name);
      var m' :| RemoveAll(more[j], ThemePrefix(fs)) == Stripped(t', m', name');
      hide RemoveAll, Stripped;
      if Stripped(t, m, name) == Stripped(t', m', name') {
        StrippedTells(t, m, name, t', m', name');
      }
    }
  }

  lemma {:induction false} ChainIsAdjacent(fs: FileSystem, chain: seq<string>, app: string, name: string)
    requires PrefixApart(fs) && '/' !in name && DEFAULT_THEME in fs.themes && Distinct(chain)
    requires forall t :: t in chain ==> t in fs.themes && '/' !in t
    ensures var dirs := ChainCandidates(fs, chain, app, name); Adjacent(fs, dirs) && ChainTagged(fs, dirs, chain, name)
    decreases |chain|
  {
    hide ThemeCandidates, Adjacent, PrefixApart, Tagged;
    if chain == [] {
      NothingIsAdjacent(fs);
    } else {
      var last, init := chain[|chain| - 1], chain[..|chain| - 1];
      var own, rest := ThemeCandidates(fs, last, app, name), ChainCandidates(fs, init, app, name);
      ChainIsAdjacent(fs, init, app, name);
      ThemeIsTagged(fs, last, app, name);
      assert last in chain && forall t :: t in init ==> t in chain && t != last;
      forall dir | dir in own ensures exists t :: t in [last] && Tagged(fs, dir, t, name) {
        assert last in [last];
      }
      OtherTagsDiffer(fs, own, [last], name, rest, init, name);
      AdjacentConcat(fs, own, rest);
      forall dir | dir in own + rest ensures exists t :: t in chain && Tagged(fs, dir, t, name) {
        if dir in rest {
          var t :| t in init && Tagged(fs, dir, t, name);
        }
      }
    }
  }

  lemma NothingIsAdjacent(fs: FileSystem)
    ensures Adjacent(fs, [])
  {
  }

  /** In every list the resolver hands out, directories with the same cache key are next to each other. */
  lemma ListsAreAdjacent(fs: FileSystem, theme: string, app: string, i: nat)
    requires WellFormed(fs) && DEFAULT_THEME in fs.themes && PrefixApart(fs) && i < |DirLists(fs, theme, app)|
    ensures Adjacent(fs, DirLists(fs, theme, app)[i])
  {
    FeedbackNamesDistinct(fs, app);
    ChainHasNoRepeats(fs, theme);
    ChainHasNoRepeats(fs, DEFAULT_THEME);
    EffectiveThemesExist(fs, theme);
    var chain, names := EffectiveChain(fs, theme), FeedbackNames(fs, app);
    var k := FallbackIndex(names, i);
    ChainIsAdjacent(fs, chain, app, names[i]);
    var own := ChainCandidates(fs, chain, app, names[i]);
    if k >= 0 {
      FallbackHasNoFallback(names, i);
      ChainIsAdjacent(fs, chain, app, names[k]);
      OtherTagsDiffer(fs, own, chain, names[i], ChainCandidates(fs, chain, app, names[k]), chain, names[k]);
      AdjacentConcat(fs, own, ChainCandidates(fs, chain, app, names[k]));
    } else {
      assert own + [] == own;
    }
  }
}
