/** The loops of mfutil: they compute the lists that module Theming describes. */
module MfUtil {
  import opened Text
  import opened Theming

  // Facts about directory names and listings

  lemma ValidNameHasNoSlash(name: string)
    requires ValidName(name)
    ensures '/' !in name
  {
    assert !ValidChar('/');
  }

  lemma {:induction false} FilterMembers<T>(s: seq<T>, keep: T -> bool)
    ensures forall x :: x in Filter(s, keep) <==> x in s && keep(x)
  {
    if s != [] {
      FilterMembers(s[1..], keep);
      assert forall x :: x in s <==> x == s[0] || x in s[1..];
    }
  }

  lemma {:induction false} FilterDistinct<T>(s: seq<T>, keep: T -> bool)
    requires Distinct(s)
    ensures Distinct(Filter(s, keep))
  {
    if s != [] {
      FilterDistinct(s[1..], keep);
      FilterMembers(s[1..], keep);
    }
  }

  lemma {:induction false} FilterSnoc<T>(s: seq<T>, x: T, keep: T -> bool)
    ensures Filter(s + [x], keep) == Filter(s, keep) + (if keep(x) then [x] else [])
  {
    if s != [] {
      FilterSnoc(s[1..], x, keep);
      assert (s + [x])[1..] == s[1..] + [x];
    }
  }

  lemma {:induction false} WithoutMembers(s: seq<string>, out: seq<string>)
    ensures forall x :: x in Without(s, out) <==> x in s && x !in out
    ensures Distinct(s) ==> Distinct(Without(s, out))
  {
    if s != [] {
      WithoutMembers(s[1..], out);
      assert forall x :: x in s <==> x == s[0] || x in s[1..];
    }
  }

  lemma {:induction false} WithoutSnoc(s: seq<string>, x: string, out: seq<string>)
    ensures Without(s + [x], out) == Without(s, out) + (if x !in out then [x] else [])
  {
    if s != [] {
      WithoutSnoc(s[1..], x, out);
      assert (s + [x])[1..] == s[1..] + [x];
    }
  }

  /** The usable names of a theme are distinct and contain no separator. */
  lemma NamesAreClean(fs: FileSystem, t: string, app: string)
    requires WellFormed(fs) && t in fs.themes
    ensures Distinct(CommonNames(fs, t)) && Distinct(AppNames(fs, t, app))
    ensures forall n :: n in CommonNames(fs, t) || n in AppNames(fs, t, app) ==> '/' !in n && ValidName(n)
  {
    FilterDistinct(fs.themes[t].common, ValidName);
    FilterMembers(fs.themes[t].common, ValidName);
    if app in fs.themes[t].apps {
      FilterDistinct(fs.themes[t].apps[app], ValidName);
      FilterMembers(fs.themes[t].apps[app], ValidName);
    }
    forall n | ValidName(n) ensures '/' !in n { ValidNameHasNoSlash(n); }
  }

  /** The names of an application's feedbacks are distinct. */
  lemma FeedbackNamesDistinct(fs: FileSystem, app: string)
    requires WellFormed(fs) && DEFAULT_THEME in fs.themes
    ensures Distinct(FeedbackNames(fs, app))
    ensures forall n :: n in FeedbackNames(fs, app) <==>
              n in CommonNames(fs, DEFAULT_THEME) || n in AppNames(fs, DEFAULT_THEME, app)
    ensures forall n :: n in FeedbackNames(fs, app) ==> '/' !in n && ValidName(n)
  {
    NamesAreClean(fs, DEFAULT_THEME, app);
    var common, own := CommonNames(fs, DEFAULT_THEME), AppNames(fs, DEFAULT_THEME, app);
    var extra := Without(own, common);
    WithoutMembers(own, common);
    assert forall j :: 0 <= j < |extra| ==> extra[j] in extra;
  }

  lemma PathSections(a: string, x: string, f: string, name: string)
    requires '/' !in f && '/' !in name
    ensures LastSection(a + "/" + x + "/" + f + "/" + name, '/') == name
    ensures ThirdLastSection(a + "/" + x + "/" + f + "/" + name, '/') == LastSection(x, '/')
  {
    SplitConcat(a + "/" + x + "/" + f, '/', name);
    SplitConcat(a + "/" + x, '/', f);
    SplitConcat(a, '/', x);
    SplitWhole(name, '/');
    SplitWhole(f, '/');
  }

  lemma CommonPathSections(fs: FileSystem, t: string, name: string)
    requires '/' !in name
    ensures LastSection(CommonDir(fs, t) + name, '/') == name
    ensures ThirdLastSection(CommonDir(fs, t) + name, '/') == MEEGOTOUCH
  {
    PathSections(ThemeRoot(fs, t), MEEGOTOUCH, FEEDBACKS, name);
    SplitWhole(MEEGOTOUCH, '/');
  }

  lemma AppPathSections(fs: FileSystem, t: string, app: string, name: string)
    requires '/' !in name
    ensures LastSection(AppDir(fs, t, app) + name, '/') == name
    ensures ThirdLastSection(AppDir(fs, t, app) + name, '/') == LastSection(app, '/')
  {
    PathSections(ThemeRoot(fs, t) + "/" + MEEGOTOUCH, app, FEEDBACKS, name);
  }

  lemma RootSections(fs: FileSystem, t: string)
    requires '/' !in t
    ensures LastSection(ThemeRoot(fs, t), '/') == t
  {
    assert ThemeRoot(fs, t) == ThemePrefix(fs) + ['/'] + t;
    LastSectionOf(ThemePrefix(fs), '/', t);
  }

  function Qualified(path: string, names: seq<string>): seq<string> {
    seq(|names|, i requires 0 <= i < |names| => path + names[i])
  }

  function PathNames(dirs: seq<string>): seq<string> {
    seq(|dirs|, i requires 0 <= i < |dirs| => LastSection(dirs[i], '/'))
  }

  lemma CommonPathNames(fs: FileSystem, t: string, names: seq<string>)
    requires forall n :: n in names ==> '/' !in n
    ensures PathNames(Qualified(CommonDir(fs, t), names)) == names
  {
    forall i | 0 <= i < |names| ensures LastSection(CommonDir(fs, t) + names[i], '/') == names[i] {
      CommonPathSections(fs, t, names[i]);
    }
  }

  lemma AppPathNames(fs: FileSystem, t: string, app: string, names: seq<string>)
    requires forall n :: n in names ==> '/' !in n
    ensures PathNames(Qualified(AppDir(fs, t, app), names)) == names
  {
    forall i | 0 <= i < |names| ensures LastSection(AppDir(fs, t, app) + names[i], '/') == names[i] {
      AppPathSections(fs, t, app, names[i]);
    }
  }

  // Directories of one theme

  /** The listing loop erases the entries with a bad name while it iterates and completes the others
      with the path, which leaves the usable entries, in order. */
  method GetFeedbackDirsFromPath(path: string, entries: seq<string>) returns (dirs: seq<string>)
    ensures dirs == Qualified(path, Filter(entries, ValidName))
  {
    dirs := entries;
    ghost var done := 0;
    var i := 0;
    while i < |dirs|
      invariant 0 <= i <= |dirs| && done + (|dirs| - i) == |entries| && 0 <= done
      invariant dirs[i..] == entries[done..]
      invariant dirs[..i] == Qualified(path, Filter(entries[..done], ValidName))
      decreases |dirs| - i
    {
      assert dirs[i] == dirs[i..][0] == entries[done];
      FilterSnoc(entries[..done], entries[done], ValidName);
      assert entries[..done + 1] == entries[..done] + [entries[done]];
      assert dirs[i..][1..] == entries[done..][1..];
      if !ValidName(dirs[i]) {
        dirs := dirs[..i] + dirs[i + 1..];
      } else {
        dirs := dirs[i := path + dirs[i]];
        i := i + 1;
      }
      done := done + 1;
    }
    assert entries[..done] == entries;
    assert dirs[..i] == dirs;
  }

  /** In the default theme the application's version replaces a common feedback where it stands. */
  function Overridden(fs: FileSystem, app: string, own: seq<string>): seq<string>
    requires DEFAULT_THEME in fs.themes
  {
    var common := CommonNames(fs, DEFAULT_THEME);
    seq(|common|, i requires 0 <= i < |common| =>
      (if common[i] in own then AppDir(fs, DEFAULT_THEME, app) else CommonDir(fs, DEFAULT_THEME)) + common[i]) +
    Qualified(AppDir(fs, DEFAULT_THEME, app), Without(own, common))
  }

  /** The directories of one theme: common ones first, except that in the default theme the
      application's directories take the place of the common ones they override. */
  function ThemeDirs(fs: FileSystem, t: string, app: string): seq<string>
    requires t in fs.themes
  {
    if t == DEFAULT_THEME then Overridden(fs, app, AppNames(fs, t, app))
    else Qualified(CommonDir(fs, t), CommonNames(fs, t)) + Qualified(AppDir(fs, t, app), AppNames(fs, t, app))
  }

  lemma OverriddenNames(fs: FileSystem, app: string, own: seq<string>)
    requires WellFormed(fs) && DEFAULT_THEME in fs.themes
    requires forall n :: n in own ==> '/' !in n
    ensures PathNames(Overridden(fs, app, own)) ==
            CommonNames(fs, DEFAULT_THEME) + Without(own, CommonNames(fs, DEFAULT_THEME))
  {
    NamesAreClean(fs, DEFAULT_THEME, app);
    var common := CommonNames(fs, DEFAULT_THEME);
    var extra := Without(own, common);
    WithoutMembers(own, common);
    AppPathNames(fs, DEFAULT_THEME, app, extra);
    CommonPathNames(fs, DEFAULT_THEME, common);
    AppPathNames(fs, DEFAULT_THEME, app, common);
    var dirs := Overridden(fs, app, own);
    forall i | 0 <= i < |dirs|
      ensures LastSection(dirs[i], '/') == (common + extra)[i]
    {
      if i < |common| {
        if common[i] in own {
          assert LastSection(dirs[i], '/') == PathNames(Qualified(AppDir(fs, DEFAULT_THEME, app), common))[i];
        } else {
          assert LastSection(dirs[i], '/') == PathNames(Qualified(CommonDir(fs, DEFAULT_THEME), common))[i];
        }
      } else {
        assert LastSection(dirs[i], '/') == PathNames(Qualified(AppDir(fs, DEFAULT_THEME, app), extra))[i - |common|];
      }
    }
  }

  lemma OverrideOne(fs: FileSystem, app: string, own: seq<string>, name: string, k: nat)
    requires WellFormed(fs) && DEFAULT_THEME in fs.themes
    requires k < |CommonNames(fs, DEFAULT_THEME)| && CommonNames(fs, DEFAULT_THEME)[k] == name
    ensures Overridden(fs, app, own + [name]) ==
            Overridden(fs, app, own)[k := AppDir(fs, DEFAULT_THEME, app) + name]
  {
    NamesAreClean(fs, DEFAULT_THEME, app);
    WithoutSnoc(own, name, CommonNames(fs, DEFAULT_THEME));
  }

  lemma AppendOne(fs: FileSystem, app: string, own: seq<string>, name: string)
    requires WellFormed(fs) && DEFAULT_THEME in fs.themes
    requires name !in CommonNames(fs, DEFAULT_THEME)
    ensures Overridden(fs, app, own + [name]) ==
            Overridden(fs, app, own) + [AppDir(fs, DEFAULT_THEME, app) + name]
  {
    WithoutSnoc(own, name, CommonNames(fs, DEFAULT_THEME));
  }

  /** The theme directory is given by the name of the theme under the theme prefix. */
  method GetFeedbackDirsOfATheme(fs: FileSystem, t: string, app: string) returns (dirs: seq<string>)
    requires WellFormed(fs) && t in fs.themes
    ensures dirs == ThemeDirs(fs, t, app)
  {
    dirs := GetFeedbackDirsFromPath(CommonDir(fs, t), fs.themes[t].common);
    if app !in fs.themes[t].apps {
      assert t == DEFAULT_THEME ==> dirs == Overridden(fs, app, []);
      return;
    }
    var own := GetFeedbackDirsFromPath(AppDir(fs, t, app), fs.themes[t].apps[app]);
    RootSections(fs, t);
    if LastSection(ThemeRoot(fs, t), '/') == DEFAULT_THEME {
      dirs := OverrideInDefaultTheme(fs, app, dirs, own);
    } else {
      dirs := dirs + own;
    }
  }

  method OverrideInDefaultTheme(fs: FileSystem, app: string, common: seq<string>, own: seq<string>)
    returns (dirs: seq<string>)
    requires WellFormed(fs) && DEFAULT_THEME in fs.themes
    requires common == Qualified(CommonDir(fs, DEFAULT_THEME), CommonNames(fs, DEFAULT_THEME))
    requires own == Qualified(AppDir(fs, DEFAULT_THEME, app), AppNames(fs, DEFAULT_THEME, app))
    ensures dirs == Overridden(fs, app, AppNames(fs, DEFAULT_THEME, app))
  {
    ghost var names := AppNames(fs, DEFAULT_THEME, app);
    NamesAreClean(fs, DEFAULT_THEME, app);
    dirs := common;
    assert dirs == Overridden(fs, app, names[..0]);
    for i1 := 0 to |own|
      invariant dirs == Overridden(fs, app, names[..i1])
    {
      assert names[i1] !in names[..i1];
      assert names[..i1 + 1] == names[..i1] + [names[i1]];
      dirs := OverrideOrAppend(fs, app, dirs, own[i1], names[..i1], names[i1]);
    }
    assert names[..|own|] == names;
  }

  method OverrideOrAppend(fs: FileSystem, app: string, start: seq<string>, path: string,
                          ghost own: seq<string>, ghost name: string)
    returns (dirs: seq<string>)
    requires WellFormed(fs) && DEFAULT_THEME in fs.themes
    requires start == Overridden(fs, app, own) && path == AppDir(fs, DEFAULT_THEME, app) + name
    requires name !in own && '/' !in name && forall n :: n in own ==> '/' !in n
    ensures dirs == Overridden(fs, app, own + [name])
  {
    ghost var commons := CommonNames(fs, DEFAULT_THEME);
    AppPathSections(fs, DEFAULT_THEME, app, name);
    OverriddenNames(fs, app, own);
    WithoutMembers(own, commons);
    dirs := start;
    var i2 := 0;
    while i2 < |dirs|
      invariant 0 <= i2 <= |dirs| && dirs == start
      invariant forall k :: 0 <= k < i2 ==> PathNames(start)[k] != name
    {
      assert LastSection(dirs[i2], '/') == PathNames(start)[i2];
      if LastSection(path, '/') == LastSection(dirs[i2], '/') {
        assert PathNames(start)[i2] in commons + Without(own, commons);
        assert i2 < |commons|;
        OverrideOne(fs, app, own, name, i2);
        dirs := dirs[i2 := path];
        return;
      }
      i2 := i2 + 1;
    }
    assert name !in PathNames(start);
    AppendOne(fs, app, own, name);
    dirs := dirs + [path];
  }

  /** The names of the base list: the common names at their own positions, then the application's own. */
  method GetFeedbackNames(fs: FileSystem, app: string) returns (names: Option<seq<string>>)
    requires WellFormed(fs)
    ensures names == if DEFAULT_THEME in fs.themes then Some(FeedbackNames(fs, app)) else None
  {
    if DEFAULT_THEME !in fs.themes {
      return None;
    }
    var dirs := GetFeedbackDirsOfATheme(fs, DEFAULT_THEME, app);
    ghost var paths := dirs;
    NamesAreClean(fs, DEFAULT_THEME, app);
    OverriddenNames(fs, app, AppNames(fs, DEFAULT_THEME, app));
    for i := 0 to |dirs|
      invariant |dirs| == |paths|
      invariant forall k :: 0 <= k < i ==> dirs[k] == LastSection(paths[k], '/')
      invariant forall k :: i <= k < |dirs| ==> dirs[k] == paths[k]
    {
      dirs := dirs[i := LastSection(dirs[i], '/')];
    }
    assert dirs == PathNames(paths);
    return Some(dirs);
  }

  // Candidate lists along the inheritance chain

  /** The test of the innermost loop: the directory is for this name, and a common directory counts
      only for the names that are common in the default theme. */
  predicate Picks(fs: FileSystem, dir: string, name: string)
    requires DEFAULT_THEME in fs.themes
  {
    && (name in CommonNames(fs, DEFAULT_THEME) || ThirdLastSection(dir, '/') != MEEGOTOUCH)
    && LastSection(dir, '/') == name
  }

  /** Prepending the picked directories one by one leaves them in reverse order. */
  function Picked(fs: FileSystem, dirs: seq<string>, name: string): seq<string>
    requires DEFAULT_THEME in fs.themes
  {
    if dirs == [] then []
    else
      var last := dirs[|dirs| - 1];
      (if Picks(fs, last, name) then [last] else []) + Picked(fs, dirs[..|dirs| - 1], name)
  }

  lemma {:induction false} PickedConcat(fs: FileSystem, a: seq<string>, b: seq<string>, name: string)
    requires DEFAULT_THEME in fs.themes
    ensures Picked(fs, a + b, name) == Picked(fs, b, name) + Picked(fs, a, name)
  {
    if b == [] {
      assert a + b == a;
    } else {
      var init := b[..|b| - 1];
      assert (a + b)[..|a + b| - 1] == a + init && (a + b)[|a + b| - 1] == b[|b| - 1];
      PickedConcat(fs, a, init, name);
    }
  }

  lemma {:induction false} PickedQualified(fs: FileSystem, dir: string, names: seq<string>, name: string, allowed: bool)
    requires DEFAULT_THEME in fs.themes && Distinct(names)
    requires forall n :: n in names ==> (Picks(fs, dir + n, name) <==> n == name && allowed)
    ensures Picked(fs, Qualified(dir, names), name) == if allowed && name in names then [dir + name] else []
  {
    if names != [] {
      var init := names[..|names| - 1];
      assert Qualified(dir, names)[..|names| - 1] == Qualified(dir, init);
      assert names == init + [names[|names| - 1]];
      PickedQualified(fs, dir, init, name, allowed);
    }
  }

  /** What the loops add for one inherited theme is what that theme contributes. */
  lemma PickedTheme(fs: FileSystem, t: string, app: string, name: string)
    requires WellFormed(fs) && DEFAULT_THEME in fs.themes && t in fs.themes && t != DEFAULT_THEME
    requires '/' !in name
    ensures Picked(fs, ThemeDirs(fs, t, app), name) == ThemeCandidates(fs, t, app, name)
  {
    NamesAreClean(fs, t, app);
    var common, own := CommonNames(fs, t), AppNames(fs, t, app);
    forall n | n in common
      ensures Picks(fs, CommonDir(fs, t) + n, name) <==> n == name && name in CommonNames(fs, DEFAULT_THEME)
    {
      CommonPathSections(fs, t, n);
    }
    forall n | n in own
      ensures Picks(fs, AppDir(fs, t, app) + n, name) <==> n == name && AppMayOverride(fs, app, name)
    {
      AppPathSections(fs, t, app, n);
    }
    PickedQualified(fs, CommonDir(fs, t), common, name, name in CommonNames(fs, DEFAULT_THEME));
    PickedQualified(fs, AppDir(fs, t, app), own, name, AppMayOverride(fs, app, name));
    PickedConcat(fs, Qualified(CommonDir(fs, t), common), Qualified(AppDir(fs, t, app), own), name);
  }

  /** A common directory of the default theme is never an application's directory. */
  lemma OverrideIsVisible(fs: FileSystem, app: string, name: string)
    ensures AppDir(fs, DEFAULT_THEME, app) + name != CommonDir(fs, DEFAULT_THEME) + name
  {
    assert |AppDir(fs, DEFAULT_THEME, app)| == |CommonDir(fs, DEFAULT_THEME)| + |app| + 1;
  }

  function BaseCandidates(fs: FileSystem, app: string, name: string): seq<string>
    requires DEFAULT_THEME in fs.themes
  {
    ChainCandidates(fs, [DEFAULT_THEME], app, name)
  }

  /** The first loop of getFeedbackDirLists: the two base lists are compared position by position, and
      both are reduced to names on the way. */
  method CompareBaseLists(final: seq<string>, defaults: seq<string>)
    returns (names: seq<string>, defaultNames: seq<string>, lists: seq<seq<string>>)
    requires |defaults| <= |final|
    ensures names == PathNames(final) && defaultNames == PathNames(defaults) && |lists| == |final|
    ensures forall i :: 0 <= i < |final| ==>
              lists[i] == [final[i]] + (if i < |defaults| && defaults[i] != final[i] then [defaults[i]] else [])
  {
    hide LastSection;
    names, defaultNames, lists := final, defaults, [];
    for i := 0 to |final|
      invariant |names| == |final| && |defaultNames| == |defaults| && |lists| == i
      invariant forall k :: 0 <= k < i ==> names[k] == LastSection(final[k], '/')
      invariant forall k :: i <= k < |final| ==> names[k] == final[k]
      invariant forall k :: 0 <= k < i && k < |defaults| ==> defaultNames[k] == LastSection(defaults[k], '/')
      invariant forall k :: i <= k < |defaults| ==> defaultNames[k] == defaults[k]
      invariant forall k :: 0 <= k < i ==>
                  lists[k] == [final[k]] + (if k < |defaults| && defaults[k] != final[k] then [defaults[k]] else [])
    {
      var lowest := if i < |defaults| && defaultNames[i] != names[i] then [defaultNames[i]] else [];
      lists := lists + [[names[i]] + lowest];
      if i < |defaults| {
        defaultNames := defaultNames[i := LastSection(defaultNames[i], '/')];
      }
      names := names[i := LastSection(names[i], '/')];
    }
  }

  /** The lists of the default theme alone: the comparison finds exactly the overridden common feedbacks. */
  method BaseLists(fs: FileSystem, app: string)
    returns (names: seq<string>, defaults: seq<string>, lists: seq<seq<string>>)
    requires WellFormed(fs) && DEFAULT_THEME in fs.themes
    ensures names == FeedbackNames(fs, app) && defaults == CommonNames(fs, DEFAULT_THEME)
    ensures |lists| == |names|
    ensures forall i :: 0 <= i < |names| ==> lists[i] == BaseCandidates(fs, app, names[i])
  {
    NamesAreClean(fs, DEFAULT_THEME, app);
    ghost var own, common := AppNames(fs, DEFAULT_THEME, app), CommonNames(fs, DEFAULT_THEME);
    var commonDirs := GetFeedbackDirsFromPath(CommonDir(fs, DEFAULT_THEME), fs.themes[DEFAULT_THEME].common);
    var final := GetFeedbackDirsOfATheme(fs, DEFAULT_THEME, app);
    OverriddenNames(fs, app, own);
    CommonPathNames(fs, DEFAULT_THEME, common);
    names, defaults, lists := CompareBaseLists(final, commonDirs);
    forall i | 0 <= i < |names| ensures lists[i] == BaseCandidates(fs, app, names[i]) {
      BaseEntry(fs, app, i);
    }
  }

  /** At each position of the base list: the final directory, then the common one if it was overridden. */
  lemma BaseEntry(fs: FileSystem, app: string, i: nat)
    requires WellFormed(fs) && DEFAULT_THEME in fs.themes && i < |FeedbackNames(fs, app)|
    ensures var common, own := CommonNames(fs, DEFAULT_THEME), AppNames(fs, DEFAULT_THEME, app);
            var dirs, name := Overridden(fs, app, own), FeedbackNames(fs, app)[i];
            |dirs| == |FeedbackNames(fs, app)| &&
            BaseCandidates(fs, app, name) ==
              [dirs[i]] + (if i < |common| && CommonDir(fs, DEFAULT_THEME) + common[i] != dirs[i]
                           then [CommonDir(fs, DEFAULT_THEME) + common[i]] else [])
  {
    var common, own := CommonNames(fs, DEFAULT_THEME), AppNames(fs, DEFAULT_THEME, app);
    var name := FeedbackNames(fs, app)[i];
    WithoutMembers(own, common);
    OverrideIsVisible(fs, app, name);
    var chain := [DEFAULT_THEME];
    assert chain[..0] == [];
    assert ChainCandidates(fs, chain, app, name) == ThemeCandidates(fs, DEFAULT_THEME, app, name) + [];
    if i >= |common| {
      assert name in Without(own, common);
    }
  }

  /** The two inner loops of getFeedbackDirLists, for the directories of one inherited theme. */
  method PrependTheme(fs: FileSystem, names: seq<string>, defaults: seq<string>, start: seq<seq<string>>,
                      dirs: seq<string>)
    returns (lists: seq<seq<string>>)
    requires DEFAULT_THEME in fs.themes && defaults == CommonNames(fs, DEFAULT_THEME)
    requires |names| == |start| && Distinct(names)
    ensures |lists| == |names|
    ensures forall k :: 0 <= k < |names| ==> lists[k] == Picked(fs, dirs, names[k]) + start[k]
  {
    lists := start;
    for i1 := 0 to |dirs|
      invariant |lists| == |names|
      invariant forall k :: 0 <= k < |names| ==> lists[k] == Picked(fs, dirs[..i1], names[k]) + start[k]
    {
      lists := PrependDir(fs, names, defaults, lists, dirs[i1]);
      assert dirs[..i1 + 1][..i1] == dirs[..i1];
    }
    assert dirs[..|dirs|] == dirs;
  }

  method PrependDir(fs: FileSystem, names: seq<string>, defaults: seq<string>, start: seq<seq<string>>, dir: string)
    returns (lists: seq<seq<string>>)
    requires DEFAULT_THEME in fs.themes && defaults == CommonNames(fs, DEFAULT_THEME)
    requires |names| == |start| && Distinct(names)
    ensures |lists| == |names|
    ensures forall k :: 0 <= k < |names| ==>
              lists[k] == (if Picks(fs, dir, names[k]) then [dir] else []) + start[k]
  {
    lists := start;
    for i2 := 0 to |names|
      invariant lists == start
      invariant forall k :: 0 <= k < i2 ==> !Picks(fs, dir, names[k])
    {
      if names[i2] !in defaults && ThirdLastSection(dir, '/') == MEEGOTOUCH {
        continue;
      }
      if LastSection(dir, '/') == names[i2] {
        lists := lists[i2 := [dir] + lists[i2]];
        break;
      }
    }
  }

  /** The in-place loop of findFeedbackFallbackPaths appends to each list the original list of its
      fallback: a fallback name has no dash, so its own list is never extended. */
  method FindFeedbackFallbackPaths(names: seq<string>, start: seq<seq<string>>) returns (lists: seq<seq<string>>)
    requires |names| == |start|
    ensures lists == WithFallbacks(names, start)
  {
    lists := start;
    for i := 0 to |names|
      invariant |lists| == |start|
      invariant forall k :: 0 <= k < i ==> lists[k] == WithFallbacks(names, start)[k]
      invariant forall k :: i <= k < |lists| ==> lists[k] == start[k]
    {
      if '-' in names[i] {
        var baseName := FallbackName(names[i]);
        if baseName != [] {
          var fallback := IndexOf(names, baseName);
          if fallback >= 0 {
            FallbackHasNoFallback(names, i);
            lists := lists[i := lists[i] + lists[fallback]];
          }
        }
      }
    }
  }

  /** A fallback name has no dash, so it is not the name that falls back on it, and it does not fall
      back on anything itself. */
  lemma FallbackHasNoFallback(names: seq<string>, i: nat)
    requires i < |names| && FallbackIndex(names, i) >= 0
    ensures var k := FallbackIndex(names, i);
            '-' !in names[k] && k != i && FallbackIndex(names, k) == -1 && names[k] == FallbackName(names[i])
  {
    SectionsAreClean(names[i], '-');
    FirstNonEmptyIsSection(Split(names[i], '-'));
  }

  /** The whole resolver. Without the default theme the process ends (None). */
  method GetFeedbackDirLists(fs: FileSystem, theme: string, app: string) returns (lists: Option<seq<seq<string>>>)
    requires WellFormed(fs)
    ensures lists == if DEFAULT_THEME in fs.themes then Some(DirLists(fs, theme, app)) else None
  {
    hide ThemeDirs, Picked, FallbackIndex, FallbackName;
    var chain := Chain(fs, theme);
    if chain == [] {
      chain := Chain(fs, DEFAULT_THEME);
      if chain == [] {
        return None;
      }
    }
    ChainOfTheResolver(fs, theme);
    var names, defaults, result := BaseLists(fs, app);
    FeedbackNamesDistinct(fs, app);
    assert chain[..1] == [DEFAULT_THEME];
    for i := 1 to |chain|
      invariant |result| == |names|
      invariant forall k :: 0 <= k < |names| ==> result[k] == ChainCandidates(fs, chain[..i], app, names[k])
    {
      var dirs := GetFeedbackDirsOfATheme(fs, chain[i], app);
      result := PrependTheme(fs, names, defaults, result, dirs);
      forall k | 0 <= k < |names| ensures result[k] == ChainCandidates(fs, chain[..i + 1], app, names[k]) {
        ChainStep(fs, chain, i, app, names[k]);
      }
    }
    assert chain[..|chain|] == chain;
    assert result == Candidates(fs, theme, app);
    result := FindFeedbackFallbackPaths(names, result);
    return Some(result);
  }

  lemma ChainStep(fs: FileSystem, chain: seq<string>, i: nat, app: string, name: string)
    requires WellFormed(fs) && DEFAULT_THEME in fs.themes && i < |chain| && '/' !in name
    requires chain[i] != DEFAULT_THEME && forall t :: t in chain ==> t in fs.themes
    ensures Picked(fs, ThemeDirs(fs, chain[i], app), name) + ChainCandidates(fs, chain[..i], app, name) ==
            ChainCandidates(fs, chain[..i + 1], app, name)
  {
    PickedTheme(fs, chain[i], app, name);
    assert chain[..i + 1][..i] == chain[..i];
  }

  lemma ChainOfTheResolver(fs: FileSystem, theme: string)
    requires WellFormed(fs) && EffectiveChain(fs, theme) != []
    ensures DEFAULT_THEME in fs.themes
    ensures var chain := EffectiveChain(fs, theme);
            chain[0] == DEFAULT_THEME &&
            (forall i :: 0 < i < |chain| ==> chain[i] != DEFAULT_THEME) &&
            (forall t :: t in chain ==> t in fs.themes)
  {
    var t := if Chain(fs, theme) == [] then DEFAULT_THEME else theme;
    ChainCharacterized(fs, t, EffectiveChain(fs, theme));
    ChainHasNoRepeats(fs, t);
    ChainThemesExist(fs, t);
  }
}
