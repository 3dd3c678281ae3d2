/** What sessions rely on: the resolver gives every theme the same feedback names, in the same order,
    with at least one directory each, and never a directory that hides the theme prefix twice. */
module Resolver {
  import opened Text
  import opened Theming
  import opened MfUtil
  import Handles

  /** Every candidate of a feedback carries its name, and there is at least one: the feedback's
      entry in the default theme. */
  lemma {:induction false} CandidatesCarryName(fs: FileSystem, chain: seq<string>, app: string, name: string)
    requires WellFormed(fs) && chain != [] && chain[0] == DEFAULT_THEME && '/' !in name
    requires DEFAULT_THEME in fs.themes && forall t :: t in chain ==> t in fs.themes
    requires name in FeedbackNames(fs, app)
    ensures ChainCandidates(fs, chain, app, name) != []
    ensures forall dir :: dir in ChainCandidates(fs, chain, app, name) ==> LastSection(dir, '/') == name
    decreases |chain|
  {
    var last, init := chain[|chain| - 1], chain[..|chain| - 1];
    CommonPathSections(fs, last, name);
    AppPathSections(fs, last, app, name);
    FeedbackNamesDistinct(fs, app);
    if init != [] {
      CandidatesCarryName(fs, init, app, name);
    }
  }

  /** Stable names: for every theme, broken chains included, the names that a session reads off the
      lists are the names of the application, in the same order and without duplicates. */
  lemma NamesAreStable(fs: FileSystem, theme: string, app: string)
    requires WellFormed(fs) && DEFAULT_THEME in fs.themes
    ensures var lists, names := DirLists(fs, theme, app), FeedbackNames(fs, app);
            |lists| == |names| && Distinct(names) &&
            forall i :: 0 <= i < |lists| ==> lists[i] != [] && LastSection(lists[i][0], '/') == names[i]
  {
    FeedbackNamesDistinct(fs, app);
    assert Chain(fs, DEFAULT_THEME) == [DEFAULT_THEME];
    ChainOfTheResolver(fs, theme);
    var lists, names := DirLists(fs, theme, app), FeedbackNames(fs, app);
    forall i | 0 <= i < |lists| ensures lists[i] != [] && LastSection(lists[i][0], '/') == names[i] {
      CandidatesCarryName(fs, EffectiveChain(fs, theme), app, names[i]);
      assert Candidates(fs, theme, app)[i] <= lists[i];
      assert lists[i][0] in Candidates(fs, theme, app)[i];
    }
  }

  /** As documented, "press" is the fallback of "press-something". */
  lemma PartBeforeDashIsFallback(a: string, b: string)
    requires a != [] && '-' !in a
    ensures FallbackName(a + ['-'] + b) == a
  {
    SplitConcat(a, '-', b);
    SplitWhole(a, '-');
  }

  /** Not documented: a dash in front is skipped, so "-press" falls back on "press" as well. */
  lemma LeadingDashIsSkipped(name: string)
    ensures FallbackName(['-'] + name) == FallbackName(name)
  {
    SplitCons('-', name, '-');
    var parts := Split(name, '-');
    assert ([[]] + parts)[1..] == parts;
  }

  /** Override alignment in the default theme: the base list has the application's names, each once, a
      common name where the common list has it; and comparing the two lists position by position finds
      exactly the common feedbacks that the application overrides. */
  lemma OverridesAreAligned(fs: FileSystem, app: string)
    requires WellFormed(fs) && DEFAULT_THEME in fs.themes
    ensures var dirs, common := ThemeDirs(fs, DEFAULT_THEME, app), CommonNames(fs, DEFAULT_THEME);
            var own, commonDirs := AppNames(fs, DEFAULT_THEME, app), Qualified(CommonDir(fs, DEFAULT_THEME), common);
            PathNames(dirs) == FeedbackNames(fs, app) && Distinct(PathNames(dirs)) && common <= PathNames(dirs) &&
            (forall n :: n in PathNames(dirs) <==> n in common || n in own) &&
            (forall i :: 0 <= i < |common| ==> (dirs[i] != commonDirs[i] <==> common[i] in own))
  {
    FeedbackNamesDistinct(fs, app);
    NamesAreClean(fs, DEFAULT_THEME, app);
    OverriddenNames(fs, app, AppNames(fs, DEFAULT_THEME, app));
    var common := CommonNames(fs, DEFAULT_THEME);
    forall i | 0 <= i < |common|
      ensures AppDir(fs, DEFAULT_THEME, app) + common[i] != CommonDir(fs, DEFAULT_THEME) + common[i]
    {
      OverrideIsVisible(fs, app, common[i]);
    }
  }

  /** A theme whose chain is broken is treated as the default theme. */
  lemma BrokenChainMeansDefault(fs: FileSystem, theme: string, app: string)
    requires Acyclic(fs) && DEFAULT_THEME in fs.themes
    requires !exists c :: IsChain(fs, c, theme)
    ensures DirLists(fs, theme, app) == DirLists(fs, DEFAULT_THEME, app)
  {
    if Chain(fs, theme) != [] {
      ChainCharacterized(fs, theme, Chain(fs, theme));
      assert false;
    }
  }

  /** What one would expect a theme to contribute: its version for the application whenever there is
      one, then its common version of a common name. */
  function PlainCandidates(fs: FileSystem, t: string, app: string, name: string): seq<string>
    requires DEFAULT_THEME in fs.themes && t in fs.themes
  {
    (if name in AppNames(fs, t, app) then [AppDir(fs, t, app) + name] else []) +
    (if name in CommonNames(fs, t) && name in CommonNames(fs, DEFAULT_THEME) then [CommonDir(fs, t) + name] else [])
  }

  function PlainChain(fs: FileSystem, chain: seq<string>, app: string, name: string): seq<string>
    requires DEFAULT_THEME in fs.themes && forall t :: t in chain ==> t in fs.themes
  {
    if chain == [] then []
    else PlainCandidates(fs, chain[|chain| - 1], app, name) + PlainChain(fs, chain[..|chain| - 1], app, name)
  }

  /** The candidate lists one would expect. */
  function PlainLists(fs: FileSystem, theme: string, app: string): seq<seq<string>>
    requires Acyclic(fs) && DEFAULT_THEME in fs.themes
  {
    var chain, names := EffectiveChain(fs, theme), FeedbackNames(fs, app);
    ChainThemesExist(fs, theme);
    ChainThemesExist(fs, DEFAULT_THEME);
    WithFallbacks(names, seq(|names|, i requires 0 <= i < |names| => PlainChain(fs, chain, app, names[i])))
  }

  /** A derived theme has a version of a feedback that only the application has, and the resolver takes
      its directory for a common one because the application's name ends in the section "meegotouch". */
  predicate Misread(fs: FileSystem, t: string, app: string, name: string)
    requires DEFAULT_THEME in fs.themes && t in fs.themes
  {
    && t != DEFAULT_THEME && name in AppNames(fs, t, app)
    && name !in CommonNames(fs, DEFAULT_THEME) && LastSection(app, '/') == MEEGOTOUCH
  }

  lemma {:induction false} MisreadThemesAreMissed(fs: FileSystem, chain: seq<string>, app: string, name: string)
    requires DEFAULT_THEME in fs.themes && forall t :: t in chain ==> t in fs.themes
    ensures var found, plain := ChainCandidates(fs, chain, app, name), PlainChain(fs, chain, app, name);
            if exists t :: t in chain && Misread(fs, t, app, name) then |found| < |plain| else found == plain
    decreases |chain|
  {
    if chain != [] {
      var last, init := chain[|chain| - 1], chain[..|chain| - 1];
      MisreadThemesAreMissed(fs, init, app, name);
      var found, plain := ThemeCandidates(fs, last, app, name), PlainCandidates(fs, last, app, name);
      assert if Misread(fs, last, app, name) then |found| < |plain| else found == plain;
      hide Misread, ThemeCandidates, PlainCandidates;
      assert forall t :: t in chain <==> t == last || t in init;
      assert (exists t :: t in chain && Misread(fs, t, app, name)) <==>
             Misread(fs, last, app, name) || exists t :: t in init && Misread(fs, t, app, name);
    }
  }

  lemma EffectiveThemesExist(fs: FileSystem, theme: string)
    requires Acyclic(fs)
    ensures forall t :: t in EffectiveChain(fs, theme) ==> t in fs.themes
  {
    ChainThemesExist(fs, theme);
    ChainThemesExist(fs, DEFAULT_THEME);
  }

  /** The resolver tells common directories from application directories by the third section from the
      end. So it gives the expected lists exactly if this misreads no theme of the chain. */
  lemma PlainExactlyWhen(fs: FileSystem, theme: string, app: string)
    requires Acyclic(fs) && DEFAULT_THEME in fs.themes
    ensures DirLists(fs, theme, app) == PlainLists(fs, theme, app) <==>
            forall t, name | t in EffectiveChain(fs, theme) && t in fs.themes && name in FeedbackNames(fs, app) ::
              !Misread(fs, t, app, name)
  {
    hide Acyclic, EffectiveChain, FeedbackNames, FallbackIndex, ChainCandidates, PlainChain, Misread;
    var chain, names := EffectiveChain(fs, theme), FeedbackNames(fs, app);
    EffectiveThemesExist(fs, theme);
    var lists, plain := DirLists(fs, theme, app), PlainLists(fs, theme, app);
    forall i | 0 <= i < |names|
      ensures (exists t :: t in chain && Misread(fs, t, app, names[i])) ==> |lists[i]| < |plain[i]|
      ensures (forall t, name :: t in chain && name in names ==> !Misread(fs, t, app, name)) ==> lists[i] == plain[i]
    {
      MisreadListsAreShort(fs, chain, app, names, i);
    }
    hide *;
    if !forall t, name :: t in chain && name in names ==> !Misread(fs, t, app, name) {
      var t, name :| t in chain && name in names && Misread(fs, t, app, name);
      var i :| 0 <= i < |names| && names[i] == name;
      assert |lists[i]| < |plain[i]|;
    }
  }

  lemma MisreadListsAreShort(fs: FileSystem, chain: seq<string>, app: string, names: seq<string>, i: nat)
    requires DEFAULT_THEME in fs.themes && (forall t :: t in chain ==> t in fs.themes) && i < |names|
    ensures var k := FallbackIndex(names, i);
            var found := ChainCandidates(fs, chain, app, names[i]) +
                         (if k >= 0 then ChainCandidates(fs, chain, app, names[k]) else []);
            var plain := PlainChain(fs, chain, app, names[i]) +
                         (if k >= 0 then PlainChain(fs, chain, app, names[k]) else []);
            (if exists t :: t in chain && Misread(fs, t, app, names[i]) then |found| < |plain|
             else |found| <= |plain|) &&
            ((forall t, name :: t in chain && name in names ==> !Misread(fs, t, app, name)) ==> found == plain)
  {
    hide Misread, ChainCandidates, PlainChain;
    MisreadThemesAreMissed(fs, chain, app, names[i]);
    var k := FallbackIndex(names, i);
    if k >= 0 {
      MisreadThemesAreMissed(fs, chain, app, names[k]);
    }
  }

  ghost predicate ResolvesPlainly(app: string) {
    forall fs: FileSystem, theme {:trigger DirLists(fs, theme, app)} :: WellFormed(fs) && DEFAULT_THEME in fs.themes ==>
      DirLists(fs, theme, app) == PlainLists(fs, theme, app)
  }

  /** A derived theme has a version of a feedback that only the application has. */
  function MisreadFileSystem(app: string): FileSystem {
    FileSystem("/usr", map[
      DEFAULT_THEME := Theme(NoFile, [], map[app := ["a"]]),
      "x" := Theme(Inherits(DEFAULT_THEME), [], map[app := ["a"]])])
  }

  /** So all installed themes are resolved as expected exactly for the applications whose name does not
      end in the section "meegotouch". */
  lemma AlwaysPlainExactlyWhen(app: string)
    ensures ResolvesPlainly(app) <==> LastSection(app, '/') != MEEGOTOUCH
  {
    if LastSection(app, '/') != MEEGOTOUCH {
      forall fs: FileSystem, theme | WellFormed(fs) && DEFAULT_THEME in fs.themes
        ensures DirLists(fs, theme, app) == PlainLists(fs, theme, app)
      {
        PlainExactlyWhen(fs, theme, app);
      }
    } else {
      var fs := MisreadFileSystem(app);
      assert |DEFAULT_THEME| == 4 && |"x"| == 1;
      assert fs.themes["x"].apps[app] == ["a"] && fs.themes[DEFAULT_THEME].common == [];
      assert Ranked(fs, map[DEFAULT_THEME := 0, "x" := 1]);
      assert WellFormed(fs);
      assert ValidName("a");
      assert Filter(["a"], ValidName) == ["a"] + Filter([], ValidName);
      assert DeclaresParent(fs, "x", DEFAULT_THEME);
      ChainCharacterized(fs, "x", [DEFAULT_THEME, "x"]);
      assert "x" in EffectiveChain(fs, "x") && "a" in FeedbackNames(fs, app);
      assert "a" in AppNames(fs, "x", app) && "a" !in CommonNames(fs, DEFAULT_THEME);
      PlainExactlyWhen(fs, "x", app);
      assert DirLists(fs, "x", app) != PlainLists(fs, "x", app);
    }
  }

  // The theme prefix occurs once in a feedback directory

  /** The part of an application's directory below the prefix, up to the application's name. */
  function AppBelow(t: string, app: string): string {
    "/" + t + "/" + MEEGOTOUCH + "/" + app
  }

  /** The name of the application brings the theme prefix into its directory once more. */
  ghost predicate HidesPrefix(fs: FileSystem, t: string, app: string) {
    Occurs(AppBelow(t, app), ThemePrefix(fs))
  }

  /** The last separator in an occurrence of the prefix is preceded by "share" and followed by "themes". */
  lemma LastSlash(mfPrefix: string, s: string, i: int)
    requires OccursAt(s, mfPrefix + "/share/themes", i)
    ensures var k := i + |mfPrefix| + 6;
            6 <= k && k + 7 == i + |mfPrefix| + 13 <= |s| && s[k - 1] == 'e' && s[k] == '/' && s[k + 1] == 't' &&
            forall j :: k < j < k + 7 ==> s[j] != '/'
  {
    var p, k := mfPrefix + "/share/themes", i + |mfPrefix| + 6;
    assert s[i..i + |p|] == p && |p| == |mfPrefix| + 13;
    assert forall j :: 0 <= j < |p| ==> s[i + j] == p[j];
    assert p[|mfPrefix|..] == "/share/themes";
    assert forall j :: 0 <= j < 13 ==> p[|mfPrefix| + j] == "/share/themes"[j];
    forall j | k < j < k + 7 ensures s[j] != '/' {
      assert s[i + (j - i)] == p[|mfPrefix| + (j - i - |mfPrefix|)];
    }
  }

  lemma EndsInside(below: string, name: string, k: int)
    requires '/' !in name && 6 <= k && k + 7 <= |below + "/" + FEEDBACKS + "/" + name|
    requires var whole := below + "/" + FEEDBACKS + "/" + name;
             whole[k - 1] == 'e' && whole[k] == '/' && whole[k + 1] == 't' &&
             forall j :: k < j < k + 7 ==> whole[j] != '/'
    ensures k + 7 <= |below|
  {
    var tail := "/" + FEEDBACKS + "/" + name;
    var whole := below + tail;
    assert whole == below + "/" + FEEDBACKS + "/" + name;
    assert tail[0] == '/' && tail[1] == 'f' && tail[9] == 's';
    assert forall j :: 0 < j < |tail| && tail[j] == '/' ==> j == 10;
    assert forall j :: 0 <= j < |tail| ==> whole[|below| + j] == tail[j];
  }

  lemma OccursInside(mfPrefix: string, below: string, name: string, i: int)
    requires '/' !in name
    ensures var p := mfPrefix + "/share/themes";
            OccursAt(below + "/" + FEEDBACKS + "/" + name, p, i) <==> OccursAt(below, p, i)
  {
    var p, whole := mfPrefix + "/share/themes", below + "/" + FEEDBACKS + "/" + name;
    if OccursAt(whole, p, i) {
      LastSlash(mfPrefix, whole, i);
      EndsInside(below, name, i + |mfPrefix| + 6);
    }
    if 0 <= i && i + |p| <= |below| {
      assert whole[i..i + |p|] == below[i..i + |p|];
    }
  }

  lemma TopHidesNothing(mfPrefix: string, t: string, i: int)
    requires '/' !in t
    ensures !OccursAt("/" + t + "/" + MEEGOTOUCH, mfPrefix + "/share/themes", i)
  {
    if OccursAt("/" + t + "/" + MEEGOTOUCH, mfPrefix + "/share/themes", i) {
      LastSlash(mfPrefix, "/" + t + "/" + MEEGOTOUCH, i);
    }
  }

  /** Nothing that follows the application's name can complete an occurrence of the prefix. */
  lemma DirsAreClean(fs: FileSystem, t: string, app: string, name: string)
    requires '/' !in t && '/' !in name
    ensures CleanPath(ThemePrefix(fs), CommonDir(fs, t) + name)
    ensures CleanPath(ThemePrefix(fs), AppDir(fs, t, app) + name) <==> !HidesPrefix(fs, t, app)
  {
    var prefix, top, below := ThemePrefix(fs), "/" + t + "/" + MEEGOTOUCH, AppBelow(t, app);
    assert (CommonDir(fs, t) + name)[|prefix|..] == top + "/" + FEEDBACKS + "/" + name;
    assert (AppDir(fs, t, app) + name)[|prefix|..] == below + "/" + FEEDBACKS + "/" + name;
    assert prefix <= CommonDir(fs, t) + name && prefix <= AppDir(fs, t, app) + name;
    hide AppBelow, OccursAt, CommonDir, AppDir;
    forall i ensures !OccursAt(top + "/" + FEEDBACKS + "/" + name, prefix, i) {
      TopHidesNothing(fs.mfPrefix, t, i);
      OccursInside(fs.mfPrefix, top, name, i);
    }
    forall i ensures OccursAt(below + "/" + FEEDBACKS + "/" + name, prefix, i) <==> OccursAt(below, prefix, i) {
      OccursInside(fs.mfPrefix, below, name, i);
    }
  }

  /** Ordinary names hide no prefix. */
  lemma PlainNamesHideNothing(fs: FileSystem, t: string, app: string)
    requires '/' !in t && '/' !in app
    ensures !HidesPrefix(fs, t, app)
  {
    forall i ensures !OccursAt(AppBelow(t, app), ThemePrefix(fs), i) {
      if OccursAt(AppBelow(t, app), ThemePrefix(fs), i) {
        LastSlash(fs.mfPrefix, AppBelow(t, app), i);
      }
    }
  }

  /** The theme's version for the application is among the candidates. */
  predicate Contributes(fs: FileSystem, t: string, app: string, name: string)
    requires DEFAULT_THEME in fs.themes && t in fs.themes
  {
    name in AppNames(fs, t, app) && (t == DEFAULT_THEME || AppMayOverride(fs, app, name))
  }

  ghost predicate CleanList(fs: FileSystem, dirs: seq<string>) {
    forall dir :: dir in dirs ==> CleanPath(ThemePrefix(fs), dir)
  }

  ghost predicate AllClean(fs: FileSystem, lists: seq<seq<string>>) {
    forall i :: 0 <= i < |lists| ==> CleanList(fs, lists[i])
  }

  /** No theme of the chain contributes a directory in which the prefix comes in once more. */
  ghost predicate NoneHides(fs: FileSystem, chain: seq<string>, app: string, name: string)
    requires DEFAULT_THEME in fs.themes && forall t :: t in chain ==> t in fs.themes
  {
    forall t :: t in chain && Contributes(fs, t, app, name) ==> !HidesPrefix(fs, t, app)
  }

  lemma CleanConcat(fs: FileSystem, dirs: seq<string>, more: seq<string>)
    ensures CleanList(fs, dirs + more) <==> CleanList(fs, dirs) && CleanList(fs, more)
  {
    hide CleanPath;
    assert forall dir :: dir in dirs + more <==> dir in dirs || dir in more;
  }

  lemma NothingIsClean(fs: FileSystem)
    ensures CleanList(fs, [])
  {
  }

  lemma ContributionIsClean(fs: FileSystem, t: string, app: string, name: string)
    requires WellFormed(fs) && '/' !in name && DEFAULT_THEME in fs.themes && t in fs.themes
    ensures CleanList(fs, ThemeCandidates(fs, t, app, name)) <==>
            (Contributes(fs, t, app, name) ==> !HidesPrefix(fs, t, app))
  {
    DirsAreClean(fs, t, app, name);
    hide CleanPath, HidesPrefix, AppNames, CommonNames, AppDir, CommonDir, AppMayOverride;
    assert Contributes(fs, t, app, name) ==> ThemeCandidates(fs, t, app, name)[0] == AppDir(fs, t, app) + name;
  }

  lemma {:induction false} CandidatesAreClean(fs: FileSystem, chain: seq<string>, app: string, name: string)
    requires WellFormed(fs) && '/' !in name && DEFAULT_THEME in fs.themes
    requires forall t :: t in chain ==> t in fs.themes
    ensures CleanList(fs, ChainCandidates(fs, chain, app, name)) <==> NoneHides(fs, chain, app, name)
    decreases |chain|
  {
    hide WellFormed, HidesPrefix, ThemeCandidates, Contributes;
    if chain != [] {
      var last, init := chain[|chain| - 1], chain[..|chain| - 1];
      ContributionIsClean(fs, last, app, name);
      CandidatesAreClean(fs, init, app, name);
      CleanConcat(fs, ThemeCandidates(fs, last, app, name), ChainCandidates(fs, init, app, name));
      hide CleanList;
      assert forall t :: t in chain <==> t == last || t in init;
    }
  }

  /** The fallback brings in no directories of its own. */
  lemma FallbacksAddNothing(fs: FileSystem, names: seq<string>, plain: seq<seq<string>>)
    requires |names| == |plain|
    ensures AllClean(fs, WithFallbacks(names, plain)) <==> AllClean(fs, plain)
  {
    hide CleanList, FallbackIndex;
    var lists := WithFallbacks(names, plain);
    forall i | 0 <= i < |names|
      ensures var k := FallbackIndex(names, i);
              CleanList(fs, lists[i]) <==> CleanList(fs, plain[i]) && (k >= 0 ==> CleanList(fs, plain[k]))
    {
      var k := FallbackIndex(names, i);
      CleanConcat(fs, plain[i], if k >= 0 then plain[k] else []);
      NothingIsClean(fs);
    }
    if AllClean(fs, lists) {
      forall i | 0 <= i < |plain| ensures CleanList(fs, plain[i]) {
        assert CleanList(fs, lists[i]);
      }
    }
  }

  /** Every directory the resolver hands out contains the theme prefix exactly once, exactly if no theme
      of the chain contributes a directory in which the application's name brings it in once more. */
  lemma ResolvedDirsAreClean(fs: FileSystem, theme: string, app: string)
    requires WellFormed(fs) && DEFAULT_THEME in fs.themes
    ensures AllClean(fs, DirLists(fs, theme, app)) <==>
            forall t, name | t in EffectiveChain(fs, theme) && t in fs.themes && name in FeedbackNames(fs, app) ::
              Contributes(fs, t, app, name) ==> !HidesPrefix(fs, t, app)
  {
    FeedbackNamesDistinct(fs, app);
    assert Chain(fs, DEFAULT_THEME) == [DEFAULT_THEME];
    ChainOfTheResolver(fs, theme);
    var plain, names, chain := Candidates(fs, theme, app), FeedbackNames(fs, app), EffectiveChain(fs, theme);
    FallbacksAddNothing(fs, names, plain);
    forall i | 0 <= i < |names| ensures CleanList(fs, plain[i]) <==> NoneHides(fs, chain, app, names[i]) {
      CandidatesAreClean(fs, chain, app, names[i]);
    }
    hide CleanList, HidesPrefix, Contributes, FeedbackNames, EffectiveChain, Candidates, WithFallbacks, WellFormed;
    forall name | name in names ensures exists i :: 0 <= i < |names| && names[i] == name { }
    assert AllClean(fs, plain) <==> forall name :: name in names ==> NoneHides(fs, chain, app, name);
  }

  /** Under no theme does the application's name bring the prefix in once more. */
  ghost predicate AppFits(fs: FileSystem, app: string) {
    forall t :: t in fs.themes ==> !HidesPrefix(fs, t, app)
  }

  lemma FittingAppsAreClean(fs: FileSystem, theme: string, app: string)
    requires WellFormed(fs) && DEFAULT_THEME in fs.themes && AppFits(fs, app)
    ensures AllClean(fs, DirLists(fs, theme, app))
  {
    hide WellFormed, DirLists, HidesPrefix, Contributes;
    ResolvedDirsAreClean(fs, theme, app);
  }

  lemma PlainNamesFit(fs: FileSystem, app: string)
    requires WellFormed(fs) && '/' !in app
    ensures AppFits(fs, app)
  {
    forall t | t in fs.themes ensures !HidesPrefix(fs, t, app) {
      PlainNamesHideNothing(fs, t, app);
    }
  }

  // Applications whose directories get the same cache key

  ghost predicate NotBefore(s: string, p: string, n: nat) {
    forall i :: 0 <= i < n ==> !OccursAt(s, p, i)
  }

  lemma NotBeforeTail(s: string, p: string, n: nat)
    requires NotBefore(s, p, n) && n > 0 && s != []
    ensures NotBefore(s[1..], p, n - 1)
  {
    forall i | 0 <= i < n - 1 ensures !OccursAt(s[1..], p, i) {
      assert !OccursAt(s, p, i + 1);
      assert i + |p| <= |s[1..]| ==> s[1..][i..i + |p|] == s[i + 1..i + 1 + |p|];
    }
  }

  lemma {:induction false} RemoveFront(a: string, rest: string, p: string)
    requires p != [] && NotBefore(a + rest, p, |a|)
    ensures RemoveAll(a + rest, p) == a + RemoveAll(rest, p)
    decreases |a|
  {
    var s := a + rest;
    if a == [] {
      assert s == rest;
    } else {
      assert s[1..] == a[1..] + rest && s[0] == a[0];
      NotBeforeTail(s, p, |a|);
      RemoveFront(a[1..], rest, p);
      RemoveStep(s, p);
      hide RemoveAll, NotBefore;
      assert a == [a[0]] + a[1..];
    }
  }

  lemma RemoveOnce(p: string, c: string)
    requires p != []
    ensures RemoveAll(p + c, p) == RemoveAll(c, p)
  {
    assert (p + c)[..|p|] == p && (p + c)[|p|..] == c;
  }

  lemma RemoveStep(s: string, p: string)
    requires p != [] && s != [] && !OccursAt(s, p, 0)
    ensures RemoveAll(s, p) == [s[0]] + RemoveAll(s[1..], p)
  {
    if |s| < |p| {
      assert s == [s[0]] + s[1..];
    } else {
      assert s[0..|p|] == s[..|p|];
    }
  }

  /** Clients announce any name. An application that calls itself like another one followed by the theme
      prefix has directories of its own, which get the cache keys of the other's. */
  lemma AppsCanCollide(fs: FileSystem, disk: Handles.Disk, name: string, b: nat)
    requires fs.mfPrefix == "/usr" && disk.prefix == ThemePrefix(fs) && '/' !in name
    ensures var app, other := "x", "x/usr/share/themes";
            var dir, dir' := AppDir(fs, DEFAULT_THEME, app) + name, AppDir(fs, DEFAULT_THEME, other) + name;
            dir != dir' && Handles.Key(disk, dir, b) == Handles.Key(disk, dir', b)
  {
    var app, other, p := "x", "x/usr/share/themes", ThemePrefix(fs);
    var a, c := AppBelow(DEFAULT_THEME, app), "/" + FEEDBACKS + "/" + name;
    AppPath(fs, app, name);
    AppPath(fs, other, name);
    assert AppBelow(DEFAULT_THEME, other) == a + p;
    assert (a + p) + c == a + (p + c);
    RemoveOwn(fs, name);
    RemoveOther(fs, name);
    hide AppDir, AppBelow, RemoveAll;
    assert |p + (a + (p + c))| > |p + (a + c)|;
  }

  lemma AppPath(fs: FileSystem, app: string, name: string)
    ensures AppDir(fs, DEFAULT_THEME, app) + name ==
            ThemePrefix(fs) + (AppBelow(DEFAULT_THEME, app) + ("/" + FEEDBACKS + "/" + name))
  {
  }

  lemma RemoveOwn(fs: FileSystem, name: string)
    requires '/' !in name
    ensures var p, a, c := ThemePrefix(fs), AppBelow(DEFAULT_THEME, "x"), "/" + FEEDBACKS + "/" + name;
            RemoveAll(p + (a + c), p) == a + c
  {
    hide RemoveAll;
    var p, a, c := ThemePrefix(fs), AppBelow(DEFAULT_THEME, "x"), "/" + FEEDBACKS + "/" + name;
    PlainNamesHideNothing(fs, DEFAULT_THEME, "x");
    DirsAreClean(fs, DEFAULT_THEME, "x", name);
    AppPath(fs, "x", name);
    assert (p + (a + c))[|p|..] == a + c;
    RemovePrefix(p, a + c);
  }

  lemma NoneBefore(p: string, c: string)
    requires p == "/usr/share/themes"
    ensures NotBefore("/base/meegotouch/x" + (p + c), p, |"/base/meegotouch/x"|)
  {
    var a := "/base/meegotouch/x";
    var s := a + (p + c);
    assert p[0] == '/' && p[1] == 'u';
    assert forall i :: 0 <= i < |a| ==> s[i] == a[i] && (s[i] != '/' || s[i + 1] != 'u');
    forall i | 0 <= i < |a| ensures !OccursAt(s, p, i) {
      if i + |p| <= |s| {
        var window := s[i..i + |p|];
        assert window[0] == s[i] && window[1] == s[i + 1];
      }
    }
  }

  lemma RemoveOther(fs: FileSystem, name: string)
    requires fs.mfPrefix == "/usr" && '/' !in name
    ensures var p, a, c := ThemePrefix(fs), AppBelow(DEFAULT_THEME, "x"), "/" + FEEDBACKS + "/" + name;
            RemoveAll(p + (a + (p + c)), p) == a + c
  {
    var p, a, c := ThemePrefix(fs), AppBelow(DEFAULT_THEME, "x"), "/" + FEEDBACKS + "/" + name;
    var s := p + (a + (p + c));
    assert s[..|p|] == p && s[|p|..] == a + (p + c);
    assert RemoveAll(s, p) == RemoveAll(a + (p + c), p);
    hide RemoveAll;
    NoneBefore(p, c);
    assert a == "/base/meegotouch/x";
    RemoveFront(a, p + c, p);
    RemoveOnce(p, c);
    hide NotBefore;
    forall i ensures !OccursAt(c, p, i) {
      if OccursAt(c, p, i) {
        LastSlash(fs.mfPrefix, c, i);
      }
    }
    RemoveNothing(c, p);
  }
}
