/** The candidate lists by their entries: which directories a list holds, and in which order. */
module CandidateLists {
  import opened Text
  import opened Theming
  import opened MfUtil
  import opened Resolver
  import CacheKeys

  // The directories

  /** Where the directories are. */
  lemma Layout(fs: FileSystem, t: string, app: string)
    ensures CommonDir(fs, t) == fs.mfPrefix + "/share/themes/" + t + "/meegotouch/feedbacks/"
    ensures AppDir(fs, t, app) == fs.mfPrefix + "/share/themes/" + t + "/meegotouch/" + app + "/feedbacks/"
  {
  }

  /** The characters of a feedback's name. */
  lemma NamesAreLowerCase(name: string)
    ensures ValidName(name) <==>
            name != [] &&
            forall i :: 0 <= i < |name| ==>
              'a' <= name[i] <= 'z' || '0' <= name[i] <= '9' || name[i] == '_' || name[i] == '.' || name[i] == '-'
  {
  }

  /** The usable entries of a listing are those with a valid name, in the order of the listing. */
  lemma {:induction false} UsableEntries(s: seq<string>, more: seq<string>, entry: string)
    ensures Filter(s + more, ValidName) == Filter(s, ValidName) + Filter(more, ValidName)
    ensures Filter([entry], ValidName) == (if ValidName(entry) then [entry] else []) && Filter([], ValidName) == []
    decreases |s|
  {
    hide ValidName;
    assert [entry][1..] == [];
    if s == [] {
      assert s + more == more;
    } else {
      UsableEntries(s[1..], more, entry);
      assert (s + more)[1..] == s[1..] + more && (s + more)[0] == s[0];
    }
  }

  // Versions of a feedback

  /** The theme has a common version of the feedback. */
  predicate HasCommon(fs: FileSystem, t: string, name: string)
    requires DEFAULT_THEME in fs.themes && t in fs.themes
  {
    name in CommonNames(fs, t) && name in CommonNames(fs, DEFAULT_THEME)
  }

  /** The theme has a version for the application, and the resolver does not take it for a common one. */
  predicate HasOwn(fs: FileSystem, t: string, app: string, name: string)
    requires DEFAULT_THEME in fs.themes && t in fs.themes
  {
    name in AppNames(fs, t, app) &&
    (t == DEFAULT_THEME || LastSection(app, '/') != "meegotouch" || name in CommonNames(fs, DEFAULT_THEME))
  }

  predicate IsVersion(fs: FileSystem, t: string, app: string, name: string, dir: string)
    requires DEFAULT_THEME in fs.themes && t in fs.themes
  {
    (dir == CommonDir(fs, t) + name && HasCommon(fs, t, name)) ||
    (dir == AppDir(fs, t, app) + name && HasOwn(fs, t, app, name))
  }

  lemma VersionTellsTheme(fs: FileSystem, t: string, t': string, app: string, name: string, dir: string)
    requires '/' !in t && '/' !in t'
    requires dir == CommonDir(fs, t) + name || dir == AppDir(fs, t, app) + name
    requires dir == CommonDir(fs, t') + name || dir == AppDir(fs, t', app) + name
    ensures t == t'
  {
    var p := ThemePrefix(fs) + "/";
    var common, own := MEEGOTOUCH + "/" + FEEDBACKS + "/" + name, MEEGOTOUCH + "/" + app + "/" + FEEDBACKS + "/" + name;
    BelowPrefix(fs, t, app, name);
    BelowPrefix(fs, t', app, name);
    var rest := if dir == CommonDir(fs, t) + name then common else own;
    var rest' := if dir == CommonDir(fs, t') + name then common else own;
    assert t + ['/'] + rest == t' + ['/'] + rest';
    CacheKeys.FirstPart(t, rest, t', rest', '/');
  }

  lemma BelowPrefix(fs: FileSystem, t: string, app: string, name: string)
    ensures var p := ThemePrefix(fs) + "/";
            (CommonDir(fs, t) + name)[|p|..] == t + ['/'] + (MEEGOTOUCH + "/" + FEEDBACKS + "/" + name) &&
            (AppDir(fs, t, app) + name)[|p|..] == t + ['/'] + (MEEGOTOUCH + "/" + app + "/" + FEEDBACKS + "/" + name)
  {
  }

  lemma KindsDiffer(fs: FileSystem, t: string, app: string, name: string)
    ensures CommonDir(fs, t) + name != AppDir(fs, t, app) + name
  {
    assert |CommonDir(fs, t) + name| < |AppDir(fs, t, app) + name|;
  }

  // Along the chain

  /** Every version of the themes of the chain, and nothing else. */
  ghost predicate HoldsVersions(fs: FileSystem, c: seq<string>, app: string, name: string, dirs: seq<string>)
    requires DEFAULT_THEME in fs.themes && forall t :: t in c ==> t in fs.themes
  {
    && (forall t, dir {:trigger IsVersion(fs, t, app, name, dir)} :: t in c && IsVersion(fs, t, app, name, dir) ==>
      dir in dirs)
    && (forall dir :: dir in dirs && LastSection(dir, '/') == name ==>
      exists t :: t in c && IsVersion(fs, t, app, name, dir))
  }

  predicate Before(fs: FileSystem, t: string, t': string, app: string, name: string, dirs: seq<string>)
    requires DEFAULT_THEME in fs.themes && t in fs.themes && t' in fs.themes
  {
    forall p, q | 0 <= p < |dirs| && 0 <= q < |dirs| ::
      IsVersion(fs, t, app, name, dirs[p]) && IsVersion(fs, t', app, name, dirs[q]) ==> p < q
  }

  predicate OwnFirst(fs: FileSystem, t: string, app: string, name: string, dirs: seq<string>) {
    forall p, q | 0 <= p < |dirs| && 0 <= q < |dirs| ::
      dirs[p] == AppDir(fs, t, app) + name && dirs[q] == CommonDir(fs, t) + name ==> p < q
  }

  /** The versions of a theme come before those of its ancestors, and for one theme the application's before
      the common one. */
  ghost predicate InOrder(fs: FileSystem, c: seq<string>, app: string, name: string, dirs: seq<string>)
    requires DEFAULT_THEME in fs.themes && forall t :: t in c ==> t in fs.themes
  {
    && (forall i, j :: 0 <= i < j < |c| ==> Before(fs, c[j], c[i], app, name, dirs))
    && (forall t :: t in c ==> OwnFirst(fs, t, app, name, dirs))
  }

  lemma ThemeHoldsVersions(fs: FileSystem, t: string, app: string, name: string)
    requires DEFAULT_THEME in fs.themes && t in fs.themes
    ensures var dirs := ThemeCandidates(fs, t, app, name);
            (forall dir :: dir in dirs <==> IsVersion(fs, t, app, name, dir)) && Distinct(dirs) &&
            OwnFirst(fs, t, app, name, dirs)
  {
    KindsDiffer(fs, t, app, name);
    hide AppNames, CommonNames, AppDir, CommonDir;
    var own := if HasOwn(fs, t, app, name) then [AppDir(fs, t, app) + name] else [];
    var common := if HasCommon(fs, t, name) then [CommonDir(fs, t) + name] else [];
    assert ThemeCandidates(fs, t, app, name) == own + common;
    assert forall dir :: dir in own + common <==> dir in own || dir in common;
  }

  lemma {:induction false} ChainHoldsVersions(fs: FileSystem, c: seq<string>, app: string, name: string)
    requires DEFAULT_THEME in fs.themes && Distinct(c) && forall t :: t in c ==> t in fs.themes && '/' !in t
    ensures var dirs := ChainCandidates(fs, c, app, name);
            (forall dir :: dir in dirs <==> exists t :: t in c && IsVersion(fs, t, app, name, dir)) &&
            InOrder(fs, c, app, name, dirs) && Distinct(dirs)
    decreases |c|
  {
    hide ThemeCandidates, IsVersion, AppDir, CommonDir;
    if c != [] {
      var last, init := c[|c| - 1], c[..|c| - 1];
      var own, rest := ThemeCandidates(fs, last, app, name), ChainCandidates(fs, init, app, name);
      ThemeHoldsVersions(fs, last, app, name);
      ChainHoldsVersions(fs, init, app, name);
      assert forall t :: t in c <==> t == last || t in init;
      assert forall dir :: dir in own + rest <==> dir in own || dir in rest;
      OldVersionsAreOthers(fs, init, last, app, name, own, rest);
      DistinctConcat(own, rest);
      OrderConcat(fs, c, app, name, own, rest);
    }
  }

  lemma OldVersionsAreOthers(fs: FileSystem, init: seq<string>, last: string, app: string, name: string,
                             own: seq<string>, rest: seq<string>)
    requires DEFAULT_THEME in fs.themes && last in fs.themes && '/' !in last && last !in init
    requires forall t :: t in init ==> t in fs.themes && '/' !in t
    requires forall dir :: dir in own ==> IsVersion(fs, last, app, name, dir)
    requires forall dir :: dir in rest ==> exists t :: t in init && IsVersion(fs, t, app, name, dir)
    ensures forall dir :: dir in own ==> dir !in rest
    ensures forall t, dir {:trigger IsVersion(fs, t, app, name, dir)} ::
              t in init && IsVersion(fs, t, app, name, dir) ==> dir !in own
    ensures forall dir :: dir in rest ==> !IsVersion(fs, last, app, name, dir)
  {
    hide HasOwn, HasCommon, AppDir, CommonDir;
    forall t, dir | t in init && IsVersion(fs, t, app, name, dir) ensures !IsVersion(fs, last, app, name, dir) {
      if IsVersion(fs, last, app, name, dir) {
        VersionTellsTheme(fs, t, last, app, name, dir);
      }
    }
  }

  lemma DistinctConcat(a: seq<string>, b: seq<string>)
    requires Distinct(a) && Distinct(b) && forall x :: x in a ==> x !in b
    ensures Distinct(a + b)
  {
    var all := a + b;
    forall i, j | 0 <= i < j < |all| ensures all[i] != all[j] {
      if i < |a| <= j {
        assert all[i] in a && all[j] in b;
      }
    }
  }

  lemma VersionsOfTheme(fs: FileSystem, t: string, app: string, name: string)
    requires DEFAULT_THEME in fs.themes && t in fs.themes
    ensures forall dir :: IsVersion(fs, t, app, name, dir) ==>
            dir == CommonDir(fs, t) + name || dir == AppDir(fs, t, app) + name
  {
  }

  lemma OrderConcat(fs: FileSystem, c: seq<string>, app: string, name: string, own: seq<string>, rest: seq<string>)
    requires DEFAULT_THEME in fs.themes && c != [] && Distinct(c) && forall t :: t in c ==> t in fs.themes && '/' !in t
    requires own == ThemeCandidates(fs, c[|c| - 1], app, name) && rest == ChainCandidates(fs, c[..|c| - 1], app, name)
    requires forall t :: t in c[..|c| - 1] ==> t in fs.themes
    requires InOrder(fs, c[..|c| - 1], app, name, rest)
    requires forall dir :: dir in rest ==> exists t :: t in c[..|c| - 1] && IsVersion(fs, t, app, name, dir)
    ensures InOrder(fs, c, app, name, own + rest)
  {
    var last, init, dirs := c[|c| - 1], c[..|c| - 1], own + rest;
    ThemeHoldsVersions(fs, last, app, name);
    forall k | 0 <= k < |init| ensures init[k] == c[k] && init[k] != last && c[k] in init { }
    OldVersionsAreOthers(fs, init, last, app, name, own, rest);
    assert forall t :: t in c <==> t == last || t in init;
    hide ThemeCandidates, ChainCandidates, IsVersion, AppDir, CommonDir, Before, OwnFirst;
    forall i, j | 0 <= i < j < |c| ensures Before(fs, c[j], c[i], app, name, dirs) {
      if j == |c| - 1 {
        LastIsBefore(fs, last, c[i], app, name, own, rest);
      } else {
        assert Before(fs, init[j], init[i], app, name, rest);
        BothBehind(fs, c[j], c[i], app, name, own, rest);
      }
    }
    forall t | t in c ensures OwnFirst(fs, t, app, name, dirs) {
      if t == last {
        LastOwnFirst(fs, last, app, name, own, rest, init);
      } else {
        OldOwnFirst(fs, t, last, app, name, own, rest);
      }
    }
  }

  lemma LastIsBefore(fs: FileSystem, last: string, t: string, app: string, name: string, own: seq<string>,
                     rest: seq<string>)
    requires DEFAULT_THEME in fs.themes && last in fs.themes && t in fs.themes
    requires forall dir :: IsVersion(fs, t, app, name, dir) ==> dir !in own
    requires forall dir :: dir in rest ==> !IsVersion(fs, last, app, name, dir)
    ensures Before(fs, last, t, app, name, own + rest)
  {
    hide IsVersion;
    var dirs := own + rest;
    forall p, q | 0 <= p < |dirs| && 0 <= q < |dirs|
      ensures IsVersion(fs, last, app, name, dirs[p]) && IsVersion(fs, t, app, name, dirs[q]) ==> p < q
    {
      if p >= |own| {
        assert dirs[p] in rest;
      }
      if q < |own| {
        assert dirs[q] in own;
      }
    }
  }

  lemma BothBehind(fs: FileSystem, t: string, t': string, app: string, name: string, own: seq<string>,
                   rest: seq<string>)
    requires DEFAULT_THEME in fs.themes && t in fs.themes && t' in fs.themes && Before(fs, t, t', app, name, rest)
    requires forall dir :: IsVersion(fs, t, app, name, dir) ==> dir !in own
    requires forall dir :: IsVersion(fs, t', app, name, dir) ==> dir !in own
    ensures Before(fs, t, t', app, name, own + rest)
  {
    hide IsVersion;
    var dirs := own + rest;
    forall p, q | 0 <= p < |dirs| && 0 <= q < |dirs|
      ensures IsVersion(fs, t, app, name, dirs[p]) && IsVersion(fs, t', app, name, dirs[q]) ==> p < q
    {
      if p < |own| {
        assert dirs[p] in own;
      } else if q < |own| {
        assert dirs[q] in own;
      } else {
        assert dirs[p] == rest[p - |own|] && dirs[q] == rest[q - |own|];
      }
    }
  }

  lemma LastOwnFirst(fs: FileSystem, last: string, app: string, name: string, own: seq<string>, rest: seq<string>,
                     init: seq<string>)
    requires DEFAULT_THEME in fs.themes && '/' !in last && last !in init && OwnFirst(fs, last, app, name, own)
    requires forall t :: t in init ==> t in fs.themes && '/' !in t
    requires forall dir :: dir in rest ==> exists t :: t in init && IsVersion(fs, t, app, name, dir)
    ensures OwnFirst(fs, last, app, name, own + rest)
  {
    hide HasOwn, HasCommon, AppDir, CommonDir;
    var dirs := own + rest;
    forall dir | dir in rest ensures dir != AppDir(fs, last, app) + name && dir != CommonDir(fs, last) + name {
      var t :| t in init && IsVersion(fs, t, app, name, dir);
      VersionsOfTheme(fs, t, app, name);
      if dir == AppDir(fs, last, app) + name || dir == CommonDir(fs, last) + name {
        VersionTellsTheme(fs, t, last, app, name, dir);
      }
    }
    assert forall p :: |own| <= p < |dirs| ==> dirs[p] in rest;
    assert forall p :: 0 <= p < |own| ==> dirs[p] == own[p];
  }

  lemma OldOwnFirst(fs: FileSystem, t: string, last: string, app: string, name: string, own: seq<string>,
                    rest: seq<string>)
    requires DEFAULT_THEME in fs.themes && last in fs.themes && '/' !in last && '/' !in t && t != last
    requires OwnFirst(fs, t, app, name, rest) && forall dir :: dir in own ==> IsVersion(fs, last, app, name, dir)
    ensures OwnFirst(fs, t, app, name, own + rest)
  {
    hide HasOwn, HasCommon, AppDir, CommonDir;
    var dirs := own + rest;
    VersionsOfTheme(fs, last, app, name);
    forall dir | dir in own ensures dir != AppDir(fs, t, app) + name && dir != CommonDir(fs, t) + name {
      if dir == AppDir(fs, t, app) + name || dir == CommonDir(fs, t) + name {
        VersionTellsTheme(fs, last, t, app, name, dir);
      }
    }
    assert forall p :: 0 <= p < |own| ==> dirs[p] in own;
    assert forall p :: |own| <= p < |dirs| ==> dirs[p] == rest[p - |own|];
  }

  lemma OwnNames(fs: FileSystem, t: string, app: string, name: string)
    requires DEFAULT_THEME in fs.themes && t in fs.themes && '/' !in name
    ensures forall dir :: IsVersion(fs, t, app, name, dir) ==> LastSection(dir, '/') == name
  {
    CommonPathSections(fs, t, name);
    AppPathSections(fs, t, app, name);
    hide HasOwn, HasCommon, LastSection, AppDir, CommonDir;
  }

  // The whole list

  /** The list of a feedback: first its own entries, with nothing but its own name, then those of the
      feedback it falls back on. */
  lemma ListParts(fs: FileSystem, theme: string, app: string, i: nat) returns (own: seq<string>, other: seq<string>)
    requires WellFormed(fs) && DEFAULT_THEME in fs.themes && i < |FeedbackNames(fs, app)|
    ensures |DirLists(fs, theme, app)| == |FeedbackNames(fs, app)| && DirLists(fs, theme, app)[i] == own + other
    ensures forall t :: t in EffectiveChain(fs, theme) ==> t in fs.themes
    ensures own == Candidates(fs, theme, app)[i]
    ensures var names := FeedbackNames(fs, app);
            var k := FallbackIndex(names, i);
            other == if k >= 0 then Candidates(fs, theme, app)[k] else []
    ensures var chain, names := EffectiveChain(fs, theme), FeedbackNames(fs, app);
            forall k :: 0 <= k < |names| ==> Candidates(fs, theme, app)[k] == ChainCandidates(fs, chain, app, names[k])
  {
    hide Acyclic, EffectiveChain, FeedbackNames, FallbackIndex, ChainCandidates;
    EffectiveThemesExist(fs, theme);
    var k := FallbackIndex(FeedbackNames(fs, app), i);
    own := Candidates(fs, theme, app)[i];
    other := if k >= 0 then Candidates(fs, theme, app)[k] else [];
  }

  lemma CandidatesHaveNames(fs: FileSystem, theme: string, app: string, k: nat)
    requires WellFormed(fs) && DEFAULT_THEME in fs.themes && k < |FeedbackNames(fs, app)|
    ensures forall dir :: dir in Candidates(fs, theme, app)[k] ==> LastSection(dir, '/') == FeedbackNames(fs, app)[k]
    ensures Distinct(Candidates(fs, theme, app)[k])
  {
    var chain, name := EffectiveChain(fs, theme), FeedbackNames(fs, app)[k];
    FeedbackNamesDistinct(fs, app);
    ChainHasNoRepeats(fs, theme);
    ChainHasNoRepeats(fs, DEFAULT_THEME);
    EffectiveThemesExist(fs, theme);
    assert Candidates(fs, theme, app)[k] == ChainCandidates(fs, chain, app, name);
    hide EffectiveChain, FeedbackNames, ChainCandidates, IsVersion, LastSection;
    ChainHoldsVersions(fs, chain, app, name);
    forall dir | dir in ChainCandidates(fs, chain, app, name) ensures LastSection(dir, '/') == name {
      var t :| t in chain && IsVersion(fs, t, app, name, dir);
      OwnNames(fs, t, app, name);
    }
  }

  /** The candidates of a feedback under a theme with a chain: exactly the versions of all themes of the
      chain, each once, the most derived theme first and the application's version before the common one;
      entries with another name belong to the fallback. */
  lemma ListHoldsChain(fs: FileSystem, theme: string, c: seq<string>, app: string, i: nat)
    requires WellFormed(fs) && IsChain(fs, c, theme) && DEFAULT_THEME in fs.themes && i < |FeedbackNames(fs, app)|
    ensures i < |DirLists(fs, theme, app)| && forall t :: t in c ==> t in fs.themes
    ensures var name, dirs := FeedbackNames(fs, app)[i], DirLists(fs, theme, app)[i];
            HoldsVersions(fs, c, app, name, dirs) && InOrder(fs, c, app, name, dirs) && Distinct(dirs)
  {
    ChainCharacterized(fs, theme, c);
    ChainThemesExist(fs, theme);
    ChainHasNoRepeats(fs, theme);
    FeedbackNamesDistinct(fs, app);
    assert EffectiveChain(fs, theme) == c;
    var names := FeedbackNames(fs, app);
    var name, k := names[i], FallbackIndex(names, i);
    var own, other := ListParts(fs, theme, app, i);
    ChainHoldsVersions(fs, c, app, name);
    CandidatesHaveNames(fs, theme, app, i);
    if k >= 0 {
      FallbackHasNoFallback(names, i);
      CandidatesHaveNames(fs, theme, app, k);
    }
    assert forall dir :: dir in other ==> LastSection(dir, '/') != name;
    hide WellFormed, IsVersion, LastSection, ChainCandidates, DirLists, FeedbackNames, EffectiveChain, Chain, IsChain;
    WithOthersBehind(fs, c, app, name, own, other);
    DistinctConcat(own, other);
  }

  lemma WithOthersBehind(fs: FileSystem, c: seq<string>, app: string, name: string, own: seq<string>,
                         other: seq<string>)
    requires DEFAULT_THEME in fs.themes && forall t :: t in c ==> t in fs.themes
    requires forall dir :: dir in own <==> exists t :: t in c && IsVersion(fs, t, app, name, dir)
    requires InOrder(fs, c, app, name, own) && '/' !in name
    requires forall dir :: dir in other ==> LastSection(dir, '/') != name
    ensures HoldsVersions(fs, c, app, name, own + other) && InOrder(fs, c, app, name, own + other)
  {
    hide IsVersion, LastSection;
    var dirs := own + other;
    assert forall dir :: dir in dirs <==> dir in own || dir in other;
    assert forall p :: 0 <= p < |dirs| ==> if p < |own| then dirs[p] == own[p] else dirs[p] in other;
    forall t | t in c ensures OwnFirst(fs, t, app, name, dirs) {
      CommonPathSections(fs, t, name);
      AppPathSections(fs, t, app, name);
      assert OwnFirst(fs, t, app, name, own);
    }
    forall t | t in c ensures forall dir :: IsVersion(fs, t, app, name, dir) ==> LastSection(dir, '/') == name {
      OwnNames(fs, t, app, name);
    }
    forall i, j | 0 <= i < j < |c| ensures Before(fs, c[j], c[i], app, name, dirs) {
      assert Before(fs, c[j], c[i], app, name, own) && c[i] in c && c[j] in c;
    }
  }

  // Fallback

  /** The name starts with `n` dashes, and then comes `a`, up to the next dash or the end. */
  predicate PartAt(name: string, a: string, n: nat) {
    && n + |a| <= |name| && name[n..n + |a|] == a && (forall m :: 0 <= m < n ==> name[m] == '-')
    && (n + |a| == |name| || name[n + |a|] == '-')
  }

  /** `a` is the first part of the name between dashes that is not empty. */
  ghost predicate FirstPartOf(name: string, a: string) {
    a != [] && '-' !in a && exists n: nat :: PartAt(name, a, n)
  }

  lemma {:induction false} FallbackNameIsFirstPart(name: string, a: string)
    requires a != []
    ensures FallbackName(name) == a <==> FirstPartOf(name, a)
    decreases |name|
  {
    if name == [] {
      assert Split(name, '-') == [[]];
    } else if name[0] == '-' {
      var rest := name[1..];
      assert name == ['-'] + rest;
      LeadingDashIsSkipped(rest);
      FallbackNameIsFirstPart(rest, a);
      DashInFront(name, a);
    } else {
      var d := FirstDash(name);
      var word := name[..d];
      if d < |name| {
        assert name == word + ['-'] + name[d + 1..];
        PartBeforeDashIsFallback(word, name[d + 1..]);
      } else {
        assert name == word;
        SplitWhole(name, '-');
      }
      assert FallbackName(name) == word;
      assert PartAt(name, word, 0);
      hide FallbackName;
      OnlyFirstPart(name, word, a);
    }
  }

  lemma {:induction false} FirstDash(name: string) returns (d: nat)
    ensures d <= |name| && '-' !in name[..d] && (d < |name| ==> name[d] == '-')
    ensures name != [] && name[0] != '-' ==> d > 0
  {
    d := 0;
    while d < |name| && name[d] != '-'
      invariant d <= |name| && '-' !in name[..d]
    {
      d := d + 1;
    }
  }

  lemma PartStarts(name: string, a: string, n: nat)
    requires PartAt(name, a, n) && a != [] && '-' !in a
    ensures n < |name| && name[n] == a[0] && name[n] != '-'
  {
    assert name[n..n + |a|][0] == name[n];
  }

  lemma DashInFront(name: string, a: string)
    requires name != [] && name[0] == '-'
    ensures FirstPartOf(name, a) <==> FirstPartOf(name[1..], a)
  {
    var rest := name[1..];
    if FirstPartOf(name, a) {
      var n: nat :| PartAt(name, a, n);
      PartStarts(name, a, n);
      assert rest[n - 1..n - 1 + |a|] == name[n..n + |a|];
      assert PartAt(rest, a, n - 1);
    }
    if FirstPartOf(rest, a) {
      var n: nat :| PartAt(rest, a, n);
      assert rest[n..n + |a|] == name[n + 1..n + 1 + |a|];
      assert PartAt(name, a, n + 1);
    }
  }

  lemma OnlyFirstPart(name: string, word: string, a: string)
    requires name != [] && name[0] != '-' && a != [] && word != [] && '-' !in word && PartAt(name, word, 0)
    ensures word == a <==> FirstPartOf(name, a)
  {
    if FirstPartOf(name, a) {
      var n: nat :| PartAt(name, a, n);
      assert n == 0;
      assert forall k :: 0 <= k < |a| ==> name[k] == a[k] != '-';
      assert forall k :: 0 <= k < |word| ==> name[k] == word[k] != '-';
      assert |a| == |word|;
    }
  }

  /** A name with a dash takes over the whole list of its first part, if that is a feedback, behind its own
      entries; every other name has entries of its own only. */
  lemma FallbackFollows(fs: FileSystem, theme: string, app: string, i: nat)
    requires WellFormed(fs) && DEFAULT_THEME in fs.themes && i < |FeedbackNames(fs, app)|
    ensures |DirLists(fs, theme, app)| == |FeedbackNames(fs, app)|
    ensures var names, lists := FeedbackNames(fs, app), DirLists(fs, theme, app);
            forall j :: 0 <= j < |names| && '-' in names[i] && FirstPartOf(names[i], names[j]) ==>
              exists own :: lists[i] == own + lists[j] && forall dir :: dir in own ==> LastSection(dir, '/') == names[i]
    ensures var names, lists := FeedbackNames(fs, app), DirLists(fs, theme, app);
            '-' !in names[i] || (forall j :: 0 <= j < |names| ==> !FirstPartOf(names[i], names[j])) ==>
              forall dir :: dir in lists[i] ==> LastSection(dir, '/') == names[i]
  {
    hide Acyclic, DirLists, FeedbackNames, Candidates, EffectiveChain, LastSection, FallbackName, FirstPartOf;
    FeedbackNamesDistinct(fs, app);
    var names, lists := FeedbackNames(fs, app), DirLists(fs, theme, app);
    var own, other := ListParts(fs, theme, app, i);
    CandidatesHaveNames(fs, theme, app, i);
    forall j | 0 <= j < |names| && '-' in names[i] && FirstPartOf(names[i], names[j])
      ensures lists[i] == own + lists[j]
    {
      FallbackIsAt(names, i, j);
      FallbackHasNoFallback(names, i);
      var own', other' := ListParts(fs, theme, app, j);
      assert own' + [] == own';
    }
    if FallbackIndex(names, i) >= 0 {
      FallbackIsFirstPart(names, i);
    } else {
      assert own + [] == own;
    }
  }

  lemma FallbackIsAt(names: seq<string>, i: nat, j: nat)
    requires Distinct(names) && i < |names| && j < |names| && '-' in names[i] && FirstPartOf(names[i], names[j])
    ensures FallbackIndex(names, i) == j
  {
    hide FallbackName;
    FallbackNameIsFirstPart(names[i], names[j]);
    assert names[j] in names;
  }

  lemma FallbackIsFirstPart(names: seq<string>, i: nat)
    requires i < |names| && FallbackIndex(names, i) >= 0
    ensures '-' in names[i] && FirstPartOf(names[i], names[FallbackIndex(names, i)])
  {
    hide FallbackName;
    FallbackNameIsFirstPart(names[i], names[FallbackIndex(names, i)]);
  }
}
