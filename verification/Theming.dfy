/** What the theme directories are supposed to provide, stated without loops: the inheritance
    chain of a theme and the ordered candidate directories of every feedback. */
module Theming {
  import opened Text

  const DEFAULT_THEME: string := "base"
  const MEEGOTOUCH: string := "meegotouch"
  const FEEDBACKS: string := "feedbacks"

  /** The index.theme file of a theme. */
  datatype Conf = NoFile | NoParent | Inherits(parent: string)

  /** A theme directory: its configuration, the entries of its common feedback directory,
      and, for each application that has one, the entries of the application's directory. */
  datatype Theme = Theme(conf: Conf, common: seq<string>, apps: map<string, seq<string>>)

  /** The installed themes. `mfPrefix` is the installation prefix of the build. */
  datatype FileSystem = FileSystem(mfPrefix: string, themes: map<string, Theme>)

  predicate Distinct<T(==)>(s: seq<T>) {
    forall i, j :: 0 <= i < j < |s| ==> s[i] != s[j]
  }

  /** Directory listings have no duplicates, names of directory entries have no separator,
      and themes do not inherit from themselves. */
  ghost predicate WellFormed(fs: FileSystem) {
    && (forall t :: t in fs.themes ==> '/' !in t && Distinct(fs.themes[t].common))
    && (forall t, app :: t in fs.themes && app in fs.themes[t].apps ==> Distinct(fs.themes[t].apps[app]))
    && Acyclic(fs)
  }

  /** The theme is not the default one and its configuration names a parent. */
  predicate DeclaresParent(fs: FileSystem, child: string, parent: string) {
    && child in fs.themes && child != DEFAULT_THEME
    && fs.themes[child].conf == Inherits(parent) && parent != []
  }

  ghost predicate Ranked(fs: FileSystem, rank: map<string, nat>) {
    forall t, p {:trigger DeclaresParent(fs, t, p)} :: DeclaresParent(fs, t, p) && p in fs.themes ==>
      t in rank && p in rank && rank[p] < rank[t]
  }

  ghost predicate Acyclic(fs: FileSystem) {
    exists rank :: Ranked(fs, rank)
  }

  ghost function Depth(fs: FileSystem, t: string): nat
    requires Acyclic(fs)
  {
    var rank :| Ranked(fs, rank);
    if t !in fs.themes then 0 else if t in rank then rank[t] + 1 else 1
  }

  /** The themes from the default one to `t`; empty when the chain is broken somewhere. */
  function Chain(fs: FileSystem, t: string): seq<string>
    requires Acyclic(fs)
    decreases Depth(fs, t)
  {
    if t !in fs.themes then []
    else if t == DEFAULT_THEME then [DEFAULT_THEME]
    else
      match fs.themes[t].conf
      case Inherits(parent) =>
        if parent == [] then []
        else
          assert DeclaresParent(fs, t, parent);
          var above := Chain(fs, parent);
          if above == [] then [] else above + [t]
      case _ => []
  }

  /** The chain that is used: the default theme stands in for a broken one. */
  function EffectiveChain(fs: FileSystem, t: string): seq<string>
    requires Acyclic(fs)
  {
    var chain := Chain(fs, t);
    if chain == [] then Chain(fs, DEFAULT_THEME) else chain
  }

  /** What a chain is, independently of how it is found. */
  predicate IsChain(fs: FileSystem, c: seq<string>, t: string) {
    && c != [] && c[0] == DEFAULT_THEME && DEFAULT_THEME in fs.themes && c[|c| - 1] == t
    && forall i :: 0 < i < |c| ==> DeclaresParent(fs, c[i], c[i - 1])
  }

  lemma {:induction false} ChainIsFound(fs: FileSystem, t: string, c: seq<string>)
    requires Acyclic(fs) && IsChain(fs, c, t)
    ensures Chain(fs, t) == c
    decreases |c|
  {
    if |c| > 1 {
      assert DeclaresParent(fs, t, c[|c| - 2]);
      ChainIsFound(fs, c[|c| - 2], c[..|c| - 1]);
      assert c == c[..|c| - 1] + [t];
    }
  }

  lemma {:induction false} FoundChainIsChain(fs: FileSystem, t: string)
    requires Acyclic(fs) && Chain(fs, t) != []
    ensures IsChain(fs, Chain(fs, t), t)
    decreases Depth(fs, t)
  {
    if t != DEFAULT_THEME {
      assert DeclaresParent(fs, t, fs.themes[t].conf.parent);
      FoundChainIsChain(fs, fs.themes[t].conf.parent);
    }
  }

  /** The chain of a theme is the only one there is, and it is empty exactly when there is none:
      from the default theme to `t`, each theme the declared parent of the next. */
  lemma ChainCharacterized(fs: FileSystem, t: string, c: seq<string>)
    requires Acyclic(fs)
    ensures IsChain(fs, c, t) <==> c != [] && Chain(fs, t) == c
  {
    if IsChain(fs, c, t) {
      ChainIsFound(fs, t, c);
    } else if Chain(fs, t) != [] {
      FoundChainIsChain(fs, t);
    }
  }

  /** No theme occurs twice in a chain. */
  lemma ChainHasNoRepeats(fs: FileSystem, t: string)
    requires Acyclic(fs)
    ensures Distinct(Chain(fs, t))
  {
    var c := Chain(fs, t);
    if c != [] {
      ChainCharacterized(fs, t, c);
      var rank :| Ranked(fs, rank);
      forall i, j | 0 <= i < j < |c| ensures c[i] != c[j] {
        RanksGrow(fs, rank, c, t, i, j);
      }
    }
  }

  lemma {:induction false} RanksGrow(fs: FileSystem, rank: map<string, nat>, c: seq<string>, t: string, i: nat, j: nat)
    requires Ranked(fs, rank) && IsChain(fs, c, t) && i < j < |c|
    ensures c[i] in rank && c[j] in rank && rank[c[i]] < rank[c[j]]
  {
    assert DeclaresParent(fs, c[j], c[j - 1]);
    assert j - 1 > 0 ==> DeclaresParent(fs, c[j - 1], c[j - 2]);
    if i < j - 1 {
      RanksGrow(fs, rank, c, t, i, j - 1);
    }
  }

  // Names and directories

  predicate ValidChar(c: char) {
    'a' <= c <= 'z' || '0' <= c <= '9' || c == '_' || c == '.' || c == '-'
  }

  predicate ValidName(name: string) {
    name != [] && forall i :: 0 <= i < |name| ==> ValidChar(name[i])
  }

  function Filter<T>(s: seq<T>, keep: T -> bool): seq<T> {
    if s == [] then [] else (if keep(s[0]) then [s[0]] else []) + Filter(s[1..], keep)
  }

  function Without(s: seq<string>, out: seq<string>): seq<string> {
    if s == [] then [] else (if s[0] !in out then [s[0]] else []) + Without(s[1..], out)
  }

  function CommonNames(fs: FileSystem, t: string): seq<string>
    requires t in fs.themes
  {
    Filter(fs.themes[t].common, ValidName)
  }

  function AppNames(fs: FileSystem, t: string, app: string): seq<string>
    requires t in fs.themes
  {
    if app in fs.themes[t].apps then Filter(fs.themes[t].apps[app], ValidName) else []
  }

  function ThemePrefix(fs: FileSystem): string { fs.mfPrefix + "/share/themes" }

  function ThemeRoot(fs: FileSystem, t: string): string { ThemePrefix(fs) + "/" + t }

  function CommonDir(fs: FileSystem, t: string): string {
    ThemeRoot(fs, t) + "/" + MEEGOTOUCH + "/" + FEEDBACKS + "/"
  }

  function AppDir(fs: FileSystem, t: string, app: string): string {
    ThemeRoot(fs, t) + "/" + MEEGOTOUCH + "/" + app + "/" + FEEDBACKS + "/"
  }

  /** The names available to an application: those of the default theme and application, a common
      name keeping its position. */
  function FeedbackNames(fs: FileSystem, app: string): seq<string>
    requires DEFAULT_THEME in fs.themes
  {
    var common := CommonNames(fs, DEFAULT_THEME);
    common + Without(AppNames(fs, DEFAULT_THEME, app), common)
  }

  // Closed form of the candidate lists

  /** The directory of an application whose name ends in "meegotouch" looks like a common directory
      to the resolver, so it may then override common names only. */
  predicate AppMayOverride(fs: FileSystem, app: string, name: string)
    requires DEFAULT_THEME in fs.themes
  {
    LastSection(app, '/') != MEEGOTOUCH || name in CommonNames(fs, DEFAULT_THEME)
  }

  /** What one theme contributes to the feedback `name`: the application's version first, then the
      common version, the latter only for the names that are common in the default theme. */
  function ThemeCandidates(fs: FileSystem, t: string, app: string, name: string): seq<string>
    requires DEFAULT_THEME in fs.themes && t in fs.themes
  {
    (if name in AppNames(fs, t, app) && (t == DEFAULT_THEME || AppMayOverride(fs, app, name))
     then [AppDir(fs, t, app) + name] else []) +
    (if name in CommonNames(fs, t) && name in CommonNames(fs, DEFAULT_THEME)
     then [CommonDir(fs, t) + name] else [])
  }

  /** The contributions of a chain, the most derived theme first. */
  function ChainCandidates(fs: FileSystem, chain: seq<string>, app: string, name: string): seq<string>
    requires DEFAULT_THEME in fs.themes && forall t :: t in chain ==> t in fs.themes
  {
    if chain == [] then []
    else ThemeCandidates(fs, chain[|chain| - 1], app, name) + ChainCandidates(fs, chain[..|chain| - 1], app, name)
  }

  lemma {:induction false} ChainThemesExist(fs: FileSystem, t: string)
    requires Acyclic(fs)
    ensures forall x :: x in Chain(fs, t) ==> x in fs.themes
  {
    var c := Chain(fs, t);
    if c != [] {
      ChainCharacterized(fs, t, c);
      forall x | x in c ensures x in fs.themes {
        var i :| 0 <= i < |c| && c[i] == x;
        assert i > 0 ==> DeclaresParent(fs, c[i], c[i - 1]);
      }
    }
  }

  /** For every name, its candidates before the name fallback. */
  function Candidates(fs: FileSystem, theme: string, app: string): (lists: seq<seq<string>>)
    requires Acyclic(fs) && DEFAULT_THEME in fs.themes
  {
    var chain := EffectiveChain(fs, theme);
    ChainThemesExist(fs, theme);
    ChainThemesExist(fs, DEFAULT_THEME);
    var names := FeedbackNames(fs, app);
    seq(|names|, i requires 0 <= i < |names| => ChainCandidates(fs, chain, app, names[i]))
  }

  // The fallback on names with a dash

  /** The name to fall back on: the first dash-separated part that is not empty. */
  function FallbackName(name: string): string {
    FirstNonEmpty(Split(name, '-'))
  }

  function IndexOf<T(==)>(s: seq<T>, x: T): (i: int)
    ensures -1 <= i < |s|
    ensures i >= 0 ==> s[i] == x
    ensures i < 0 ==> x !in s
  {
    if s == [] then -1
    else if s[0] == x then 0
    else var rest := IndexOf(s[1..], x); if rest < 0 then -1 else rest + 1
  }

  /** The position that `names[i]` falls back on, or -1. */
  function FallbackIndex(names: seq<string>, i: nat): (k: int)
    requires i < |names|
    ensures -1 <= k < |names|
  {
    if '-' in names[i] && FallbackName(names[i]) != [] then IndexOf(names, FallbackName(names[i])) else -1
  }

  /** Every list followed by the list of its fallback, all taken from the same `lists`. */
  function WithFallbacks(names: seq<string>, lists: seq<seq<string>>): seq<seq<string>>
    requires |names| == |lists|
  {
    seq(|lists|, i requires 0 <= i < |lists| =>
      var k := FallbackIndex(names, i);
      lists[i] + (if k >= 0 then lists[k] else []))
  }

  /** The candidate directories of every feedback, best first. */
  function DirLists(fs: FileSystem, theme: string, app: string): (lists: seq<seq<string>>)
    requires Acyclic(fs) && DEFAULT_THEME in fs.themes
  {
    WithFallbacks(FeedbackNames(fs, app), Candidates(fs, theme, app))
  }
}
