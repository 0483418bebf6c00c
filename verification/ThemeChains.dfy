/**
  The inheritance of themes: which of the found themes are kept, what each kept theme depends on, and
  which themes are loaded when one is set.
 */
module ThemeChains {
  /** The id of a theme; Empty is the empty string. */
  datatype Id = Empty | Named(name: string)

  /** `base` is the id the theme extends; empty for a root. */
  datatype Theme = Theme(id: Id, base: Id, isBaseTheme: bool, isHighContrast: bool,
                         parent: Id, dependencies: seq<Id>)

  type Themes = map<Id, Theme>

  /** The themes as they were read: filed under their own non-empty ids, with nothing resolved yet. */
  ghost predicate Unresolved(themes: Themes) {
    && Empty !in themes
    && forall k | k in themes :: themes[k].id == k && themes[k].parent == Empty && themes[k].dependencies == []
  }

  // ---------- Chains ----------

  ghost predicate Distinct(s: seq<Id>) {
    forall i, j | 0 <= i < j < |s| :: s[i] != s[j]
  }

  /** The ancestor after the first `n` on the path. */
  ghost function NextAfter(themes: Themes, id: Id, path: seq<Id>, n: nat): Id
    requires id in themes && n <= |path| && forall a | a in path :: a in themes
  {
    if n == 0 then themes[id].base else themes[path[n - 1]].base
  }

  ghost function Next(themes: Themes, id: Id, path: seq<Id>): Id
    requires id in themes && forall a | a in path :: a in themes
  {
    NextAfter(themes, id, path, |path|)
  }

  /** The ancestors met one after the other from theme `id` on, nearest first, all of them present and different. */
  ghost predicate IsPath(themes: Themes, id: Id, path: seq<Id>)
    requires id in themes
  {
    && (forall a | a in path :: a in themes)
    && (forall i {:trigger NextAfter(themes, id, path, i)} | 0 <= i < |path| ::
          path[i] == NextAfter(themes, id, path, i))
    && Distinct(path) && id !in path
    && (themes[id].isBaseTheme ==> forall a | a in path :: themes[a].isBaseTheme)
  }

  /** A path that ends at a root, which is a base theme. */
  ghost predicate IsChain(themes: Themes, id: Id, chain: seq<Id>)
    requires id in themes
  {
    && chain != [] && IsPath(themes, id, chain)
    && themes[chain[|chain| - 1]].base == Empty && themes[chain[|chain| - 1]].isBaseTheme
  }

  /** What a theme must be to be kept. */
  ghost predicate Good(themes: Themes, id: Id)
    requires id in themes
  {
    if themes[id].base == Empty then themes[id].isBaseTheme else exists chain :: IsChain(themes, id, chain)
  }

  lemma {:induction false} PathAgrees(themes: Themes, id: Id, path: seq<Id>, chain: seq<Id>, n: nat)
    requires id in themes && IsPath(themes, id, path) && IsPath(themes, id, chain)
    requires n <= |path| && n <= |chain|
    ensures forall k | 0 <= k < n :: path[k] == chain[k]
    ensures NextAfter(themes, id, path, n) == NextAfter(themes, id, chain, n)
  {
    if n > 0 {
      PathAgrees(themes, id, path, chain, n - 1);
      assert path[n - 1] == NextAfter(themes, id, path, n - 1);
      assert chain[n - 1] == NextAfter(themes, id, chain, n - 1);
    }
  }

  lemma StepInThemes(themes: Themes, id: Id, path: seq<Id>, n: nat)
    requires Empty !in themes && id in themes && IsPath(themes, id, path) && n < |path|
    ensures NextAfter(themes, id, path, n) == path[n] && path[n] != Empty
  {
    assert path[n] in path;
  }

  /** A path agrees with every chain as far as it goes, and goes no further. */
  lemma PathIsPrefix(themes: Themes, id: Id, path: seq<Id>, chain: seq<Id>)
    requires Empty !in themes && id in themes && IsPath(themes, id, path) && IsChain(themes, id, chain)
    ensures |path| <= |chain| && path == chain[..|path|]
    ensures Next(themes, id, path) == NextAfter(themes, id, chain, |path|)
  {
    if |path| > |chain| {
      StepInThemes(themes, id, path, |chain|);
      PathAgrees(themes, id, path, chain, |chain|);
    } else {
      PathAgrees(themes, id, path, chain, |path|);
    }
  }

  /** A path that has not reached a root goes on along the chain. */
  lemma NextOnChain(themes: Themes, id: Id, path: seq<Id>, chain: seq<Id>)
    requires Empty !in themes && id in themes && IsPath(themes, id, path) && IsChain(themes, id, chain)
    requires Next(themes, id, path) != Empty
    ensures var next := Next(themes, id, path);
            && next in themes && next !in path && next != id
            && (themes[id].isBaseTheme ==> themes[next].isBaseTheme)
  {
    PathIsPrefix(themes, id, path, chain);
    assert |path| < |chain|;
    var next := chain[|path|];
    assert next in chain;
    assert forall k | 0 <= k < |path| :: path[k] == chain[k] != next;
  }

  /** A path that has reached a root is the chain. */
  lemma RootEndsChain(themes: Themes, id: Id, path: seq<Id>, chain: seq<Id>)
    requires Empty !in themes && id in themes && IsPath(themes, id, path) && IsChain(themes, id, chain)
    requires Next(themes, id, path) == Empty
    ensures path == chain
  {
    PathIsPrefix(themes, id, path, chain);
  }

  ghost function ChainOf(themes: Themes, id: Id): (chain: seq<Id>)
    requires id in themes && themes[id].base != Empty && Good(themes, id)
    ensures IsChain(themes, id, chain)
  {
    var chain :| IsChain(themes, id, chain);
    chain
  }

  // ---------- Resolution ----------

  ghost function Reversed(s: seq<Id>): (r: seq<Id>)
    ensures |r| == |s| && forall i | 0 <= i < |s| :: r[i] == s[|s| - 1 - i]
  {
    seq(|s|, i requires 0 <= i < |s| => s[|s| - 1 - i])
  }

  lemma ReversedMembers(s: seq<Id>)
    ensures forall a :: a in Reversed(s) <==> a in s
  {
    forall a | a in s
      ensures a in Reversed(s)
    {
      var k :| 0 <= k < |s| && s[k] == a;
      assert Reversed(s)[|s| - 1 - k] == a;
    }
  }

  /** The first base theme on a path, or the empty id. */
  ghost function FirstBase(themes: Themes, path: seq<Id>): Id
    requires forall a | a in path :: a in themes
  {
    if path == [] then Empty
    else
      var init := FirstBase(themes, path[..|path| - 1]);
      if init != Empty then init
      else if themes[path[|path| - 1]].isBaseTheme then path[|path| - 1] else Empty
  }

  /** A kept theme with its dependencies root first and, for a variant, its nearest base ancestor. */
  ghost function ResolvedTheme(themes: Themes, id: Id): Theme
    requires id in themes && Good(themes, id)
  {
    var t := themes[id];
    if t.base == Empty then t
    else
      var chain := ChainOf(themes, id);
      t.(dependencies := Reversed(chain), parent := if t.isBaseTheme then Empty else FirstBase(themes, chain))
  }

  lemma RootIsItself(themes: Themes, id: Id)
    requires id in themes && themes[id].base == Empty
    ensures Good(themes, id) <==> themes[id].isBaseTheme
    ensures Good(themes, id) ==> ResolvedTheme(themes, id) == themes[id]
  {
  }

  ghost function Resolved(themes: Themes): Themes {
    map id | id in themes && Good(themes, id) :: ResolvedTheme(themes, id)
  }

  /** The walk up from one theme has come as far as `path`. */
  ghost predicate Walked(themes: Themes, id: Id, path: seq<Id>, theme: Theme, parentId: Id) {
    && id in themes && IsPath(themes, id, path)
    && parentId == Next(themes, id, path)
    && theme == themes[id].(dependencies := Reversed(path),
                            parent := if themes[id].isBaseTheme then Empty else FirstBase(themes, path))
  }

  /** The two differ at most in what the resolution computes. */
  ghost predicate SameTheme(t: Theme, u: Theme) {
    t.(parent := u.parent, dependencies := u.dependencies) == u
  }

  ghost function Unvisited(themes: Themes, path: seq<Id>): set<Id> {
    set a | a in themes && a !in path
  }

  class App {
    var themes: Themes

    constructor (themes: Themes)
      ensures this.themes == themes
    {
      this.themes := themes;
    }

    /**
      The second half of `FindThemes`: exactly the good themes are kept, each resolved, in whatever order
      the themes are visited.
     */
    method ResolveThemes()
      requires Unresolved(themes)
      modifies this
      ensures themes == Resolved(old(themes))
    {
      hide ResolvedTheme, Good;
      ghost var read := themes;
      var invalid: set<Id> := {};
      var todo := themes.Keys;
      while todo != {}
        invariant todo <= themes.Keys == read.Keys && invalid <= themes.Keys - todo
        invariant forall id | id in themes :: SameTheme(themes[id], read[id])
        invariant forall id | id in todo :: themes[id] == read[id]
        invariant forall id | id in themes && id !in todo :: id in invalid <==> !Good(read, id)
        invariant forall id | id in themes && id !in todo && Good(read, id) :: themes[id] == ResolvedTheme(read, id)
      {
        var id :| id in todo;
        todo := todo - {id};
        var theme := themes[id];
        if theme.base == Empty {
          RootIsItself(read, id);
          if !theme.isBaseTheme {
            invalid := invalid + {id};
          }
        } else {
          var valid;
          theme, valid := WalkAncestors(themes, id, read);
          themes := themes[id := theme];
          if !valid {
            invalid := invalid + {id};
          }
        }
      }
      themes := themes - invalid;
    }

    /** A high-contrast layer made for a theme. */
    predicate IsLayerOf(layer: Id, name: Id)
      requires layer in themes
      reads this
    {
      themes[layer].isHighContrast && themes[layer].parent == name
    }

    /**
      The themes `SetTheme` loads, in order: the dependencies, the theme itself and, if wanted, one
      high-contrast layer made for it.
     */
    method SetTheme(name: Id, highContrast: bool) returns (r: LoadResult)
      requires forall k | k in themes :: themes[k].id == k
      ensures r == NoSuchTheme <==> name !in themes
      ensures r.Loaded? <==> name in themes && forall d | d in themes[name].dependencies :: d in themes
      ensures r.NullTheme? ==> r.id in themes[name].dependencies && r.id !in themes
      ensures r.Loaded? ==>
                if highContrast && exists layer :: layer in themes && IsLayerOf(layer, name)
                then exists layer :: layer in themes && IsLayerOf(layer, name)
                                     && r.order == themes[name].dependencies + [name, layer]
                else r.order == themes[name].dependencies + [name]
    {
      if name !in themes {
        return NoSuchTheme;
      }
      var theme := themes[name];
      var themeIds := theme.dependencies + [theme.id];
      if highContrast && exists id :: id in themes && IsLayerOf(id, theme.id) {
        var layer :| layer in themes && IsLayerOf(layer, theme.id);
        themeIds := themeIds + [layer];
      }
      for i := 0 to |themeIds|
        invariant forall k | 0 <= k < i :: themeIds[k] in themes
      {
        if themeIds[i] !in themes {
          return NullTheme(themeIds[i]);
        }
      }
      assert forall d | d in theme.dependencies :: d in themeIds;
      return Loaded(themeIds);
    }

    /** The walk up the ancestors of one theme. */
    method WalkAncestors(current: Themes, id: Id, ghost themes: Themes) returns (theme: Theme, valid: bool)
      requires Unresolved(themes) && id in themes && themes[id].base != Empty
      requires current.Keys == themes.Keys && current[id] == themes[id]
      requires forall a | a in themes :: SameTheme(current[a], themes[a])
      ensures valid <==> Good(themes, id)
      ensures valid ==> theme == ResolvedTheme(themes, id)
      ensures SameTheme(theme, themes[id])
    {
      hide FirstBase, Reversed, IsPath;
      theme := current[id];
      var parentId := theme.base;
      ghost var path: seq<Id> := [];
      NothingRecorded(themes, id);
      while parentId != Empty
        invariant Walked(themes, id, path, theme, parentId)
        invariant parentId == Empty ==> IsChain(themes, id, path)
        decreases Unvisited(themes, path)
      {
        if parentId !in current {
          NoChain(themes, id, path, parentId);
          return theme, false;
        }
        var parent := current[parentId];
        if theme.isBaseTheme && !parent.isBaseTheme {
          NoChain(themes, id, path, parentId);
          return theme, false;
        }
        ReversedMembers(path);
        if parent.id == theme.id || parent.id in theme.dependencies {
          NoChain(themes, id, path, parentId);
          return theme, false;
        }
        if !theme.isBaseTheme && parent.isBaseTheme && theme.parent == Empty {
          theme := theme.(parent := parent.id);
        }
        theme := theme.(dependencies := [parent.id] + theme.dependencies);
        PathExtends(themes, id, path, parentId);
        RecordExtends(themes, path, parentId);
        ghost var before := path;
        path := path + [parentId];
        assert parentId in Unvisited(themes, before) && parentId !in Unvisited(themes, path);
        parentId := parent.base;
        if parentId == Empty && !parent.isBaseTheme {
          NoBaseRoot(themes, id, path);
          return theme, false;
        }
      }
      RootEndsChain(themes, id, path, ChainOf(themes, id));
      return theme, true;
    }
  }

  lemma NothingRecorded(themes: Themes, id: Id)
    requires id in themes
    ensures Reversed([]) == [] && FirstBase(themes, []) == Empty && IsPath(themes, id, [])
  {
  }

  lemma RecordExtends(themes: Themes, path: seq<Id>, next: Id)
    requires next in themes && forall a | a in path :: a in themes
    ensures Reversed(path + [next]) == [next] + Reversed(path)
    ensures FirstBase(themes, path + [next])
         == if FirstBase(themes, path) == Empty && themes[next].isBaseTheme then next else FirstBase(themes, path)
  {
    assert (path + [next])[..|path|] == path;
  }

  lemma PathExtends(themes: Themes, id: Id, path: seq<Id>, next: Id)
    requires id in themes && IsPath(themes, id, path) && next == Next(themes, id, path) && next in themes
    requires next !in path && next != id && (themes[id].isBaseTheme ==> themes[next].isBaseTheme)
    ensures IsPath(themes, id, path + [next])
  {
    var longer := path + [next];
    forall i | 0 <= i < |longer|
      ensures longer[i] == NextAfter(themes, id, longer, i)
    {
      assert i < |path| ==> longer[i] == path[i] == NextAfter(themes, id, path, i);
    }
  }

  /** A next ancestor that is missing, met before or of the wrong kind rules every chain out. */
  lemma NoChain(themes: Themes, id: Id, path: seq<Id>, next: Id)
    requires Empty !in themes && id in themes && IsPath(themes, id, path) && next == Next(themes, id, path)
    requires next != Empty && themes[id].base != Empty
    requires next !in themes || next in path || next == id || (themes[id].isBaseTheme && !themes[next].isBaseTheme)
    ensures !Good(themes, id)
  {
    if Good(themes, id) {
      NextOnChain(themes, id, path, ChainOf(themes, id));
    }
  }

  /** So does a root that is not a base theme. */
  lemma NoBaseRoot(themes: Themes, id: Id, path: seq<Id>)
    requires Empty !in themes && id in themes && IsPath(themes, id, path) && path != [] && themes[id].base != Empty
    requires themes[path[|path| - 1]].base == Empty && !themes[path[|path| - 1]].isBaseTheme
    ensures !Good(themes, id)
  {
    if Good(themes, id) {
      RootEndsChain(themes, id, path, ChainOf(themes, id));
    }
  }

  // ---------- What is recorded ----------

  /** From the root, a base theme, each theme is extended by the next one, and the last one by theme `id`. */
  ghost predicate DescendsTo(themes: Themes, d: seq<Id>, id: Id) {
    && d != [] && id in themes && themes[id].base == d[|d| - 1]
    && (forall i | 0 <= i < |d| :: d[i] in themes)
    && themes[d[0]].base == Empty && themes[d[0]].isBaseTheme
    && forall i | 0 <= i < |d| - 1 :: themes[d[i + 1]].base == d[i]
  }

  /** The base theme of these that comes last. */
  ghost predicate LastBase(themes: Themes, d: seq<Id>, a: Id) {
    exists k :: 0 <= k < |d| && d[k] == a && a in themes && themes[a].isBaseTheme
                && forall j | k < j < |d| :: d[j] in themes && !themes[d[j]].isBaseTheme
  }

  /** A kept theme depends on its ancestors, root first, and a variant has the nearest base theme as its parent. */
  lemma DependenciesDescend(themes: Themes, id: Id)
    requires Unresolved(themes) && id in themes && Good(themes, id)
    ensures var t, r := themes[id], Resolved(themes)[id];
            && SameTheme(r, t)
            && (if t.base == Empty then r.dependencies == [] else DescendsTo(themes, r.dependencies, id))
            && (if t.base == Empty || t.isBaseTheme then r.parent == Empty
                else LastBase(themes, r.dependencies, r.parent))
  {
    hide IsChain, FirstBase, DescendsTo, LastBase, Reversed;
    if themes[id].base != Empty {
      var chain := ChainOf(themes, id);
      ReversedDescends(themes, id, chain);
      if !themes[id].isBaseTheme {
        ReversedHasBase(themes, id, chain);
      }
    }
  }

  lemma ReversedDescends(themes: Themes, id: Id, chain: seq<Id>)
    requires Empty !in themes && id in themes && IsChain(themes, id, chain)
    ensures DescendsTo(themes, Reversed(chain), id)
  {
    var d := Reversed(chain);
    forall i | 0 <= i < |d|
      ensures d[i] in themes && d[i] == NextAfter(themes, id, chain, |d| - 1 - i)
    {
      StepInThemes(themes, id, chain, |d| - 1 - i);
      assert d[i] == chain[|d| - 1 - i] && chain[|d| - 1 - i] in chain;
    }
  }

  lemma ReversedHasBase(themes: Themes, id: Id, chain: seq<Id>)
    requires Empty !in themes && id in themes && IsChain(themes, id, chain)
    ensures LastBase(themes, Reversed(chain), FirstBase(themes, chain))
  {
    hide FirstBase;
    var d, a := Reversed(chain), FirstBase(themes, chain);
    FirstBaseIsNearest(themes, chain);
    var k :| 0 <= k < |chain| && chain[k] == a && forall j | 0 <= j < k :: !themes[chain[j]].isBaseTheme;
    var n := |d| - 1 - k;
    assert d[n] == a;
    forall j | n < j < |d|
      ensures d[j] in themes && !themes[d[j]].isBaseTheme
    {
      assert d[j] == chain[|d| - 1 - j] && chain[|d| - 1 - j] in chain;
    }
  }

  lemma {:induction false} FirstBaseIsNearest(themes: Themes, path: seq<Id>)
    requires Empty !in themes && forall a | a in path :: a in themes
    ensures var a := FirstBase(themes, path);
            if a == Empty then forall k | 0 <= k < |path| :: !themes[path[k]].isBaseTheme
            else a in themes && themes[a].isBaseTheme
                 && exists k :: 0 <= k < |path| && path[k] == a
                                && forall j | 0 <= j < k :: !themes[path[j]].isBaseTheme
  {
    if path != [] {
      var init := path[..|path| - 1];
      FirstBaseIsNearest(themes, init);
      var a := FirstBase(themes, init);
      if a != Empty {
        var k :| 0 <= k < |init| && init[k] == a && forall j | 0 <= j < k :: !themes[init[j]].isBaseTheme;
        assert path[k] == a;
      } else {
        assert forall j | 0 <= j < |init| :: init[j] == path[j];
        assert path[|path| - 1] in path;
      }
    }
  }

  // ---------- Loading ----------

  /** An ancestor is kept unless it is a base theme with an ancestor that is not one. */
  lemma AncestorGoodIff(themes: Themes, id: Id, chain: seq<Id>, i: nat)
    requires Empty !in themes && id in themes && IsChain(themes, id, chain) && i < |chain|
    ensures chain[i] in themes
    ensures Good(themes, chain[i]) <==>
            (themes[chain[i]].isBaseTheme ==> forall j | i < j < |chain| :: themes[chain[j]].isBaseTheme)
  {
    var a, rest := chain[i], chain[i + 1..];
    assert a in chain;
    assert forall x | x in rest :: x in chain;
    if i + 1 < |chain| {
      StepInThemes(themes, id, chain, i + 1);
      RestIsPathIff(themes, id, chain, i);
      if Good(themes, a) {
        var c := ChainOf(themes, a);
        ChainIsRest(themes, id, chain, i, c);
      }
    }
  }

  /** The rest of a chain, seen from one of its themes, fails to be a path only by the kinds of the themes. */
  lemma RestIsPathIff(themes: Themes, id: Id, chain: seq<Id>, i: nat)
    requires Empty !in themes && id in themes && IsChain(themes, id, chain) && i + 1 < |chain|
    requires chain[i] in themes
    ensures IsChain(themes, chain[i], chain[i + 1..]) <==>
            (themes[chain[i]].isBaseTheme ==> forall j | i < j < |chain| :: themes[chain[j]].isBaseTheme)
  {
    var a, rest := chain[i], chain[i + 1..];
    RestSteps(themes, id, chain, i);
    assert forall j | i < j < |chain| :: chain[j] == rest[j - i - 1];
    if themes[a].isBaseTheme && IsChain(themes, a, rest) {
      forall j | i < j < |chain|
        ensures themes[chain[j]].isBaseTheme
      {
        assert rest[j - i - 1] in rest;
      }
    }
  }

  lemma RestSteps(themes: Themes, id: Id, chain: seq<Id>, i: nat)
    requires Empty !in themes && id in themes && IsChain(themes, id, chain) && i + 1 < |chain|
    requires chain[i] in themes
    ensures var a, rest := chain[i], chain[i + 1..];
            && (forall x | x in rest :: x in themes)
            && (forall k {:trigger NextAfter(themes, a, rest, k)} | 0 <= k < |rest| ::
                  rest[k] == NextAfter(themes, a, rest, k))
            && Distinct(rest) && a !in rest && rest[|rest| - 1] == chain[|chain| - 1]
  {
    var a, rest := chain[i], chain[i + 1..];
    assert forall x | x in rest :: x in chain;
    SuffixDistinct(chain, i);
    forall k | 0 <= k < |rest|
      ensures rest[k] == NextAfter(themes, a, rest, k)
    {
      RestStep(themes, id, chain, i, k);
    }
  }

  lemma RestStep(themes: Themes, id: Id, chain: seq<Id>, i: nat, k: nat)
    requires Empty !in themes && id in themes && IsPath(themes, id, chain) && i + 1 + k < |chain|
    requires chain[i] in themes && forall x | x in chain[i + 1..] :: x in themes
    ensures chain[i + 1..][k] == NextAfter(themes, chain[i], chain[i + 1..], k)
  {
    StepInThemes(themes, id, chain, i + 1 + k);
  }

  lemma SuffixDistinct(s: seq<Id>, i: nat)
    requires Distinct(s) && i < |s|
    ensures Distinct(s[i + 1..]) && s[i] !in s[i + 1..]
  {
  }

  lemma {:induction false} ChainIsRest(themes: Themes, id: Id, chain: seq<Id>, i: nat, c: seq<Id>)
    requires Empty !in themes && id in themes && IsChain(themes, id, chain) && i + 1 < |chain|
    requires chain[i] in themes && IsChain(themes, chain[i], c)
    ensures c == chain[i + 1..]
  {
    var n := if |c| < |chain| - i - 1 then |c| else |chain| - i - 1;
    SameSteps(themes, id, chain, i, c, n);
    if n < |c| {
      StepInThemes(themes, chain[i], c, n);
    }
    if i + 1 + n < |chain| {
      StepInThemes(themes, id, chain, i + 1 + n);
    }
  }

  lemma {:induction false} SameSteps(themes: Themes, id: Id, chain: seq<Id>, i: nat, c: seq<Id>, n: nat)
    requires Empty !in themes && id in themes && IsPath(themes, id, chain) && i < |chain| && chain[i] in themes
    requires IsPath(themes, chain[i], c) && n <= |c| && n <= |chain| - i - 1
    ensures forall k | 0 <= k < n :: c[k] == chain[i + 1 + k]
    ensures NextAfter(themes, chain[i], c, n) == NextAfter(themes, id, chain, i + 1 + n)
  {
    if n > 0 {
      SameSteps(themes, id, chain, i, c, n - 1);
      StepInThemes(themes, chain[i], c, n - 1);
      StepInThemes(themes, id, chain, i + n);
    }
  }

  /** On the chain no base theme extends one that is not a base theme. */
  ghost predicate BasesStayBases(themes: Themes, chain: seq<Id>)
    requires forall a | a in chain :: a in themes
  {
    forall i | 0 <= i < |chain| - 1 && themes[chain[i]].isBaseTheme :: themes[chain[i + 1]].isBaseTheme
  }

  /** All dependencies of a kept theme are kept exactly when no base theme among them extends a non-base one. */
  lemma DependenciesKeptIff(themes: Themes, id: Id)
    requires Unresolved(themes) && id in Resolved(themes) && themes[id].base != Empty
    ensures (forall d | d in Resolved(themes)[id].dependencies :: d in Resolved(themes))
            <==> BasesStayBases(themes, ChainOf(themes, id))
  {
    var chain := ChainOf(themes, id);
    ReversedMembers(chain);
    forall i | 0 <= i < |chain|
      ensures chain[i] in themes
      ensures Good(themes, chain[i]) <==>
              (themes[chain[i]].isBaseTheme ==> forall j | i < j < |chain| :: themes[chain[j]].isBaseTheme)
    {
      AncestorGoodIff(themes, id, chain, i);
    }
    if BasesStayBases(themes, chain) {
      forall i | 0 <= i < |chain|
        ensures Good(themes, chain[i])
      {
        BasesAllTheWay(themes, chain, i);
      }
    } else {
      var i :| 0 <= i < |chain| - 1 && themes[chain[i]].isBaseTheme && !themes[chain[i + 1]].isBaseTheme;
      assert chain[i] in chain && !Good(themes, chain[i]);
    }
  }

  lemma BasesAllTheWay(themes: Themes, chain: seq<Id>, i: nat)
    requires (forall a | a in chain :: a in themes) && BasesStayBases(themes, chain) && i < |chain|
    ensures themes[chain[i]].isBaseTheme ==> forall j | i < j < |chain| :: themes[chain[j]].isBaseTheme
    decreases |chain| - i
  {
    if i + 1 < |chain| {
      BasesAllTheWay(themes, chain, i + 1);
    }
  }

  /** A variant of a base theme that extends a variant loses a dependency that its own record still names. */
  lemma LostDependencyExample()
    ensures var root := Theme(Named("root"), Empty, true, false, Empty, []);
            var mid := Theme(Named("mid"), Named("root"), false, false, Empty, []);
            var styled := Theme(Named("styled"), Named("mid"), true, false, Empty, []);
            var leaf := Theme(Named("leaf"), Named("styled"), false, false, Empty, []);
            var themes := map[root.id := root, mid.id := mid, styled.id := styled, leaf.id := leaf];
            && Unresolved(themes) && leaf.id in Resolved(themes)
            && styled.id in Resolved(themes)[leaf.id].dependencies && styled.id !in Resolved(themes)
  {
    hide IsChain;
    var root := Theme(Named("root"), Empty, true, false, Empty, []);
    var mid := Theme(Named("mid"), Named("root"), false, false, Empty, []);
    var styled := Theme(Named("styled"), Named("mid"), true, false, Empty, []);
    var leaf := Theme(Named("leaf"), Named("styled"), false, false, Empty, []);
    assert "root" != "leaf" && |"mid"| == 3 && |"styled"| == 6 && "root"[0] != "leaf"[0];
    var themes := map[root.id := root, mid.id := mid, styled.id := styled, leaf.id := leaf];
    var chain := [styled.id, mid.id, root.id];
    ThreeChain(themes, leaf.id, styled.id, mid.id, root.id);
    RootEndsChain(themes, leaf.id, chain, ChainOf(themes, leaf.id));
    ReversedMembers(chain);
    AncestorGoodIff(themes, leaf.id, chain, 0);
    assert !themes[chain[1]].isBaseTheme;
  }

  lemma ThreeChain(themes: Themes, id: Id, a: Id, b: Id, c: Id)
    requires id in themes && a in themes && b in themes && c in themes
    requires themes[id].base == a && themes[a].base == b && themes[b].base == c && themes[c].base == Empty
    requires a != b && a != c && b != c && id !in [a, b, c] && !themes[id].isBaseTheme && themes[c].isBaseTheme
    ensures IsChain(themes, id, [a, b, c]) && Next(themes, id, [a, b, c]) == Empty && IsPath(themes, id, [a, b, c])
  {
  }

  datatype LoadResult =
    | NoSuchTheme
    | Loaded(order: seq<Id>)
    | NullTheme(id: Id)  // a listed theme is not there, and its location is read through a null pointer
}
