/**
  Lambda lifting of a shader's globals. The parameters added to a function's definition are enough for everything its
  emitted body refers to, and the arguments added to a call are the parameters of the function called.
 */
module ShaderLifting {
  import opened ShaderAnalysis
  import opened ShaderCalls
  import opened ShaderClosure
  import opened ShaderEmit
  import opened ShaderEnds
  import opened ShaderReferences
  import opened ShaderScan
  import opened ShaderSyntax
  import opened Wrappers

  const MAIN := Symbol("main")

  function ToSet<T>(s: seq<T>): set<T> {
    set x | x in s
  }

  /** The textures that a function gets: all of them for the entry function. */
  function TexturesOf(sh: Shader, d: Needs, main: bool): set<Symbol> {
    set n | n in sh.order && sh.IsTexture(n) && (main || n in d.textures)
  }

  /** The parameters added to a definition: the block, then textures and samplers in declaration order. */
  function ExtraParams(sh: Shader, d: Needs, main: bool): seq<Param> {
    (if sh.HasPlain() && (main || d.uniforms) then [UniformBlock] else [])
    + (if sh.fragment then TextureArgs(sh, Filter(sh.order, TexturesOf(sh, d, main))) else [])
    + (if sh.fragment then SamplerParams(if main then sh.samplers else Filter(sh.samplers, ToSet(d.samplers))) else [])
  }

  lemma ExtraParamsAre(sh: Shader, d: Needs, main: bool, p: Param)
    requires Sound(sh, d)
    ensures Has(d, p) ==> p in ExtraParams(sh, d, main)
    ensures !main && p in ExtraParams(sh, d, main) ==> Has(d, p)
  {
    var textures := TexturesOf(sh, d, main);
    TextureArgsAre(sh, Filter(sh.order, textures), p);
    SamplerParamsAre(if main then sh.samplers else Filter(sh.samplers, ToSet(d.samplers)), p);
    match p
    case UniformBlock =>
    case TextureParam(n) => FilterKeeps(sh.order, textures, n);
    case SamplerParam(n) => FilterKeeps(sh.samplers, ToSet(d.samplers), n);
  }

  // ---------- Closed bodies ----------

  /** Every global that the text refers to is a parameter. */
  ghost predicate Closed(sh: Shader, params: seq<Param>, out: seq<Piece>) {
    forall piece, r | piece in out && Refers(sh, piece, r) :: r.Lifted? && r.p in params
  }

  lemma ClosedIff(c: Context, params: seq<Param>, out: seq<Piece>, stray: bool)
    requires Faithful(c, ToSet(params), Marks(out), stray)
    ensures Closed(c.sh, params, out) <==> !stray
  {
    hide Refers;
    var marks := Marks(out);
    if stray {
      var piece :| piece in marks && Stray(c.sh, ToSet(params), piece);
      assert piece in out;
    } else {
      forall piece, r | piece in out && Refers(c.sh, piece, r) ensures r.Lifted? && r.p in params {
        TextRefersNot(c.sh, piece, r);
        assert piece in marks && !Stray(c.sh, ToSet(params), piece);
      }
    }
  }

  lemma TextRefersNot(sh: Shader, piece: Piece, r: Ref)
    requires Refers(sh, piece, r)
    ensures !piece.Text?
  {
  }

  lemma {:induction false} TidyIsGood(c: Context, params: set<Param>, trees: seq<Tree>)
    requires Tidy(trees) && forall t | t in Flat(trees) :: Covers(c, params, t)
    ensures Good(c, params, trees)
    decreases trees
  {
    if trees != [] {
      assert TidyTree(trees[0]);
      assert forall t | t in FlatTree(trees[0]) :: t in Flat(trees);
      TidyTreeIsGood(c, params, trees[0]);
      assert forall t | t in Flat(trees[1..]) :: t in Flat(trees);
      TidyIsGood(c, params, trees[1..]);
      assert trees == [trees[0]] + trees[1..];
    }
  }

  lemma {:induction false} TidyTreeIsGood(c: Context, params: set<Param>, tree: Tree)
    requires TidyTree(tree) && forall t | t in FlatTree(tree) :: Covers(c, params, t)
    ensures GoodTree(c, params, tree)
    decreases tree
  {
    match tree
    case Leaf(t) =>
    case Paren(kids) =>
      assert forall t | t in Flat(kids) :: t in FlatTree(tree);
      TidyIsGood(c, params, kids);
    case Brace(kids) =>
      assert forall t | t in Flat(kids) :: t in FlatTree(tree);
      TidyIsGood(c, params, kids);
  }

  /** The setting of a finished analysis. */
  ghost predicate Analyzed(sh: Shader, ts: seq<Token>, defs: seq<Definition>, bodies: seq<seq<Tree>>, c: Context) {
    && Holds(ts, defs, bodies) && Different(defs) && DefinedBeforeUse(defs, bodies)
    && c == Context(sh, Analysis(sh, ts, defs)) && Sane(c)
  }

  lemma RecordsAreSound(sh: Shader, ts: seq<Token>, defs: seq<Definition>, bodies: seq<seq<Tree>>, f: Symbol)
    requires Holds(ts, defs, bodies) && Different(defs) && f in Analysis(sh, ts, defs)
    ensures Recorded(sh, Analysis(sh, ts, defs)[f])
  {
    hide Recorded, Run;
    TablesAreRun(sh, ts, defs, bodies, |defs|);
    RunSound(sh, defs, bodies, Tables(sh, ts, defs, |defs|), |defs|);
  }

  /** Everything that the names of a body stand for is a parameter of the function. */
  lemma BodyIsCovered(sh: Shader, ts: seq<Token>, defs: seq<Definition>, bodies: seq<seq<Tree>>, c: Context, i: nat,
                      t: Token)
    requires Analyzed(sh, ts, defs, bodies, c) && i < |defs| && t in Flat(bodies[i])
    ensures defs[i].name in c.fs
    ensures Covers(c, ToSet(ExtraParams(sh, c.fs[defs[i].name], defs[i].name == MAIN)), t)
  {
    hide Holds, DefinedBeforeUse, Analysis, StandsFor, ExtraParams, Sane;
    var f := defs[i].name;
    NeedsAreClosed(sh, ts, defs, bodies, i, UniformBlock);
    RecordsAreSound(sh, ts, defs, bodies, f);
    if t.Name? {
      forall p | StandsFor(sh, c.fs, t.name, p) ensures p in ExtraParams(sh, c.fs[f], f == MAIN) {
        NeedsAreClosed(sh, ts, defs, bodies, i, p);
        StandsForSelf(sh, c.fs, f, t.name, p);
        ExtraParamsAre(sh, c.fs[f], f == MAIN, p);
      }
    }
  }

  /** A function's own name adds nothing to what it needs. */
  lemma StandsForSelf(sh: Shader, fs: map<Symbol, Needs>, f: Symbol, n: Symbol, p: Param)
    requires StandsFor(sh, fs, n, p) && f in fs
    ensures StandsFor(sh, fs - {f}, n, p) || (n == f && Has(fs[f], p))
  {
  }

  /**
    Lifting closes every function whose callees are defined before it and whose calls have enough arguments: all that
    the emitted body refers to is a parameter of the emitted definition, exactly if no comparison of the body has a
    uniform where it gets no prefix, and no `Load` cuts a word down to the name of another global.
   */
  lemma LiftingClosesBody(sh: Shader, ts: seq<Token>, defs: seq<Definition>, bodies: seq<seq<Tree>>, c: Context, i: nat,
                          s: Scan)
    requires Analyzed(sh, ts, defs, bodies, c) && i < |defs| && Tidy(bodies[i])
    requires Content(c, ts, defs[i].start, CloseBrace) == Some(s)
    requires CallsFit(sh, bodies[i])
    ensures defs[i].name in c.fs
    ensures Closed(sh, ExtraParams(sh, c.fs[defs[i].name], defs[i].name == MAIN), s.out)
       <==> !StrayIn(c, ToSet(ExtraParams(sh, c.fs[defs[i].name], defs[i].name == MAIN)), OpenBrace, bodies[i],
                     CloseBrace)
  {
    var f, body, p := defs[i].name, bodies[i], defs[i].start;
    BodyHolds(ts, defs, bodies, i);
    hide Holds, DefinedBeforeUse, Analysis, StandsFor, ExtraParams, Sane, Content, Emit, Region, StrayIn, Closed,
         Covers, Faithful, Proper, Tidy, Good, CallsFit;
    ScanConsumesBody(c, ts, p, body);
    EmitStays(c, OpenBrace, body, CloseBrace);
    NeedsAreClosed(sh, ts, defs, bodies, i, UniformBlock);
    var params := ExtraParams(sh, c.fs[f], f == MAIN);
    forall t | t in Flat(body) ensures Covers(c, ToSet(params), t) {
      BodyIsCovered(sh, ts, defs, bodies, c, i, t);
    }
    TidyIsGood(c, ToSet(params), body);
    BraceCovered(c, ToSet(params));
    EmitRefers(c, ToSet(params), OpenBrace, body, CloseBrace);
    ClosedIff(c, params, s.out, StrayIn(c, ToSet(params), OpenBrace, body, CloseBrace));
  }

  lemma BraceCovered(c: Context, params: set<Param>)
    ensures Covers(c, params, OpenBrace)
  {
  }

  lemma BodyHolds(ts: seq<Token>, defs: seq<Definition>, bodies: seq<seq<Tree>>, i: nat)
    requires Holds(ts, defs, bodies) && i < |defs|
    ensures Proper(bodies[i]) && RegionTree(ts, defs[i].start, Brace(bodies[i]))
  {
    assert HoldsBody(ts, defs[i], bodies[i]);
  }

  // ---------- Arguments and parameters ----------

  lemma {:induction false} CountOf<T>(s: seq<T>, x: T)
    requires NoRepeats(s)
    ensures multiset(s)[x] == if x in s then 1 else 0
  {
    if s != [] {
      var rest := s[..|s| - 1];
      assert s == rest + [s[|s| - 1]];
      CountOf(rest, x);
    }
  }

  lemma SameElements<T(!new)>(a: seq<T>, b: seq<T>)
    requires NoRepeats(a) && NoRepeats(b) && forall x :: x in a <==> x in b
    ensures multiset(a) == multiset(b)
  {
    forall x ensures multiset(a)[x] == multiset(b)[x] {
      CountOf(a, x);
      CountOf(b, x);
    }
  }

  lemma {:induction false} FilterDistinct(s: seq<Symbol>, keep: set<Symbol>)
    requires NoRepeats(s)
    ensures NoRepeats(Filter(s, keep))
  {
    if s != [] {
      var rest := s[..|s| - 1];
      FilterDistinct(rest, keep);
      FilterKeeps(rest, keep, s[|s| - 1]);
    }
  }

  lemma {:induction false} FilterOne(s: seq<Symbol>, n: Symbol)
    requires NoRepeats(s) && n in s
    ensures Filter(s, {n}) == [n]
  {
    var rest := s[..|s| - 1];
    assert s == rest + [s[|s| - 1]];
    if s[|s| - 1] == n {
      FilterNone(rest, n);
    } else {
      FilterOne(rest, n);
    }
  }

  lemma {:induction false} FilterNone(s: seq<Symbol>, n: Symbol)
    requires n !in s
    ensures Filter(s, {n}) == []
  {
    if s != [] {
      assert s == s[..|s| - 1] + [s[|s| - 1]];
      FilterNone(s[..|s| - 1], n);
    }
  }

  lemma {:induction false} TextureArgsAt(sh: Shader, names: seq<Symbol>)
    requires forall n | n in names :: sh.IsTexture(n)
    ensures |TextureArgs(sh, names)| == |names|
    ensures forall i | 0 <= i < |names| :: TextureArgs(sh, names)[i] == TextureParam(names[i])
  {
    if names != [] {
      TextureArgsAt(sh, names[..|names| - 1]);
    }
  }

  lemma {:induction false} SamplerParamsAt(names: seq<Symbol>)
    ensures |SamplerParams(names)| == |names|
    ensures forall i | 0 <= i < |names| :: SamplerParams(names)[i] == SamplerParam(names[i])
  {
    if names != [] {
      SamplerParamsAt(names[..|names| - 1]);
    }
  }

  lemma {:induction false} SamplerArgsAt(sh: Shader, names: seq<Symbol>)
    requires NoRepeats(sh.samplers) && forall n | n in names :: n in sh.samplers
    ensures SamplerArgs(sh, names) == SamplerParams(names)
  {
    if names != [] {
      var n := names[|names| - 1];
      SamplerArgsAt(sh, names[..|names| - 1]);
      FilterOne(sh.samplers, n);
      assert SamplerParams([n]) == [SamplerParam(n)];
    }
  }

  /** A record's textures and samplers in the order of their declarations. */
  function Sorted(sh: Shader, d: Needs): Needs {
    Needs(d.uniforms, Filter(sh.order, ToSet(d.textures)), Filter(sh.samplers, ToSet(d.samplers)))
  }

  /** Arguments follow the record, parameters the declarations. */
  lemma ArgsAndParams(sh: Shader, d: Needs)
    requires Recorded(sh, d) && sh.Distinct()
    ensures var block := if d.uniforms then [UniformBlock] else [];
            && ExtraArgs(sh, d) == block + TextureArgs(sh, d.textures) + SamplerParams(d.samplers)
            && ExtraParams(sh, d, false)
               == block + TextureArgs(sh, Sorted(sh, d).textures) + SamplerParams(Sorted(sh, d).samplers)
  {
    SamplerArgsAt(sh, d.samplers);
    FilterSame(sh.order, TexturesOf(sh, d, false), ToSet(d.textures));
    if !sh.fragment {
      FirstIn(d.textures);
      FirstIn(d.samplers);
      FilterEmpty(sh.order);
      FilterEmpty(sh.samplers);
      assert ToSet(d.textures) == {} && ToSet(d.samplers) == {};
    }
  }

  lemma FirstIn(s: seq<Symbol>)
    ensures s != [] ==> s[0] in s
  {
  }

  lemma {:induction false} FilterSame(s: seq<Symbol>, a: set<Symbol>, b: set<Symbol>)
    requires forall n | n in s :: n in a <==> n in b
    ensures Filter(s, a) == Filter(s, b)
  {
    if s != [] {
      FilterSame(s[..|s| - 1], a, b);
    }
  }

  lemma {:induction false} FilterEmpty(s: seq<Symbol>)
    ensures Filter(s, {}) == []
  {
    if s != [] {
      FilterEmpty(s[..|s| - 1]);
    }
  }

  lemma SortedIsRecorded(sh: Shader, d: Needs)
    requires Recorded(sh, d) && sh.Distinct()
    ensures Recorded(sh, Sorted(sh, d))
    ensures forall n :: n in Sorted(sh, d).textures <==> n in d.textures
    ensures forall n :: n in Sorted(sh, d).samplers <==> n in d.samplers
    ensures |Sorted(sh, d).textures| == |d.textures| && |Sorted(sh, d).samplers| == |d.samplers|
  {
    FilterDistinct(sh.order, ToSet(d.textures));
    FilterDistinct(sh.samplers, ToSet(d.samplers));
    forall n ensures n in Sorted(sh, d).textures <==> n in d.textures {
      FilterKeeps(sh.order, ToSet(d.textures), n);
    }
    forall n ensures n in Sorted(sh, d).samplers <==> n in d.samplers {
      FilterKeeps(sh.samplers, ToSet(d.samplers), n);
    }
    SameElements(Sorted(sh, d).textures, d.textures);
    SameElements(Sorted(sh, d).samplers, d.samplers);
    assert |multiset(d.textures)| == |multiset(Sorted(sh, d).textures)|;
    assert |multiset(d.samplers)| == |multiset(Sorted(sh, d).samplers)|;
  }

  /** The arguments added to a call are a permutation of the parameters added to the definition. */
  lemma ArgumentsPermuteParameters(sh: Shader, d: Needs)
    requires Recorded(sh, d) && sh.Distinct()
    ensures multiset(ExtraArgs(sh, d)) == multiset(ExtraParams(sh, d, false))
  {
    hide ExtraArgs, ExtraParams, Sorted, NoRepeats;
    ArgsAndParams(sh, d);
    SortedIsRecorded(sh, d);
    TexturesPermute(sh, d.textures, Sorted(sh, d).textures);
    SamplersPermute(d.samplers, Sorted(sh, d).samplers);
  }

  lemma TexturesPermute(sh: Shader, a: seq<Symbol>, b: seq<Symbol>)
    requires NoRepeats(a) && NoRepeats(b) && forall n :: n in a <==> n in b
    requires forall n | n in a :: sh.IsTexture(n)
    ensures multiset(TextureArgs(sh, a)) == multiset(TextureArgs(sh, b))
  {
    TextureArgsAt(sh, a);
    TextureArgsAt(sh, b);
    forall p ensures p in TextureArgs(sh, a) <==> p in TextureArgs(sh, b) {
      TextureArgsAre(sh, a, p);
      TextureArgsAre(sh, b, p);
    }
    SameElements(TextureArgs(sh, a), TextureArgs(sh, b));
  }

  lemma SamplersPermute(a: seq<Symbol>, b: seq<Symbol>)
    requires NoRepeats(a) && NoRepeats(b) && forall n :: n in a <==> n in b
    ensures multiset(SamplerParams(a)) == multiset(SamplerParams(b))
  {
    SamplerParamsAt(a);
    SamplerParamsAt(b);
    forall p ensures p in SamplerParams(a) <==> p in SamplerParams(b) {
      SamplerParamsAre(a, p);
      SamplerParamsAre(b, p);
    }
    SameElements(SamplerParams(a), SamplerParams(b));
  }

  // ---------- The same order ----------

  function IndexOf(s: seq<Symbol>, x: Symbol): (i: nat)
    requires x in s
    ensures i < |s| && s[i] == x
  {
    if s[|s| - 1] == x then |s| - 1 else IndexOf(s[..|s| - 1], x)
  }

  /** The names occur in the order of their declarations. */
  ghost predicate InOrder(declared: seq<Symbol>, names: seq<Symbol>)
    requires forall n | n in names :: n in declared
  {
    forall i, j | 0 <= i < j < |names| :: IndexOf(declared, names[i]) < IndexOf(declared, names[j])
  }

  /** Before the last declaration the order is that of the declarations before it. */
  lemma InOrderPrefix(s: seq<Symbol>, names: seq<Symbol>)
    requires s != [] && NoRepeats(s) && forall n | n in names :: n in s[..|s| - 1]
    ensures forall n | n in names :: n in s
    ensures InOrder(s, names) <==> InOrder(s[..|s| - 1], names)
  {
    var rest, last := s[..|s| - 1], s[|s| - 1];
    assert s == rest + [last];
    forall n | n in names ensures IndexOf(s, n) == IndexOf(rest, n) {
    }
  }

  lemma {:induction false} FilterInOrder(s: seq<Symbol>, keep: set<Symbol>)
    requires NoRepeats(s)
    ensures forall n | n in Filter(s, keep) :: n in s
    ensures InOrder(s, Filter(s, keep))
  {
    if s != [] {
      var rest, last := s[..|s| - 1], s[|s| - 1];
      var names := Filter(rest, keep);
      assert s == rest + [last];
      FilterInOrder(rest, keep);
      InOrderPrefix(s, names);
      if last in keep {
        InOrderLast(s, names);
      }
    }
  }

  /** The last declaration comes after all others. */
  lemma InOrderLast(s: seq<Symbol>, names: seq<Symbol>)
    requires s != [] && NoRepeats(s) && (forall n | n in names :: n in s[..|s| - 1]) && forall n | n in names :: n in s
    requires InOrder(s, names)
    ensures InOrder(s, names + [s[|s| - 1]])
  {
    var last, all := s[|s| - 1], names + [s[|s| - 1]];
    forall i, j | 0 <= i < j < |all| ensures IndexOf(s, all[i]) < IndexOf(s, all[j]) {
      if j == |names| {
        assert all[i] in names && all[j] == last;
        assert all[i] != last;
      } else {
        assert all[i] == names[i] && all[j] == names[j];
      }
    }
  }

  lemma FilterLast(rest: seq<Symbol>, last: Symbol, front: seq<Symbol>)
    requires last !in rest
    ensures Filter(rest + [last], ToSet(front + [last])) == Filter(rest, ToSet(front)) + [last]
  {
    FilterSame(rest, ToSet(front), ToSet(front + [last]));
    assert last in front + [last] && (rest + [last])[..|rest|] == rest;
  }

  lemma {:induction false} InOrderIsFilter(s: seq<Symbol>, names: seq<Symbol>)
    requires NoRepeats(s) && NoRepeats(names) && (forall n | n in names :: n in s) && InOrder(s, names)
    ensures names == Filter(s, ToSet(names))
  {
    hide InOrder, ToSet;
    FirstIn(names);
    if s != [] {
      var rest, last := s[..|s| - 1], s[|s| - 1];
      assert s == rest + [last];
      if last in names {
        var front := names[..|names| - 1];
        LastIsLast(s, names);
        InOrderFront(s, names);
        forall n | n in front ensures n in rest {
          assert n in s && n != last;
        }
        InOrderPrefix(s, front);
        InOrderIsFilter(rest, front);
        assert last !in rest;
        FilterLast(rest, last, front);
        assert names == front + [last];
      } else {
        InOrderPrefix(s, names);
        InOrderIsFilter(rest, names);
        LastOut(s, names);
      }
    }
  }

  lemma LastOut(s: seq<Symbol>, names: seq<Symbol>)
    requires s != [] && s[|s| - 1] !in names
    ensures Filter(s, ToSet(names)) == Filter(s[..|s| - 1], ToSet(names))
  {
  }

  lemma LastIsLast(s: seq<Symbol>, names: seq<Symbol>)
    requires s != [] && NoRepeats(names) && (forall n | n in names :: n in s) && InOrder(s, names)
    requires s[|s| - 1] in names
    ensures names[|names| - 1] == s[|s| - 1]
    ensures s[|s| - 1] !in names[..|names| - 1]
  {
    var k :| 0 <= k < |names| && names[k] == s[|s| - 1];
    assert IndexOf(s, names[k]) >= IndexOf(s, names[|names| - 1]);
  }

  lemma InOrderFront(s: seq<Symbol>, names: seq<Symbol>)
    requires names != [] && (forall n | n in names :: n in s) && InOrder(s, names)
    ensures (forall n | n in names[..|names| - 1] :: n in s) && InOrder(s, names[..|names| - 1])
  {
    var front := names[..|names| - 1];
    forall n | n in front ensures n in s {
      assert n in names;
    }
    forall i, j | 0 <= i < j < |front| ensures IndexOf(s, front[i]) < IndexOf(s, front[j]) {
      assert IndexOf(s, names[i]) < IndexOf(s, names[j]);
    }
  }

  /**
    Arguments and parameters are the same sequence exactly if the function uses its textures and samplers for the
    first time in the order in which they are declared.
   */
  lemma SameSequenceIff(sh: Shader, d: Needs)
    requires Recorded(sh, d) && sh.Distinct()
    ensures (forall n | n in d.textures :: n in sh.order) && (forall n | n in d.samplers :: n in sh.samplers)
    ensures ExtraArgs(sh, d) == ExtraParams(sh, d, false)
       <==> InOrder(sh.order, d.textures) && InOrder(sh.samplers, d.samplers)
  {
    var e := Sorted(sh, d);
    ArgsAndParams(sh, d);
    SortedIsRecorded(sh, d);
    OrderIff(sh.order, d.textures);
    OrderIff(sh.samplers, d.samplers);
    TextureArgsAt(sh, d.textures);
    TextureArgsAt(sh, e.textures);
    SamplerParamsAt(d.samplers);
    SamplerParamsAt(e.samplers);
    SameParts(if d.uniforms then [UniformBlock] else [], TextureArgs(sh, d.textures), TextureArgs(sh, e.textures),
              SamplerParams(d.samplers), SamplerParams(e.samplers));
    SameTextures(sh, d.textures, e.textures);
    SameSamplers(d.samplers, e.samplers);
  }

  lemma OrderIff(s: seq<Symbol>, names: seq<Symbol>)
    requires NoRepeats(s) && NoRepeats(names) && forall n | n in names :: n in s
    ensures names == Filter(s, ToSet(names)) <==> InOrder(s, names)
  {
    FilterInOrder(s, ToSet(names));
    if InOrder(s, names) {
      InOrderIsFilter(s, names);
    }
  }

  lemma SameParts(block: seq<Param>, a: seq<Param>, b: seq<Param>, x: seq<Param>, y: seq<Param>)
    requires |a| == |b| && |x| == |y|
    ensures block + a + x == block + b + y <==> a == b && x == y
  {
    if block + a + x == block + b + y {
      var n := |block|;
      assert (block + a + x)[n..n + |a|] == a && (block + b + y)[n..n + |a|] == b;
      assert (block + a + x)[n + |a|..] == x && (block + b + y)[n + |a|..] == y;
    }
  }

  lemma SameTextures(sh: Shader, a: seq<Symbol>, b: seq<Symbol>)
    requires |a| == |b| && (forall n | n in a :: sh.IsTexture(n)) && (forall n | n in b :: sh.IsTexture(n))
    ensures TextureArgs(sh, a) == TextureArgs(sh, b) <==> a == b
  {
    TextureArgsAt(sh, a);
    TextureArgsAt(sh, b);
    if TextureArgs(sh, a) == TextureArgs(sh, b) {
      forall i | 0 <= i < |a| ensures a[i] == b[i] {
        assert TextureArgs(sh, a)[i] == TextureArgs(sh, b)[i];
      }
    }
  }

  lemma SameSamplers(a: seq<Symbol>, b: seq<Symbol>)
    requires |a| == |b|
    ensures SamplerParams(a) == SamplerParams(b) <==> a == b
  {
    SamplerParamsAt(a);
    SamplerParamsAt(b);
    if SamplerParams(a) == SamplerParams(b) {
      forall i | 0 <= i < |a| ensures a[i] == b[i] {
        assert SamplerParams(a)[i] == SamplerParams(b)[i];
      }
    }
  }

  // ---------- Where the arguments are added ----------

  /**
    A call gets the callee's parameters exactly if the callee's name stands directly before the parenthesis, or the
    callee needs nothing: after a space the name of the callee is not seen.
   */
  lemma CallMatchesIff(c: Context, g: Symbol, prev: Token)
    requires g in c.fs && Recorded(c.sh, c.fs[g]) && c.sh.Distinct() && (prev == Name(g) || prev.Space?)
    ensures var params := ExtraParams(c.sh, c.fs[g], false);
            multiset(c.Added(prev)) == multiset(params) <==> prev == Name(g) || params == []
  {
    hide ExtraParams, ExtraArgs;
    var params := ExtraParams(c.sh, c.fs[g], false);
    ArgumentsPermuteParameters(c.sh, c.fs[g]);
    assert params != [] ==> params[0] in multiset(params);
  }
}
