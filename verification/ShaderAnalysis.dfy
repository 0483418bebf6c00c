/**
  What each shader function needs of the globals that Metal does not have: the uniform block, textures and samplers.
  The analysis walks a function's tokens once, and takes over what the functions named there need.
 */
module ShaderAnalysis {
  import opened ShaderSyntax

  /** A parameter that lifting adds to a function. */
  datatype Param = UniformBlock | TextureParam(name: Symbol) | SamplerParam(name: Symbol)

  /** What the analysis records of a function. */
  datatype Needs = Needs(uniforms: bool, textures: seq<Symbol>, samplers: seq<Symbol>)

  const NOTHING := Needs(false, [], [])

  datatype Sampling = Sample | SampleBias | SampleGrad | SampleLevel | Load

  /** What becomes of a name that the transpiler knows. */
  datatype Word = Unsupported | Rewritten(text: string) | Multiply | MultiplyAdd

  /**
    The declarations of one shader: its uniforms in declaration order, which of them have a texture type, its
    samplers, the structs that are both input and output, and the names of the language that are rewritten.
   */
  datatype Shader = Shader(fragment: bool, order: seq<Symbol>, textures: set<Symbol>, samplers: seq<Symbol>,
                           paired: set<Symbol>, words: map<Symbol, Word>, methods: map<Symbol, Sampling>)
  {
    /** Only a fragment shader tells textures from other uniforms. */
    predicate IsTexture(n: Symbol) {
      fragment && n in textures && n in order
    }

    predicate IsPlain(n: Symbol) {
      n in order && !IsTexture(n)
    }

    predicate HasPlain() {
      exists n | n in order :: IsPlain(n)
    }

    /** No two globals of a kind share a name. */
    ghost predicate Distinct() {
      NoRepeats(order) && NoRepeats(samplers)
    }
  }

  ghost predicate NoRepeats<T>(s: seq<T>) {
    forall i, j | 0 <= i < j < |s| :: s[i] != s[j]
  }

  /** The elements of `s` that are in `keep`, in their order. */
  function Filter(s: seq<Symbol>, keep: set<Symbol>): seq<Symbol> {
    if s == [] then []
    else if s[|s| - 1] in keep then Filter(s[..|s| - 1], keep) + [s[|s| - 1]]
    else Filter(s[..|s| - 1], keep)
  }

  /** `unique()`: the first occurrence of each element. */
  function Unique(s: seq<Symbol>): seq<Symbol> {
    if s == [] then []
    else
      var r := Unique(s[..|s| - 1]);
      if s[|s| - 1] in r then r else r + [s[|s| - 1]]
  }

  lemma {:induction false} FilterKeeps(s: seq<Symbol>, keep: set<Symbol>, x: Symbol)
    ensures x in Filter(s, keep) <==> x in s && x in keep
  {
    if s != [] {
      FilterKeeps(s[..|s| - 1], keep, x);
      assert s == s[..|s| - 1] + [s[|s| - 1]];
    }
  }

  lemma {:induction false} UniqueKeeps(s: seq<Symbol>)
    ensures forall x :: x in Unique(s) <==> x in s
    ensures NoRepeats(Unique(s))
  {
    if s != [] {
      UniqueKeeps(s[..|s| - 1]);
      assert s == s[..|s| - 1] + [s[|s| - 1]];
    }
  }

  // ---------- One function body ----------

  /** The effect of a name on the function under analysis, given the functions as known so far. */
  function Note(sh: Shader, fs: map<Symbol, Needs>, d: Needs, n: Symbol): Needs {
    var d := if sh.IsPlain(n) then d.(uniforms := true) else d;
    var d := if n in fs
             then Needs(d.uniforms || fs[n].uniforms, d.textures + fs[n].textures, d.samplers + fs[n].samplers)
             else d;
    if sh.fragment
    then Needs(d.uniforms, d.textures + (if sh.IsTexture(n) then [n] else []), d.samplers + Filter(sh.samplers, {n}))
    else d
  }

  function NoteToken(sh: Shader, fs: map<Symbol, Needs>, d: Needs, t: Token): Needs {
    if t.Name? then Note(sh, fs, d, t.name) else d
  }

  /** The effect of a stretch of tokens, brackets ignored. */
  function Collect(sh: Shader, fs: map<Symbol, Needs>, d: Needs, toks: seq<Token>): Needs
    decreases toks
  {
    if toks == [] then d else Collect(sh, fs, NoteToken(sh, fs, d, toks[0]), toks[1..])
  }

  lemma {:induction false} CollectAppend(sh: Shader, fs: map<Symbol, Needs>, d: Needs, a: seq<Token>, b: seq<Token>)
    ensures Collect(sh, fs, d, a + b) == Collect(sh, fs, Collect(sh, fs, d, a), b)
    decreases a
  {
    if a == [] {
      assert a + b == b;
    } else {
      assert (a + b)[1..] == a[1..] + b;
      CollectAppend(sh, fs, NoteToken(sh, fs, d, a[0]), a[1..], b);
    }
  }

  datatype Noted = Noted(needs: Needs, pos: nat)

  /** The analysis from the token after `p` to the first `end`, with a nested run for each opening bracket. */
  function Analyze(sh: Shader, fs: map<Symbol, Needs>, ts: seq<Token>, p: nat, end: Token, d: Needs): (r: Noted)
    requires Stream(ts) && p < |ts|
    ensures p <= r.pos < |ts|
    decreases |ts| - p, 0
  {
    if ts[p].End? || ts[p + 1] == end then Noted(d, if ts[p].End? then p else p + 1)
    else
      var r := AnalyzeToken(sh, fs, ts, p + 1, d);
      Analyze(sh, fs, ts, r.pos, end, r.needs)
  }

  function AnalyzeToken(sh: Shader, fs: map<Symbol, Needs>, ts: seq<Token>, q: nat, d: Needs): (r: Noted)
    requires Stream(ts) && q < |ts|
    ensures q <= r.pos < |ts|
    decreases |ts| - q, 1
  {
    match ts[q]
    case Name(n) => Noted(Note(sh, fs, d, n), q)
    case OpenBrace => Analyze(sh, fs, ts, q, CloseBrace, d)
    case OpenParen => Analyze(sh, fs, ts, q, CloseParen, d)
    case _ => Noted(d, q)
  }

  /** A run passes over a region with exactly the effect of its tokens. */
  lemma {:induction false} AnalyzePasses(sh: Shader, fs: map<Symbol, Needs>, ts: seq<Token>, p: nat, d: Needs,
                                         trees: seq<Tree>, end: Token)
    requires Stream(ts) && Proper(trees) && p < |ts| && !ts[p].End? && Region(ts, p + 1, trees, end)
    requires end == CloseBrace || end == CloseParen
    ensures Analyze(sh, fs, ts, p, end, d) == Noted(Collect(sh, fs, d, Flat(trees)), p + 1 + Size(trees))
    decreases trees
  {
    hide Analyze, AnalyzeToken, Collect;
    if trees == [] {
      AnalyzeStops(sh, fs, ts, p, end, d);
      CollectNothing(sh, fs, d);
    } else {
      assert ProperTree(trees[0]);
      var q, d1 := p + SizeTree(trees[0]), Collect(sh, fs, d, FlatTree(trees[0]));
      AnalyzeTree(sh, fs, ts, p + 1, d, trees[0]);
      RegionEnds(ts, q + 1, trees[1..], end);
      AnalyzeGoesOn(sh, fs, ts, p, end, d);
      AnalyzePasses(sh, fs, ts, q, d1, trees[1..], end);
      CollectAppend(sh, fs, d, FlatTree(trees[0]), Flat(trees[1..]));
    }
  }

  lemma CollectNothing(sh: Shader, fs: map<Symbol, Needs>, d: Needs)
    ensures Collect(sh, fs, d, Flat([])) == d
  {
  }

  lemma AnalyzeStops(sh: Shader, fs: map<Symbol, Needs>, ts: seq<Token>, p: nat, end: Token, d: Needs)
    requires Stream(ts) && p + 1 < |ts| && !ts[p].End? && ts[p + 1] == end
    ensures Analyze(sh, fs, ts, p, end, d) == Noted(d, p + 1)
  {
  }

  lemma AnalyzeGoesOn(sh: Shader, fs: map<Symbol, Needs>, ts: seq<Token>, p: nat, end: Token, d: Needs)
    requires Stream(ts) && p + 1 < |ts| && !ts[p].End? && ts[p + 1] != end
    ensures var r := AnalyzeToken(sh, fs, ts, p + 1, d);
            Analyze(sh, fs, ts, p, end, d) == Analyze(sh, fs, ts, r.pos, end, r.needs)
  {
    hide AnalyzeToken;
  }

  lemma {:induction false} AnalyzeTree(sh: Shader, fs: map<Symbol, Needs>, ts: seq<Token>, q: nat, d: Needs, tree: Tree)
    requires Stream(ts) && ProperTree(tree) && RegionTree(ts, q, tree)
    ensures AnalyzeToken(sh, fs, ts, q, d)
         == Noted(Collect(sh, fs, d, FlatTree(tree)), q + SizeTree(tree) - 1)
    decreases tree
  {
    match tree
    case Leaf(t) => assert FlatTree(tree)[1..] == [];
    case Paren(kids) =>
      AnalyzePasses(sh, fs, ts, q, d, kids, CloseParen);
      CollectInside(sh, fs, d, OpenParen, Flat(kids), CloseParen);
    case Brace(kids) =>
      AnalyzePasses(sh, fs, ts, q, d, kids, CloseBrace);
      CollectInside(sh, fs, d, OpenBrace, Flat(kids), CloseBrace);
  }

  lemma CollectInside(sh: Shader, fs: map<Symbol, Needs>, d: Needs, open: Token, toks: seq<Token>, close: Token)
    requires IsBracket(open) && IsBracket(close)
    ensures Collect(sh, fs, d, [open] + toks + [close]) == Collect(sh, fs, d, toks)
  {
    CollectAppend(sh, fs, d, [open] + toks, [close]);
    CollectAppend(sh, fs, d, [open], toks);
    assert Collect(sh, fs, d, [open]) == d;
    assert Collect(sh, fs, Collect(sh, fs, d, toks), [close]) == Collect(sh, fs, d, toks);
  }

  /**
    On a balanced function body the analysis stops on the body's own closing brace, having noted every name of the
    body, in order and once.
   */
  lemma AnalyzeConsumesBody(sh: Shader, fs: map<Symbol, Needs>, ts: seq<Token>, p: nat, d: Needs, body: seq<Tree>)
    requires Stream(ts) && Proper(body) && RegionTree(ts, p, Brace(body))
    ensures Analyze(sh, fs, ts, p, CloseBrace, d) == Noted(Collect(sh, fs, d, Flat(body)), p + 1 + Size(body))
    ensures p + 1 + Size(body) < |ts| && ts[p + 1 + Size(body)] == CloseBrace
  {
    hide Analyze, Collect;
    AnalyzePasses(sh, fs, ts, p, d, body, CloseBrace);
    RegionEnds(ts, p + 1, body, CloseBrace);
  }

  // ---------- All functions ----------

  /** A function with the position of the brace that opens its body. */
  datatype Definition = Definition(name: Symbol, start: nat)

  ghost predicate InStream(ts: seq<Token>, defs: seq<Definition>) {
    forall i | 0 <= i < |defs| :: defs[i].start < |ts|
  }

  /** What is recorded before the analysis. */
  function Blank(defs: seq<Definition>): map<Symbol, Needs> {
    map d | d in defs :: d.name := NOTHING
  }

  /** What is recorded before the analysis and after each of the first `k` functions. */
  function Tables(sh: Shader, ts: seq<Token>, defs: seq<Definition>, k: nat): (tables: seq<map<Symbol, Needs>>)
    requires Stream(ts) && InStream(ts, defs) && k <= |defs|
    ensures |tables| == k + 1
    decreases k
  {
    if k == 0 then [Blank(defs)]
    else
      var tables := Tables(sh, ts, defs, k - 1);
      tables + [Turn(sh, ts, tables[k - 1], defs[k - 1])]
  }

  /** The finished analysis. */
  function Analysis(sh: Shader, ts: seq<Token>, defs: seq<Definition>): map<Symbol, Needs>
    requires Stream(ts) && InStream(ts, defs)
  {
    Tables(sh, ts, defs, |defs|)[|defs|]
  }

  /** The analysis of one function, which starts from what is recorded of it. */
  function Turn(sh: Shader, ts: seq<Token>, fs: map<Symbol, Needs>, def: Definition): map<Symbol, Needs>
    requires Stream(ts) && def.start < |ts|
  {
    var d := if def.name in fs then fs[def.name] else NOTHING;
    fs[def.name := Settled(Analyze(sh, fs, ts, def.start, CloseBrace, d).needs)]
  }

  /** A function's record once its analysis is over. */
  function Settled(d: Needs): Needs {
    Needs(d.uniforms, Unique(d.textures), Unique(d.samplers))
  }

  /** The function has to be given this parameter. */
  predicate Has(d: Needs, p: Param) {
    match p
    case UniformBlock => d.uniforms
    case TextureParam(n) => n in d.textures
    case SamplerParam(n) => n in d.samplers
  }

  /** A name stands for a global, or for all that the function of this name needs. */
  predicate StandsFor(sh: Shader, fs: map<Symbol, Needs>, n: Symbol, p: Param) {
    || (n in fs && Has(fs[n], p))
    || match p
       case UniformBlock => sh.IsPlain(n)
       case TextureParam(x) => x == n && sh.IsTexture(n)
       case SamplerParam(x) => x == n && sh.fragment && n in sh.samplers
  }

  lemma NoteIsUnion(sh: Shader, fs: map<Symbol, Needs>, d: Needs, n: Symbol, p: Param)
    ensures Has(Note(sh, fs, d, n), p) <==> Has(d, p) || StandsFor(sh, fs, n, p)
  {
    if p.SamplerParam? {
      FilterKeeps(sh.samplers, {n}, p.name);
    }
  }

  /** A body needs exactly what its names stand for. */
  lemma {:induction false} CollectIsUnion(sh: Shader, fs: map<Symbol, Needs>, d: Needs, toks: seq<Token>, p: Param)
    ensures Has(Collect(sh, fs, d, toks), p)
       <==> Has(d, p) || exists n :: Name(n) in toks && StandsFor(sh, fs, n, p)
    decreases toks
  {
    if toks != [] {
      CollectIsUnion(sh, fs, NoteToken(sh, fs, d, toks[0]), toks[1..], p);
      assert toks == [toks[0]] + toks[1..];
      if toks[0].Name? {
        NoteIsUnion(sh, fs, d, toks[0].name, p);
      }
    }
  }

  /** Only globals of the shader are recorded, each at most once. */
  ghost predicate Sound(sh: Shader, d: Needs) {
    && (d.uniforms ==> sh.HasPlain())
    && (forall n | n in d.textures :: sh.IsTexture(n))
    && (forall n | n in d.samplers :: sh.fragment && n in sh.samplers)
  }

  lemma {:induction false} CollectSound(sh: Shader, fs: map<Symbol, Needs>, d: Needs, toks: seq<Token>)
    requires Sound(sh, d) && forall n | n in fs :: Sound(sh, fs[n])
    ensures Sound(sh, Collect(sh, fs, d, toks))
    decreases toks
  {
    if toks != [] {
      forall n, x | x in Filter(sh.samplers, {n}) ensures x in sh.samplers {
        FilterKeeps(sh.samplers, {n}, x);
      }
      CollectSound(sh, fs, NoteToken(sh, fs, d, toks[0]), toks[1..]);
    }
  }

  // ---------- Whole shaders ----------

  ghost predicate Different(defs: seq<Definition>) {
    forall i, j | 0 <= i < j < |defs| :: defs[i].name != defs[j].name
  }

  /** The token stream holds these functions, with balanced bodies. */
  ghost predicate Holds(ts: seq<Token>, defs: seq<Definition>, bodies: seq<seq<Tree>>) {
    && Stream(ts) && InStream(ts, defs) && |bodies| == |defs|
    && forall i | 0 <= i < |defs| :: HoldsBody(ts, defs[i], bodies[i])
  }

  ghost predicate HoldsBody(ts: seq<Token>, def: Definition, body: seq<Tree>) {
    Proper(body) && RegionTree(ts, def.start, Brace(body))
  }

  /** No body names a function that comes later. */
  ghost predicate DefinedBeforeUse(defs: seq<Definition>, bodies: seq<seq<Tree>>)
    requires |bodies| == |defs|
  {
    forall i, j | 0 <= i < j < |defs| :: Name(defs[j].name) !in Flat(bodies[i])
  }

  /** The tables during an analysis: each function in its turn records what its body needs. */
  ghost predicate Run(sh: Shader, defs: seq<Definition>, bodies: seq<seq<Tree>>, tables: seq<map<Symbol, Needs>>) {
    && 1 <= |tables| <= |defs| + 1 && |bodies| == |defs|
    && tables[0] == Blank(defs)
    && forall k | 0 <= k < |tables| - 1 ::
         tables[k + 1] == tables[k][defs[k].name := Settled(Collect(sh, tables[k], NOTHING, Flat(bodies[k])))]
  }

  /** Tables that differ only in the record of the function whose turn it is. */
  ghost predicate Chain(defs: seq<Definition>, tables: seq<map<Symbol, Needs>>) {
    && |tables| <= |defs| + 1
    && (forall k, n {:trigger n in tables[k], defs[k].name} | 0 <= k < |tables| - 1 && n != defs[k].name ::
          (n in tables[k + 1] <==> n in tables[k]) && (n in tables[k] ==> tables[k + 1][n] == tables[k][n]))
  }

  lemma RunIsChain(sh: Shader, defs: seq<Definition>, bodies: seq<seq<Tree>>, tables: seq<map<Symbol, Needs>>)
    requires Run(sh, defs, bodies, tables)
    ensures Chain(defs, tables)
  {
  }

  /** The record of a function that has no turn in between stays. */
  lemma {:induction false} ChainKeeps(defs: seq<Definition>, tables: seq<map<Symbol, Needs>>, i: nat, k: nat, n: Symbol)
    requires Chain(defs, tables) && i <= k < |tables|
    requires forall j | i <= j < k :: defs[j].name != n
    ensures n in tables[k] <==> n in tables[i]
    ensures n in tables[k] ==> tables[k][n] == tables[i][n]
    decreases k
  {
    if k > i {
      ChainKeeps(defs, tables, i, k - 1, n);
      assert n != defs[k - 1].name;
      assert tables[k - 1 + 1] == tables[k];
    }
  }

  /** The analysis of a token stream is such a run over the bodies it holds. */
  lemma {:induction false} TablesAreRun(sh: Shader, ts: seq<Token>, defs: seq<Definition>, bodies: seq<seq<Tree>>,
                                        k: nat)
    requires Holds(ts, defs, bodies) && Different(defs) && k <= |defs|
    ensures Run(sh, defs, bodies, Tables(sh, ts, defs, k))
    decreases k
  {
    hide Run, Turn, Holds, Blank;
    HoldsStream(ts, defs, bodies);
    if k == 0 {
      FirstTable(sh, defs, bodies);
    } else {
      TablesAreRun(sh, ts, defs, bodies, k - 1);
      RunTurn(sh, ts, defs, bodies, Tables(sh, ts, defs, k - 1), k - 1);
    }
  }

  lemma HoldsStream(ts: seq<Token>, defs: seq<Definition>, bodies: seq<seq<Tree>>)
    requires Holds(ts, defs, bodies)
    ensures Stream(ts) && InStream(ts, defs) && |bodies| == |defs|
  {
  }

  lemma FirstTable(sh: Shader, defs: seq<Definition>, bodies: seq<seq<Tree>>)
    requires |bodies| == |defs|
    ensures Run(sh, defs, bodies, [Blank(defs)])
  {
  }

  lemma RunTurn(sh: Shader, ts: seq<Token>, defs: seq<Definition>, bodies: seq<seq<Tree>>,
                tables: seq<map<Symbol, Needs>>, k: nat)
    requires Holds(ts, defs, bodies) && Different(defs) && Run(sh, defs, bodies, tables) && |tables| == k + 1 <= |defs|
    ensures Run(sh, defs, bodies, tables + [Turn(sh, ts, tables[k], defs[k])])
  {
    TurnIsFirst(sh, defs, bodies, tables, k);
    TurnStep(sh, ts, defs, bodies, k, tables[k]);
    RunExtends(sh, defs, bodies, tables, k, tables[k], Turn(sh, ts, tables[k], defs[k]));
  }

  /** A function has an empty record before its turn. */
  lemma TurnIsFirst(sh: Shader, defs: seq<Definition>, bodies: seq<seq<Tree>>, tables: seq<map<Symbol, Needs>>, k: nat)
    requires Run(sh, defs, bodies, tables) && Different(defs) && |tables| == k + 1 <= |defs|
    ensures defs[k].name in tables[k] && tables[k][defs[k].name] == NOTHING
  {
    RunIsChain(sh, defs, bodies, tables);
    ChainKeeps(defs, tables, 0, k, defs[k].name);
  }

  lemma RunExtends(sh: Shader, defs: seq<Definition>, bodies: seq<seq<Tree>>, tables: seq<map<Symbol, Needs>>, k: nat,
                   fs: map<Symbol, Needs>, next: map<Symbol, Needs>)
    requires Run(sh, defs, bodies, tables) && |tables| == k + 1 <= |defs| && tables[k] == fs
    requires next == fs[defs[k].name := Settled(Collect(sh, fs, NOTHING, Flat(bodies[k])))]
    ensures Run(sh, defs, bodies, tables + [next])
  {
  }

  lemma TurnStep(sh: Shader, ts: seq<Token>, defs: seq<Definition>, bodies: seq<seq<Tree>>, k: nat,
                 fs: map<Symbol, Needs>)
    requires Holds(ts, defs, bodies) && k < |defs|
    requires defs[k].name in fs && fs[defs[k].name] == NOTHING
    ensures Turn(sh, ts, fs, defs[k]) == fs[defs[k].name := Settled(Collect(sh, fs, NOTHING, Flat(bodies[k])))]
  {
    assert HoldsBody(ts, defs[k], bodies[k]);
    AnalyzeConsumesBody(sh, fs, ts, defs[k].start, NOTHING, bodies[k]);
  }

  /** A record that a table may hold. */
  ghost predicate Recorded(sh: Shader, d: Needs) {
    Sound(sh, d) && NoRepeats(d.textures) && NoRepeats(d.samplers)
  }

  lemma {:induction false} RunSound(sh: Shader, defs: seq<Definition>, bodies: seq<seq<Tree>>,
                                    tables: seq<map<Symbol, Needs>>, k: nat)
    requires Run(sh, defs, bodies, tables) && k < |tables|
    ensures forall n | n in tables[k] :: Recorded(sh, tables[k][n])
    decreases k
  {
    if k > 0 {
      RunSound(sh, defs, bodies, tables, k - 1);
      var fs := tables[k - 1];
      var d := Collect(sh, fs, NOTHING, Flat(bodies[k - 1]));
      CollectSound(sh, fs, NOTHING, Flat(bodies[k - 1]));
      SettledIsRecorded(sh, d);
      assert tables[k - 1 + 1] == fs[defs[k - 1].name := Settled(d)];
    }
  }

  lemma SettledIsRecorded(sh: Shader, d: Needs)
    requires Sound(sh, d)
    ensures Recorded(sh, Settled(d))
  {
    UniqueKeeps(d.textures);
    UniqueKeeps(d.samplers);
  }

  lemma SettledHas(d: Needs, p: Param)
    ensures Has(Settled(d), p) <==> Has(d, p)
  {
    UniqueKeeps(d.textures);
    UniqueKeeps(d.samplers);
  }

  /** At a function's turn a name of its body stands for what it stands for in the end, the function itself excepted. */
  lemma StandsForSame(sh: Shader, defs: seq<Definition>, bodies: seq<seq<Tree>>, tables: seq<map<Symbol, Needs>>,
                      i: nat, n: Symbol, p: Param)
    requires Run(sh, defs, bodies, tables) && |tables| == |defs| + 1 && i < |defs|
    requires Different(defs) && DefinedBeforeUse(defs, bodies) && Name(n) in Flat(bodies[i])
    ensures StandsFor(sh, tables[i], n, p) <==> StandsFor(sh, tables[|defs|] - {defs[i].name}, n, p)
  {
    RunIsChain(sh, defs, bodies, tables);
    if n == defs[i].name {
      ChainKeeps(defs, tables, 0, i, n);
    } else {
      ChainKeeps(defs, tables, i, |defs|, n);
    }
  }

  /**
    The fixed point: when all functions are analysed, a function is recorded with exactly what the names of its body
    stand for, the final records of its callees included, if functions are defined before they are used.
   */
  lemma NeedsAreClosed(sh: Shader, ts: seq<Token>, defs: seq<Definition>, bodies: seq<seq<Tree>>, i: nat, p: Param)
    requires Holds(ts, defs, bodies) && Different(defs) && DefinedBeforeUse(defs, bodies) && i < |defs|
    ensures var fs := Analysis(sh, ts, defs);
            && defs[i].name in fs
            && (Has(fs[defs[i].name], p)
                <==> exists n :: Name(n) in Flat(bodies[i]) && StandsFor(sh, fs - {defs[i].name}, n, p))
  {
    TablesAreRun(sh, ts, defs, bodies, |defs|);
    RunIsClosed(sh, defs, bodies, Tables(sh, ts, defs, |defs|), i, p);
  }

  lemma RunIsClosed(sh: Shader, defs: seq<Definition>, bodies: seq<seq<Tree>>, tables: seq<map<Symbol, Needs>>, i: nat,
                    p: Param)
    requires Run(sh, defs, bodies, tables) && |tables| == |defs| + 1
    requires Different(defs) && DefinedBeforeUse(defs, bodies) && i < |defs|
    ensures var fs := tables[|defs|];
            && defs[i].name in fs
            && (Has(fs[defs[i].name], p)
                <==> exists n :: Name(n) in Flat(bodies[i]) && StandsFor(sh, fs - {defs[i].name}, n, p))
  {
    var f, toks, fs := defs[i].name, Flat(bodies[i]), tables[|defs|];
    RunIsChain(sh, defs, bodies, tables);
    assert tables[i + 1] == tables[i][f := Settled(Collect(sh, tables[i], NOTHING, toks))];
    ChainKeeps(defs, tables, i + 1, |defs|, f);
    CollectIsUnion(sh, tables[i], NOTHING, toks, p);
    SettledHas(Collect(sh, tables[i], NOTHING, toks), p);
    forall n | Name(n) in toks
      ensures StandsFor(sh, tables[i], n, p) <==> StandsFor(sh, fs - {f}, n, p)
    {
      StandsForSame(sh, defs, bodies, tables, i, n, p);
    }
  }
}
