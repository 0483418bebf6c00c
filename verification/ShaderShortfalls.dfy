/** Small shaders on which lifting falls short of what it is for. */
module ShaderShortfalls {
  import opened Brackets
  import opened ShaderAnalysis
  import opened ShaderBalance
  import opened ShaderClosure
  import opened ShaderEmit
  import opened ShaderEnds
  import opened ShaderFirstUse
  import opened ShaderLifting
  import opened ShaderOrder
  import opened ShaderReferences
  import opened ShaderScan
  import opened ShaderSlant
  import opened ShaderSyntax
  import opened ShaderTallies
  import opened ShaderText
  import opened Wrappers

  const A := Symbol("a")
  const B := Symbol("b")

  /** A fragment shader with these uniforms, textures among them, and nothing else. */
  function Simple(order: seq<Symbol>, textures: set<Symbol>): Shader {
    Shader(true, order, textures, [], {}, map[], map[])
  }

  /** In `a < b` a uniform `b` is emitted without a prefix, and then again with one. */
  lemma RawComparisonExample()
    ensures var c := Context(Simple([B], {}), map[]);
            var trees := [Leaf(Name(A)), Leaf(Compare("<")), Leaf(Name(B))];
            && StrayIn(c, {UniformBlock}, OpenBrace, trees, CloseBrace)
            && Emit(c, OpenBrace, trees, CloseBrace) == Emits([Compared(A, "<", Name(B)), Text("<"), Uniform(B)])
  {
    var c := Context(Simple([B], {}), map[]);
    var t0, t1, t2 := Leaf(Name(A)), Leaf(Compare("<")), Leaf(Name(B));
    assert A != B by { assert A.text[0] != B.text[0]; }
    assert c.sh.IsPlain(B) && !c.sh.IsPlain(A);
    assert [t0, t1, t2][1..] == [t1, t2] && [t1, t2][1..] == [t2] && [t2][1..] == [];
    assert Ahead([t2], CloseBrace) == Name(B);
    EmitNothing(c, Name(B), CloseBrace);
    assert [Uniform(B)] + [] == [Uniform(B)];
    assert [Text("<")] + [Uniform(B)] == [Text("<"), Uniform(B)];
    assert [Compared(A, "<", Name(B))] + [Text("<"), Uniform(B)] == [Compared(A, "<", Name(B)), Text("<"), Uniform(B)];
    EmitStep(c, Compare("<"), [t2], CloseBrace);
    assert EmitItem(c, Compare("<"), [t2], CloseBrace) == Emits(Item([Uniform(B)], Name(B), []));
    assert Emit(c, Compare("<"), [t2], CloseBrace) == Emits([Uniform(B)]);
    EmitStep(c, Name(A), [t1, t2], CloseBrace);
    assert EmitItem(c, Name(A), [t1, t2], CloseBrace) == Emits(Item([Text("<")], Compare("<"), [t2]));
    assert Emit(c, Name(A), [t1, t2], CloseBrace) == Emits([Text("<"), Uniform(B)]);
    EmitStep(c, OpenBrace, [t0, t1, t2], CloseBrace);
    assert EmitItem(c, OpenBrace, [t0, t1, t2], CloseBrace)
        == Emits(Item([Compared(A, "<", Name(B))], Name(A), [t1, t2]));
  }

  const A1 := Symbol("a1")
  const LOAD := Symbol("Load")

  /** `int3(0)+a1` */
  const SHIFTED := [Leaf(Name(INT3)), Paren([Leaf(Plain("0"))]), Leaf(Plain("+")), Leaf(Name(A1))]

  /** A fragment shader with a uniform `a` and a texture `b`. */
  const LOADING := Shader(true, [A, B], {B}, [], {}, map[], map[LOAD := Load])

  lemma ItemThen(c: Context, prev: Token, trees: seq<Tree>, after: Token, item: Item, out: seq<Piece>)
    requires trees != [] && EmitItem(c, prev, trees, after) == Emits(item)
    requires Emit(c, item.last, item.rest, after) == Emits(out)
    ensures Emit(c, prev, trees, after) == Emits(item.out + out)
  {
    hide EmitItem;
    EmitStep(c, prev, trees, after);
  }

  lemma LastItem(c: Context, prev: Token, tree: Tree, after: Token, piece: Piece)
    requires EmitItem(c, prev, [tree], after) == Emits(Item([piece], Last(tree), []))
    ensures Emit(c, prev, [tree], after) == Emits([piece])
  {
    hide EmitItem, Emit;
    EmitNothing(c, Last(tree), after);
    ItemThen(c, prev, [tree], after, Item([piece], Last(tree), []), []);
    assert [piece] + [] == [piece];
  }

  const DIGIT := [Leaf(Plain("0"))]

  /** The parenthesis of an `int3` with one argument. */
  const QUOTED := [Text("("), Text("[\""), Text("0"), Text("\"]"), Text(")")]

  lemma QuotedIsEmitted(c: Context, rest: seq<Tree>)
    requires c == Context(LOADING, map[])
    ensures EmitItem(c, Name(INT3), [Paren(DIGIT)] + rest, CloseParen) == Emits(Item(QUOTED, CloseParen, rest))
  {
    hide Emit, Split;
    NamesDiffer();
    assert [Leaf(Plain("0"))][1..] == [] && ([Paren(DIGIT)] + rest)[1..] == rest;
    LastItem(c, OpenParen, Leaf(Plain("0")), CloseParen, Text("0"));
    OnePart([Text("0")]);
    assert Listed([]) == [];
    assert Parenthesis(c, Name(INT3), [Text("0")]).value == QUOTED;
  }

  /** `int3(0)+a1` is emitted as `int3(["0"])+a1`. */
  lemma ShiftedIsEmitted(c: Context)
    requires c == Context(LOADING, map[])
    ensures Emit(c, OpenParen, SHIFTED, CloseParen) == Emits([Ident(INT3)] + QUOTED + [Text("+"), Ident(A1)])
  {
    hide Emit, EmitItem, Parenthesis;
    var paren, plus, name := Paren(DIGIT), Leaf(Plain("+")), Leaf(Name(A1));
    assert [plus, name][1..] == [name] && SHIFTED[1..] == [paren] + [plus, name];
    ShiftedLeaves(c);
    QuotedIsEmitted(c, [plus, name]);
    LastItem(c, Plain("+"), name, CloseParen, Ident(A1));
    ItemThen(c, CloseParen, [plus, name], CloseParen, Item([Text("+")], Plain("+"), [name]), [Ident(A1)]);
    assert [Text("+")] + [Ident(A1)] == [Text("+"), Ident(A1)];
    ItemThen(c, Name(INT3), SHIFTED[1..], CloseParen, Item(QUOTED, CloseParen, [plus, name]), [Text("+"), Ident(A1)]);
    ItemThen(c, OpenParen, SHIFTED, CloseParen, Item([Ident(INT3)], Name(INT3), SHIFTED[1..]),
             QUOTED + [Text("+"), Ident(A1)]);
    assert [Ident(INT3)] + (QUOTED + [Text("+"), Ident(A1)]) == [Ident(INT3)] + QUOTED + [Text("+"), Ident(A1)];
  }

  lemma ShiftedLeaves(c: Context)
    requires c == Context(LOADING, map[])
    ensures EmitItem(c, OpenParen, SHIFTED, CloseParen) == Emits(Item([Ident(INT3)], Name(INT3), SHIFTED[1..]))
    ensures var plus, name := Leaf(Plain("+")), Leaf(Name(A1));
            && EmitItem(c, CloseParen, [plus, name], CloseParen) == Emits(Item([Text("+")], Plain("+"), [name]))
            && EmitItem(c, Plain("+"), [name], CloseParen) == Emits(Item([Ident(A1)], Name(A1), []))
  {
    hide Emit, Parenthesis, Ahead;
    NamesDiffer();
    var plus, name := Leaf(Plain("+")), Leaf(Name(A1));
    assert [plus, name][1..] == [name] && [name][1..] == [] && SHIFTED[1] == Paren(DIGIT);
  }

  lemma NamesDiffer()
    ensures INT3 != A && INT3 != B && A1 != A && A1 != B && A != B && LOAD != A && LOAD != B && INT3 != LOAD
  {
    assert |INT3.text| == 4 && |A1.text| == 2 && |LOAD.text| == 4 && INT3.text[0] != LOAD.text[0];
    assert A.text[0] != B.text[0];
  }

  /** Text without a comma is one part. */
  lemma OnePart(ps: seq<Piece>)
    requires Render(ps) != "" && Text(",") !in ps
    ensures Split(ps, 3) == [ps]
  {
    FirstCommaIsComma(ps);
    assert ps[..|ps|] == ps;
  }

  lemma ShiftedIsCut(first: seq<Piece>)
    requires first == [Ident(INT3)] + QUOTED + [Text("+"), Ident(A1)]
    ensures LoadText(first).Some? && Cut(Ident(A1)) in LoadText(first).value
  {
    hide Split;
    var inner := QUOTED[1..] + [Text("+"), Ident(A1)];
    assert first[2..] == inner && inner[5] == Ident(A1);
    var cut := inner[..5] + [Cut(Ident(A1))];
    assert DropLast(inner) == cut;
    assert cut[0] == Text("[\"") && cut[5] == Cut(Ident(A1));
    OnePart(cut);
  }

  const CALL := [Leaf(Dot), Leaf(Name(LOAD)), Paren(SHIFTED)]

  lemma CallIsShifted(c: Context)
    requires c == Context(LOADING, map[])
    ensures LoadKids(c, CALL) == Some(SHIFTED)
    ensures EmitSampler(c, B, CALL) == EmitTextureCall(c, B, Load, [Paren(SHIFTED)])
  {
    hide EmitTextureCall;
    assert CALL[1..] == [Leaf(Name(LOAD)), Paren(SHIFTED)] && CALL[1..][1..] == [Paren(SHIFTED)];
  }

  lemma ShiftedIsStray(c: Context, params: set<Param>)
    requires c == Context(LOADING, map[])
    ensures LoadCuts(c, params, SHIFTED)
  {
    NamesDiffer();
    assert A1.text[..1] == A.text;
    assert Refers(LOADING, Cut(Ident(A1)), Global(A));
  }

  /** In `b.Load(int3(0)+a1)` the name `a1` is cut down to the uniform `a`, which gets no prefix. */
  lemma CutNameExample()
    ensures var c := Context(LOADING, map[]);
            var o := Emit(c, OpenBrace, [Leaf(Name(B))] + CALL, CloseBrace);
            && StrayIn(c, {UniformBlock, TextureParam(B)}, OpenBrace, [Leaf(Name(B))] + CALL, CloseBrace)
            && o.Emits? && Cut(Ident(A1)) in o.value && PieceText(Cut(Ident(A1))) == A.text && LOADING.IsPlain(A)
  {
    hide Emit, EmitArguments, StrayIn, LoadText, LoadCuts, LoadKids, EmitSampler;
    var c, trees := Context(LOADING, map[]), [Leaf(Name(B))] + CALL;
    NamesDiffer();
    assert trees[1..] == CALL && [Paren(SHIFTED)][1..] == [];
    CallIsShifted(c);
    ShiftedIsStray(c, {UniformBlock, TextureParam(B)});
    StrayStep(c, {UniformBlock, TextureParam(B)}, OpenBrace, trees, CloseBrace);
    var first := [Ident(INT3)] + QUOTED + [Text("+"), Ident(A1)];
    ShiftedIsEmitted(c);
    ShiftedIsCut(first);
    CallIsEmitted(c, first);
    var out := [Texture(B), Text(".")] + LoadText(first).value;
    EmitNothing(c, CloseParen, CloseBrace);
    ItemThen(c, OpenBrace, trees, CloseBrace, Item(out, CloseParen, []), []);
    assert PieceText(Cut(Ident(A1))) == A.text by { assert A1.text[..1] == A.text; }
  }

  lemma CallIsEmitted(c: Context, first: seq<Piece>)
    requires Emit(c, OpenParen, SHIFTED, CloseParen) == Emits(first) && LoadText(first).Some?
    ensures EmitTextureCall(c, B, Load, [Paren(SHIFTED)])
         == Emits(Item([Texture(B), Text(".")] + LoadText(first).value, CloseParen, []))
  {
    hide Emit, LoadText;
    assert [Paren(SHIFTED)][1..] == [];
  }

  // ---------- A repeated name ----------

  /** `a<b`, without uniforms, is emitted as `all(a < b)<b`. */
  lemma RepeatedNameExample()
    ensures var c, trees := Context(Simple([], {}), map[]), [Leaf(Name(A)), Leaf(Compare("<")), Leaf(Name(B))];
            var out := [Compared(A, "<", Name(B)), Text("<"), Ident(B)];
            && Emit(c, OpenBrace, trees, CloseBrace) == Emits(out) && Render(out) == "all(a < b)<b"
            && Cuts(c, trees) == 0 && Echoes(c, OpenBrace, trees, CloseBrace) == 1
            && Trail(c, out) == [A, B, B] && SourceTrail(c, Flat(trees)) == [A, B]
  {
    var c := Context(Simple([], {}), map[]);
    var t0, t1, t2 := Leaf(Name(A)), Leaf(Compare("<")), Leaf(Name(B));
    hide Emit, Render, Cuts, Echoes, Flat, Trail, SourceTrail;
    SmallerIsEmitted(c);
    assert [t0, t1, t2][1..] == [t1, t2] && [t1, t2][1..] == [t2] && [t2][1..] == [];
    SmallerIsWritten();
    SmallerTallies(c);
    SmallerTrail(c);
    NoFlat();
    LeafFlat([t0, t1, t2]);
    LeafFlat([t1, t2]);
    LeafFlat([t2]);
    assert Flat([t0, t1, t2]) == [Name(A), Compare("<"), Name(B)];
    SmallerIsTold(c);
  }

  lemma SmallerIsEmitted(c: Context)
    requires c == Context(Simple([], {}), map[])
    ensures Emit(c, OpenBrace, [Leaf(Name(A)), Leaf(Compare("<")), Leaf(Name(B))], CloseBrace)
         == Emits([Compared(A, "<", Name(B)), Text("<"), Ident(B)])
  {
    hide Emit;
    var t0, t1, t2 := Leaf(Name(A)), Leaf(Compare("<")), Leaf(Name(B));
    assert [t0, t1, t2][1..] == [t1, t2] && [t1, t2][1..] == [t2] && [t2][1..] == [];
    LastItem(c, Compare("<"), t2, CloseBrace, Ident(B));
    ItemThen(c, Name(A), [t1, t2], CloseBrace, Item([Text("<")], Compare("<"), [t2]), [Ident(B)]);
    assert [Text("<")] + [Ident(B)] == [Text("<"), Ident(B)];
    assert Ahead([t2], CloseBrace) == Name(B);
    NamesDiffer();
    assert EmitItem(c, OpenBrace, [t0, t1, t2], CloseBrace)
        == Emits(Item([Compared(A, "<", Name(B))], Name(A), [t1, t2]));
    ItemThen(c, OpenBrace, [t0, t1, t2], CloseBrace, Item([Compared(A, "<", Name(B))], Name(A), [t1, t2]),
             [Text("<"), Ident(B)]);
    assert [Compared(A, "<", Name(B))] + [Text("<"), Ident(B)] == [Compared(A, "<", Name(B)), Text("<"), Ident(B)];
  }

  lemma SmallerIsWritten()
    ensures Render([Compared(A, "<", Name(B)), Text("<"), Ident(B)]) == "all(a < b)<b"
  {
    var p0, p1, p2 := Compared(A, "<", Name(B)), Text("<"), Ident(B);
    assert [p0, p1, p2][1..] == [p1, p2] && [p1, p2][1..] == [p2] && [p2][1..] == [];
    assert Render([p2]) == "b" && Render([p1, p2]) == "<b";
  }

  lemma SmallerTallies(c: Context)
    requires c == Context(Simple([], {}), map[])
    ensures var trees := [Leaf(Name(A)), Leaf(Compare("<")), Leaf(Name(B))];
            Cuts(c, trees) == 0 && Echoes(c, OpenBrace, trees, CloseBrace) == 1
  {
    hide Cuts, Echoes;
    var t0, t1, t2 := Leaf(Name(A)), Leaf(Compare("<")), Leaf(Name(B));
    assert [t0, t1, t2][1..] == [t1, t2] && [t1, t2][1..] == [t2] && [t2][1..] == [];
    assert Ahead([t2], CloseBrace) == Name(B);
    NoCuts(c);
    NoEchoes(c, Name(B), CloseBrace);
    CutsStep(c, [t2]);
    CutsStep(c, [t1, t2]);
    CutsStep(c, [t0, t1, t2]);
    EchoesStep(c, Compare("<"), [t2], CloseBrace);
    EchoesStep(c, Name(A), [t1, t2], CloseBrace);
    EchoesStep(c, OpenBrace, [t0, t1, t2], CloseBrace);
    NamesDiffer();
    assert |INT3.text| != |A.text|;
  }

  lemma SmallerTrail(c: Context)
    requires c == Context(Simple([], {}), map[])
    ensures Trail(c, [Compared(A, "<", Name(B)), Text("<"), Ident(B)]) == [A, B, B]
  {
    var p0, p1, p2 := Compared(A, "<", Name(B)), Text("<"), Ident(B);
    NamesDiffer();
    assert [p0, p1, p2][1..] == [p1, p2] && [p1, p2][1..] == [p2] && [p2][1..] == [];
    assert Trail(c, [p2]) == [B] && Trail(c, [p1, p2]) == [B];
  }

  lemma SmallerIsTold(c: Context)
    requires c == Context(Simple([], {}), map[])
    ensures SourceTrail(c, [Name(A), Compare("<"), Name(B)]) == [A, B]
  {
    var n0, n1, n2 := Name(A), Compare("<"), Name(B);
    NamesDiffer();
    assert [n0, n1, n2][1..] == [n1, n2] && [n1, n2][1..] == [n2] && [n2][1..] == [];
    assert SourceTrail(c, [n2]) == [B] && SourceTrail(c, [n1, n2]) == [B];
  }

  // ---------- A repeated bracket ----------

  /** `a<(b)` is emitted as `all(a < ()<(b)`, whose brackets are not balanced. */
  lemma UnbalancedExample()
    ensures var c, trees := Context(Simple([], {}), map[]), [Leaf(Name(A)), Leaf(Compare("<")), Paren([Leaf(Name(B))])];
            var out := [Compared(A, "<", OpenParen), Text("<"), Text("("), Ident(B), Text(")")];
            && Emit(c, OpenBrace, trees, CloseBrace) == Emits(out) && Render(out) == "all(a < ()<(b)"
            && Slant(c, OpenBrace, trees, CloseBrace) == NONE.(opens := 1) && !Balanced(Parens, Render(out))
  {
    hide Emit, Slant, Render, Net, Low, Parenthesis, Lexed, PlainNames;
    var c := Context(Simple([], {}), map[]);
    var t0, t1, t2 := Leaf(Name(A)), Leaf(Compare("<")), Paren([Leaf(Name(B))]);
    var trees := [t0, t1, t2];
    ParenIsKept(c);
    assert trees[1..] == [t1, t2] && [t1, t2][1..] == [t2] && [t2][1..] == [];
    assert Ahead([t2], CloseBrace) == OpenParen;
    var kids := [Leaf(Name(B))];
    LastItem(c, OpenParen, Leaf(Name(B)), CloseParen, Ident(B));
    EmitNothing(c, CloseParen, CloseBrace);
    var parens := [Text("("), Ident(B), Text(")")];
    ItemThen(c, Compare("<"), [t2], CloseBrace, Item(parens, CloseParen, []), []);
    assert parens + [] == parens;
    ItemThen(c, Name(A), [t1, t2], CloseBrace, Item([Text("<")], Compare("<"), [t2]), parens);
    var tail := [Text("<"), Text("("), Ident(B), Text(")")];
    assert [Text("<")] + parens == tail;
    assert EmitItem(c, OpenBrace, trees, CloseBrace) == Emits(Item([Compared(A, "<", OpenParen)], Name(A), [t1, t2]));
    ItemThen(c, OpenBrace, trees, CloseBrace, Item([Compared(A, "<", OpenParen)], Name(A), [t1, t2]), tail);
    assert [Compared(A, "<", OpenParen)] + tail
        == [Compared(A, "<", OpenParen), Text("<"), Text("("), Ident(B), Text(")")];
    UnbalancedText();
    UnbalancedNames(c);
    assert kids + [] == kids && [t1] + [t2] == [t1, t2] && [t0] + [t1, t2] == trees;
    UnbalancedSlant(c, Compare("<"), [t1, t2]);
    UnbalancedLexed(c);
    EmitIsBalanced(c, OpenBrace, trees, CloseBrace);
  }

  lemma ParenIsKept(c: Context)
    requires c == Context(Simple([], {}), map[])
    ensures Parenthesis(c, Compare("<"), [Ident(B)]) == Some([Text("("), Ident(B), Text(")")])
  {
    assert Listed([]) == [] && c.Added(Compare("<")) == [];
    assert [Text("(")] + [Ident(B)] + [] + [Text(")")] == [Text("("), Ident(B), Text(")")];
  }

  lemma UnbalancedText()
    ensures Render([Compared(A, "<", OpenParen), Text("<"), Text("("), Ident(B), Text(")")]) == "all(a < ()<(b)"
  {
    hide Render;
    RenderConcat();
    RenderOne();
    var p, q, r, s, t := Compared(A, "<", OpenParen), Text("<"), Text("("), Ident(B), Text(")");
    assert [p, q, r, s, t] == [p] + [q] + [r] + [s] + [t];
    assert Render([p]) == "all(a < ()";
    assert "all(a < ()" + "<" + "(" + "b" + ")" == "all(a < ()<(b)";
  }

  lemma UnbalancedSlant(c: Context, less: Token, trees: seq<Tree>)
    requires less.Compare? && trees == [Leaf(less)] + [Paren([Leaf(Name(B))] + [])]
    requires NameSlant(c, OpenBrace, A, trees, CloseBrace) == NONE.(opens := 1)
    requires NameSlant(c, OpenParen, B, [], CloseParen) == NONE
    ensures Slant(c, OpenBrace, [Leaf(Name(A))] + trees, CloseBrace) == NONE.(opens := 1)
  {
    hide *;
    SlantOfLeaf(c, OpenParen, Name(B), [], CloseParen);
    NothingSlants(c, Name(B), CloseParen);
    NoneAdds(NONE);
    NoneAdds(NONE.(opens := 1));
    SlantOfParen(c, less, [Leaf(Name(B))] + [], CloseBrace);
    SlantOfLeaf(c, Name(A), less, [Paren([Leaf(Name(B))] + [])], CloseBrace);
    SlantOfLeaf(c, OpenBrace, Name(A), trees, CloseBrace);
  }

  lemma NoneAdds(t: Tally)
    ensures NONE.Plus(t) == t.Plus(NONE) == t
  {
  }

  lemma SlantOfParen(c: Context, prev: Token, kids: seq<Tree>, after: Token)
    ensures Slant(c, prev, [Paren(kids)], after) == Slant(c, OpenParen, kids, CloseParen)
  {
    hide Slant;
    SlantStep(c, prev, [Paren(kids)], after);
    assert [Paren(kids)][1..] == [];
    NothingSlants(c, CloseParen, after);
  }

  lemma SlantOfLeaf(c: Context, prev: Token, t: Token, rest: seq<Tree>, after: Token)
    ensures Slant(c, prev, [Leaf(t)] + rest, after)
         == (if t.Name? then NameSlant(c, prev, t.name, rest, after) else NONE).Plus(Slant(c, t, rest, after))
  {
    hide Slant, NameSlant;
    SlantStep(c, prev, [Leaf(t)] + rest, after);
    assert ([Leaf(t)] + rest)[1..] == rest;
  }

  lemma UnbalancedLexed(c: Context)
    requires c == Context(Simple([], {}), map[])
    ensures Lexed([Leaf(Name(A)), Leaf(Compare("<")), Paren([Leaf(Name(B))])]) && PlainNames(c)
  {
    assert PlainLeaf(Name(A)) && PlainLeaf(Compare("<")) && PlainLeaf(Name(B));
    assert LexedTree(Leaf(Name(B)));
    assert LexedTree(Paren([Leaf(Name(B))]));
  }

  lemma UnbalancedNames(c: Context)
    requires c == Context(Simple([], {}), map[])
    ensures NameSlant(c, OpenBrace, A, [Leaf(Compare("<")), Paren([Leaf(Name(B))])], CloseBrace) == NONE.(opens := 1)
    ensures NameSlant(c, OpenParen, B, [], CloseParen) == NONE
  {
    hide LoadKids, LoadTally;
    var t1, t2 := Leaf(Compare("<")), Paren([Leaf(Name(B))]);
    assert [t1, t2][1..] == [t2];
    assert Ahead([t2], CloseBrace) == OpenParen;
  }

  // ---------- Arguments in another order ----------

  const F := Symbol("f")
  const X := Symbol("x")

  /** `{b.Load(a.Load(x))}` */
  const NESTED := [OpenBrace, Name(B), Dot, Name(LOAD), OpenParen, Name(A), Dot, Name(LOAD), OpenParen, Name(X),
                   CloseParen, CloseParen, CloseBrace, End]

  const INNER := [Leaf(Name(A)), Leaf(Dot), Leaf(Name(LOAD)), Paren([Leaf(Name(X))])]
  const NESTED_BODY := [Leaf(Name(B)), Leaf(Dot), Leaf(Name(LOAD)), Paren(INNER)]

  /** A fragment shader with these textures and nothing else. */
  const TEXTURES := Shader(true, [A, B], {A, B}, [], {}, map[], map[LOAD := Load])

  lemma LeafFlat(trees: seq<Tree>)
    requires trees != [] && trees[0].Leaf?
    ensures Flat(trees) == [trees[0].t] + Flat(trees[1..])
  {
  }

  /** The tokens of `t.u(..)`. */
  lemma CallFlat(t: Token, u: Token, kids: seq<Tree>)
    ensures Flat([Leaf(t), Leaf(Dot), Leaf(u), Paren(kids)]) == [t, Dot, u, OpenParen] + Flat(kids) + [CloseParen]
  {
    hide Flat;
    var all := [Leaf(t), Leaf(Dot), Leaf(u), Paren(kids)];
    assert all[1..] == [Leaf(Dot), Leaf(u), Paren(kids)] && all[1..][1..] == [Leaf(u), Paren(kids)];
    assert all[1..][1..][1..] == [Paren(kids)];
    LeafFlat(all);
    LeafFlat(all[1..]);
    LeafFlat(all[1..][1..]);
    ParenFlat(kids);
  }

  lemma NestedFlat()
    ensures Flat(NESTED_BODY) == NESTED[1..12]
  {
    hide Flat;
    NoFlat();
    LeafFlat([Leaf(Name(X))]);
    assert [Leaf(Name(X))][1..] == [];
    CallFlat(Name(A), Name(LOAD), [Leaf(Name(X))]);
    CallFlat(Name(B), Name(LOAD), INNER);
    NestedTokens();
  }

  lemma NoFlat()
    ensures Flat([]) == []
  {
  }

  lemma ParenFlat(kids: seq<Tree>)
    ensures Flat([Paren(kids)]) == [OpenParen] + Flat(kids) + [CloseParen]
  {
    assert [Paren(kids)][1..] == [];
  }

  lemma NestedHolds()
    ensures Holds(NESTED, [Definition(F, 0)], [NESTED_BODY])
  {
    hide Flat, Region;
    NestedFlat();
    TreeIsStretch(NESTED, 0, Brace(NESTED_BODY));
    assert FlatTree(Brace(NESTED_BODY)) == NESTED[0..13];
    assert SizeTree(Brace(NESTED_BODY)) == 13;
    assert RegionTree(NESTED, 0, Brace(NESTED_BODY));
    assert ProperTree(Paren([Leaf(Name(X))])) && ProperTree(Paren(INNER));
    assert Proper(NESTED_BODY);
    assert HoldsBody(NESTED, Definition(F, 0), NESTED_BODY);
  }

  lemma {:induction false} UnusedTail(sh: Shader, defs: seq<Definition>, bodies: seq<seq<Tree>>, a: seq<Token>,
                                      b: seq<Token>)
    requires |bodies| == |defs| > 0 && forall t | t in b :: UsesOf(sh, Textures, defs, bodies, 0, t) == []
    ensures UsesIn(sh, Textures, defs, bodies, 0, a + b) == UsesIn(sh, Textures, defs, bodies, 0, a)
    decreases b
  {
    hide UsesOf;
    if b == [] {
      assert a + b == a;
    } else {
      assert (a + b)[..|a + b| - 1] == a + b[..|b| - 1];
      UnusedTail(sh, defs, bodies, a, b[..|b| - 1]);
    }
  }

  lemma NestedUses()
    ensures Uses(TEXTURES, Textures, [Definition(F, 0)], [NESTED_BODY], 0) == [B, A]
  {
    hide Flat, UsesIn;
    var defs, bodies := [Definition(F, 0)], [NESTED_BODY];
    NamesDiffer();
    NestedFlat();
    assert X != A && X != B by { assert X.text[0] != A.text[0] && X.text[0] != B.text[0]; }
    var five := [Name(B), Dot, Name(LOAD), OpenParen, Name(A)];
    var tail := [Dot, Name(LOAD), OpenParen, Name(X), CloseParen, CloseParen];
    UsesLast(TEXTURES, Textures, defs, bodies, 0, [Name(B)]);
    NoUses(TEXTURES, Textures, defs, bodies, map[], 0);
    assert [Name(B)][..0] == [];
    UnusedTail(TEXTURES, defs, bodies, [Name(B)], [Dot, Name(LOAD), OpenParen]);
    assert five[..4] == [Name(B)] + [Dot, Name(LOAD), OpenParen];
    UsesLast(TEXTURES, Textures, defs, bodies, 0, five);
    UnusedTail(TEXTURES, defs, bodies, five, tail);
    NestedTokens();
    assert five + tail == [Name(B), Dot, Name(LOAD), OpenParen, Name(A), Dot, Name(LOAD), OpenParen, Name(X),
                           CloseParen, CloseParen];
  }

  lemma NestedTokens()
    ensures NESTED[1..12] == [Name(B), Dot, Name(LOAD), OpenParen, Name(A), Dot, Name(LOAD), OpenParen, Name(X),
                              CloseParen, CloseParen]
  {
  }

  /**
    The function `f` uses two textures against the order of their declarations, so that a call of it passes them the
    wrong way around.
   */
  lemma SwappedArgumentsExample()
    ensures var defs, bodies := [Definition(F, 0)], [NESTED_BODY];
            && Holds(NESTED, defs, bodies)
            && var fs := Analysis(TEXTURES, NESTED, defs);
               && F in fs && fs[F].textures == [B, A]
               && Context(TEXTURES, fs).Added(Name(F)) == [TextureParam(B), TextureParam(A)]
               && ExtraParams(TEXTURES, fs[F], false) == [TextureParam(A), TextureParam(B)]
  {
    hide Analysis, Uses, Holds, Unique;
    var defs, bodies := [Definition(F, 0)], [NESTED_BODY];
    NamesDiffer();
    NestedHolds();
    NestedUses();
    RecordIsFirstUse(TEXTURES, NESTED, defs, bodies, Textures, 0);
    RecordIsFirstUse(TEXTURES, NESTED, defs, bodies, Samplers, 0);
    RecordsAreSound(TEXTURES, NESTED, defs, bodies, F);
    UniqueOfDistinct([B, A]);
    SwappedIsSwapped(Analysis(TEXTURES, NESTED, defs)[F]);
  }

  lemma SwappedIsSwapped(d: Needs)
    requires d.textures == [B, A] && Recorded(TEXTURES, d)
    ensures ExtraArgs(TEXTURES, d) == [TextureParam(B), TextureParam(A)]
    ensures ExtraParams(TEXTURES, d, false) == [TextureParam(A), TextureParam(B)]
  {
    NamesDiffer();
    assert !d.uniforms && d.samplers == [] by { NothingElse(d); }
    assert [B, A][..1] == [B] && [A, B][..1] == [A] && [A][..0] == [] && [B][..0] == [];
    assert Filter([A], {A, B}) == [A];
    OneTexture(A);
    OneTexture(B);
    assert TexturesOf(TEXTURES, d, false) == {A, B};
    assert Filter([A, B], {A, B}) == [A, B];
    assert ToSet(d.samplers) == {} && Filter([], {}) == [];
  }

  lemma OneTexture(n: Symbol)
    requires n == A || n == B
    ensures TextureArgs(TEXTURES, [n]) == [TextureParam(n)]
  {
    assert [n][..0] == [];
    assert TextureArgs(TEXTURES, []) == [];
  }

  lemma NothingElse(d: Needs)
    requires Recorded(TEXTURES, d)
    ensures !d.uniforms && d.samplers == []
  {
    FirstIn(d.samplers);
  }
}
