/**
  The text emitted for a region refers only to what the names of the region stand for, stray names excepted, and of
  these it has some exactly if the region does.
 */
module ShaderClosure {
  import opened ShaderAnalysis
  import opened ShaderEmit
  import opened ShaderEnds
  import opened ShaderReferences
  import opened ShaderScan
  import opened ShaderSyntax
  import opened Wrappers

  // ---------- What is given ----------

  /** All that a name stands for is among the parameters. */
  ghost predicate Covers(c: Context, params: set<Param>, t: Token) {
    t.Name? ==> forall p | StandsFor(c.sh, c.fs, t.name, p) :: p in params
  }

  /** Tokens have text, and what their names stand for is among the parameters. */
  ghost predicate GoodTree(c: Context, params: set<Param>, tree: Tree) {
    match tree
    case Leaf(t) => Str(t) != "" && Covers(c, params, t)
    case Paren(kids) => forall k | k in kids :: GoodTree(c, params, k)
    case Brace(kids) => forall k | k in kids :: GoodTree(c, params, k)
  }

  ghost predicate Good(c: Context, params: set<Param>, trees: seq<Tree>) {
    forall tree | tree in trees :: GoodTree(c, params, tree)
  }

  /** No rewriting yields empty text, and a sampler is known to be one. */
  ghost predicate Sane(c: Context) {
    Spelled(c) && (c.sh.fragment || c.sh.samplers == [])
  }

  lemma GoodWithin(c: Context, params: set<Param>, rest: seq<Tree>, trees: seq<Tree>)
    requires Good(c, params, trees) && Within(rest, trees)
    ensures Good(c, params, rest)
  {
  }

  lemma GoodGroup(c: Context, params: set<Param>, trees: seq<Tree>)
    requires Good(c, params, trees) && NextGroup(trees).Some?
    ensures Good(c, params, NextGroup(trees).value.kids) && Good(c, params, NextGroup(trees).value.rest)
  {
    DropSpaceWithin(trees);
    var a := DropSpace(trees);
    assert a[0] in trees && GoodTree(c, params, a[0]);
    GroupWithin(trees);
  }

  lemma GoodParts(c: Context, params: set<Param>, kids: seq<Tree>)
    requires Good(c, params, kids) && TopCommas(kids) > 0
    ensures Good(c, params, BeforeComma(kids)) && Good(c, params, AfterComma(kids))
  {
    assert Within(BeforeComma(kids), kids);
    assert Within(AfterComma(kids), kids);
  }

  lemma GoodDrop(c: Context, params: set<Param>, trees: seq<Tree>)
    requires Good(c, params, trees)
    ensures Good(c, params, DropSpace(trees))
    ensures DropSpace(trees) != [] ==> Good(c, params, DropSpace(trees)[1..])
  {
    DropSpaceWithin(trees);
    if DropSpace(trees) != [] {
      AfterSpaceWithin(trees);
    }
  }

  // ---------- The last piece ----------

  lemma ItemWithin(c: Context, prev: Token, trees: seq<Tree>, after: Token)
    requires trees != []
    ensures var o := EmitItem(c, prev, trees, after); o.Emits? ==> Within(o.value.rest, trees)
  {
    hide EmitItem;
    ItemSpans(c, prev, trees, after);
  }

  lemma GoodHead(c: Context, params: set<Param>, trees: seq<Tree>)
    requires Good(c, params, trees) && trees != []
    ensures GoodTree(c, params, trees[0]) && Good(c, params, trees[1..])
  {
  }

  /** What is emitted for a region ends with a piece that is no comparison. */
  lemma EmitEnds(c: Context, params: set<Param>, prev: Token, trees: seq<Tree>, after: Token)
    requires Sane(c) && Closing(after) && Good(c, params, trees)
    ensures var o := Emit(c, prev, trees, after); o.Emits? ==> EndsSolid(o.value)
  {
    hide Emit, Prior;
    if trees == [] {
      EmitNothing(c, prev, after);
    } else {
      EmitEndsAs(c, prev, trees, after);
      var last := trees[|trees| - 1];
      assert GoodTree(c, params, last);
    }
  }

  // ---------- References ----------

  /** These pieces refer to nothing but parameters, except for stray ones, of which there are some or none. */
  ghost predicate Faithful(c: Context, params: set<Param>, marks: set<Piece>, stray: bool) {
    AllFine(c.sh, params, marks) && (AnyStray(c.sh, params, marks) <==> stray)
  }

  lemma FaithfulNothing(c: Context, params: set<Param>)
    ensures Faithful(c, params, {}, false)
  {
  }

  lemma FaithfulBoth(c: Context, params: set<Param>, a: set<Piece>, b: set<Piece>, x: bool, y: bool)
    requires Faithful(c, params, a, x) && Faithful(c, params, b, y)
    ensures Faithful(c, params, a + b, x || y)
  {
    hide Fine, Stray;
    if x {
      var piece :| piece in a && Stray(c.sh, params, piece);
      assert piece in a + b;
    } else if y {
      var piece :| piece in b && Stray(c.sh, params, piece);
      assert piece in a + b;
    }
  }

  lemma FaithfulKept(c: Context, params: set<Param>, marks: set<Piece>, kept: set<Piece>, stray: bool)
    requires Faithful(c, params, marks, stray) && Keeps(marks, kept)
    ensures Faithful(c, params, kept, stray)
  {
    KeptIsSame(c.sh, params, marks, kept);
  }

  lemma FaithfulName(c: Context, params: set<Param>, prev: Token, n: Symbol, rest: seq<Tree>, after: Token)
    requires Sane(c) && Closing(after) && n !in c.sh.words && !c.sh.IsTexture(n)
    requires Covers(c, params, Name(n)) && Covers(c, params, Ahead(if rest == [] then [] else rest[1..], after))
    ensures var next := if rest == [] then after else Head(rest[0]);
            var right := if rest != [] && LooksAhead(c, prev, n, next) then Ahead(rest[1..], after) else End;
            Faithful(c, params, Marks([NameText(c, prev, n, next, right)]), RawName(c, prev, n, rest, after))
  {
    hide Ahead, Stray, Covers, Sane;
    var next := if rest == [] then after else Head(rest[0]);
    var right := if rest != [] && LooksAhead(c, prev, n, next) then Ahead(rest[1..], after) else End;
    var piece := NameText(c, prev, n, next, right);
    assert Covers(c, params, End) by { EndCovered(c, params); }
    NameIsStray(c, params, prev, n, next, right);
    if piece.Text? {
      MarksText();
    } else {
      assert Marks([piece]) == {piece};
    }
  }

  lemma EndCovered(c: Context, params: set<Param>)
    ensures Covers(c, params, End)
  {
  }

  /** Of the pieces that a name becomes, only comparisons with a plain uniform are stray. */
  lemma NameIsStray(c: Context, params: set<Param>, prev: Token, n: Symbol, next: Token, right: Token)
    requires Sane(c) && !c.sh.IsTexture(n) && Covers(c, params, Name(n)) && Covers(c, params, right)
    ensures var piece := NameText(c, prev, n, next, right);
            Stray(c.sh, params, piece)
            <==> piece.Compared? && (c.sh.IsPlain(n) || (right.Name? && c.sh.IsPlain(right.name)))
  {
    var piece := NameText(c, prev, n, next, right);
    NameStandsFor(c, params, n);
    if right.Name? {
      NameStandsFor(c, params, right.name);
    }
    assert c.sh.IsPlain(n) ==> StandsFor(c.sh, c.fs, n, UniformBlock);
    if piece.Compared? && c.sh.IsPlain(n) {
      assert Refers(c.sh, piece, Global(n));
    } else if piece.Compared? && right.Name? && c.sh.IsPlain(right.name) {
      assert Refers(c.sh, piece, Global(right.name));
    }
  }

  /** A stray name refers to a parameter, or it is a uniform. */
  lemma NameStandsFor(c: Context, params: set<Param>, n: Symbol)
    requires Sane(c) && Covers(c, params, Name(n))
    ensures forall r | NameRefers(c.sh, n, r) :: if r.Lifted? then r.p in params else c.sh.IsPlain(n)
  {
    forall r | NameRefers(c.sh, n, r) && r.Lifted? ensures r.p in params {
      assert StandsFor(c.sh, c.fs, n, r.p);
    }
  }

  lemma {:induction false} TextureArgsAre(sh: Shader, names: seq<Symbol>, p: Param)
    ensures p in TextureArgs(sh, names) <==> p.TextureParam? && p.name in names && sh.IsTexture(p.name)
  {
    if names != [] {
      TextureArgsAre(sh, names[..|names| - 1], p);
      assert names == names[..|names| - 1] + [names[|names| - 1]];
    }
  }

  lemma {:induction false} SamplerParamsAre(names: seq<Symbol>, p: Param)
    ensures p in SamplerParams(names) <==> p.SamplerParam? && p.name in names
  {
    if names != [] {
      SamplerParamsAre(names[..|names| - 1], p);
      assert names == names[..|names| - 1] + [names[|names| - 1]];
    }
  }

  lemma {:induction false} SamplerArgsAre(sh: Shader, names: seq<Symbol>, p: Param)
    ensures p in SamplerArgs(sh, names) <==> p.SamplerParam? && p.name in names && p.name in sh.samplers
  {
    if names != [] {
      var n := names[|names| - 1];
      SamplerArgsAre(sh, names[..|names| - 1], p);
      SamplerParamsAre(Filter(sh.samplers, {n}), p);
      if p.SamplerParam? {
        FilterKeeps(sh.samplers, {n}, p.name);
      }
      assert names == names[..|names| - 1] + [n];
    }
  }

  /** Added arguments are what the called function needs. */
  lemma ExtraArgsAre(sh: Shader, d: Needs, p: Param)
    ensures p in ExtraArgs(sh, d) ==> Has(d, p)
  {
    TextureArgsAre(sh, d.textures, p);
    SamplerArgsAre(sh, d.samplers, p);
  }

  lemma FaithfulAdded(c: Context, params: set<Param>, prev: Token)
    requires Covers(c, params, prev)
    ensures Faithful(c, params, Marks(Listed(c.Added(prev))), false)
  {
    var added := c.Added(prev);
    forall p | p in added ensures p in params {
      ExtraArgsAre(c.sh, c.fs[prev.name], p);
      assert StandsFor(c.sh, c.fs, prev.name, p);
    }
    ListedMarks(added);
  }

  lemma {:induction false} ListedMarks(added: seq<Param>)
    ensures Marks(Listed(added)) == set p | p in added :: Extra(p)
  {
    MarksConcat();
    MarksText();
    if |added| == 1 {
      assert Marks([Extra(added[0])]) == {Extra(added[0])};
    } else if |added| > 1 {
      ListedMarks(added[1..]);
      assert added == [added[0]] + added[1..];
      assert Marks([Extra(added[0])]) == {Extra(added[0])};
    }
  }

  lemma FaithfulParenthesis(c: Context, params: set<Param>, prev: Token, content: seq<Piece>, stray: bool)
    requires Covers(c, params, prev) && Faithful(c, params, Marks(content), stray)
    ensures var r := Parenthesis(c, prev, content); r.Some? ==> Faithful(c, params, Marks(r.value), stray)
  {
    hide Int3, Listed, Faithful, Covers, Marks;
    MarksConcat();
    MarksText();
    FaithfulAdded(c, params, prev);
    FaithfulNothing(c, params);
    var inner := if prev == Name(INT3) then Int3(content) else Some(content);
    if inner.Some? {
      Int3Keeps(content);
      if prev == Name(INT3) {
        FaithfulKept(c, params, Marks(content), Marks(inner.value), stray);
      }
      FaithfulBoth(c, params, Marks(inner.value), Marks(Listed(c.Added(prev))), stray, false);
      var added := Listed(c.Added(prev));
      var tail := if added == [] then [] else SEP + added;
      assert Marks(tail) == Marks(added);
      assert Parenthesis(c, prev, content) == Some([Text("(")] + inner.value + tail + [Text(")")]);
      assert Marks([Text("(")] + inner.value + tail + [Text(")")]) == Marks(inner.value) + Marks(added);
    }
  }

  lemma FourParts(s: seq<seq<Piece>>)
    requires |s| == 4
    ensures PartMarks(s) == Marks(s[0]) + Marks(s[1]) + Marks(s[2]) + Marks(s[3])
  {
    ThreeParts(s[1..]);
    assert s[1..][0] == s[1] && s[1..][1] == s[2] && s[1..][2] == s[3];
  }

  /** A texture call other than `Load` keeps its arguments. */
  lemma CallKeeps(v: Sampling, args: seq<seq<Piece>>)
    requires |args| == Arity(v) && !v.Load?
    ensures CallText(v, args).Some? && Marks(CallText(v, args).value) == PartMarks(args)
  {
    hide PartMarks, Marks;
    ThreeParts(args);
    MarksText();
    var open, close := [Text("sample(")], [Text("))")];
    match v
    case Sample =>
      close := [Text(")")];
      assert CallText(v, args).value == open + args[0] + SEP + args[1] + close + [] + [];
      MarksAround(open, args[0], SEP, args[1], close, [], []);
    case SampleBias =>
      assert CallText(v, args).value == open + args[0] + SEP + args[1] + (SEP + [Text("bias(")]) + args[2] + close;
      MarksAround(open, args[0], SEP, args[1], SEP + [Text("bias(")], args[2], close);
    case SampleLevel =>
      assert CallText(v, args).value == open + args[0] + SEP + args[1] + (SEP + [Text("level(")]) + args[2] + close;
      MarksAround(open, args[0], SEP, args[1], SEP + [Text("level(")], args[2], close);
    case SampleGrad =>
      FourParts(args);
      var front := open + args[0] + SEP + args[1] + (SEP + [Text("gradient2d(")]) + args[2] + SEP;
      assert CallText(v, args).value == front + args[3] + close + [] + [] + [] + [];
      MarksAround(open, args[0], SEP, args[1], SEP + [Text("gradient2d(")], args[2], SEP);
      MarksAround(front, args[3], close, [], [], [], []);
  }

  /** Text around three parts adds nothing. */
  lemma MarksAround(t: seq<Piece>, a: seq<Piece>, u: seq<Piece>, b: seq<Piece>, v: seq<Piece>, d: seq<Piece>,
                    w: seq<Piece>)
    requires OnlyText(u) && OnlyText(v) && OnlyText(w)
    ensures Marks(t + a + u + b + v + d + w) == Marks(t) + Marks(a) + Marks(b) + Marks(d)
  {
    hide Marks, OnlyText;
    MarksConcat();
    TextHasNoMarks(u);
    TextHasNoMarks(v);
    TextHasNoMarks(w);
  }

  lemma TextHasNoMarks(ps: seq<Piece>)
    requires OnlyText(ps)
    ensures Marks(ps) == {}
  {
  }

  /** A `Load` keeps its argument, but for the word that it cuts. */
  lemma LoadRefers(c: Context, params: set<Param>, kids: seq<Tree>, first: seq<Piece>, stray: bool)
    requires Emit(c, OpenParen, kids, CloseParen) == Emits(first)
    requires Faithful(c, params, Marks(first), stray) && EndsSolid(first)
    ensures LoadText(first).Some? ==>
              Faithful(c, params, Marks(LoadText(first).value), stray || LoadCuts(c, params, kids))
  {
    hide Emit, Faithful, Marks, LoadText, LoadCuts, Keeps, EndsSolid, StartsInt3;
    EmitStartsInt3(c, kids, CloseParen);
    LoadCutsOnly(c, params, kids);
    if !TextStartsInt3(first) {
      PlainLoad(first);
    } else if |first| == 2 {
      ShortLoad(first);
    } else {
      var last, front := first[|first| - 1], first[2..|first| - 1];
      LoadKeeps(first);
      EmitEndsAs(c, OpenParen, kids, CloseParen);
      CutIsStray(c, params, kids, first);
      FaithfulFront(c, params, first, stray);
      FaithfulCut(c, params, last);
      FaithfulBoth(c, params, Marks(front), {Cut(last)}, stray, LoadCuts(c, params, kids));
      if LoadText(first).Some? {
        FaithfulKept(c, params, Marks(front) + {Cut(last)}, Marks(LoadText(first).value),
                     stray || LoadCuts(c, params, kids));
      }
    }
  }

  lemma LoadCutsOnly(c: Context, params: set<Param>, kids: seq<Tree>)
    ensures LoadCuts(c, params, kids) ==> StartsInt3(c, kids)
    ensures StartsInt3(c, kids) ==> kids != []
  {
  }

  /** The last piece of an `int3` is stray without its last character exactly if the `Load` cuts a word. */
  lemma CutIsStray(c: Context, params: set<Param>, kids: seq<Tree>, first: seq<Piece>)
    requires StartsInt3(c, kids) && first != [] && EndsAs(c, OpenParen, kids, CloseParen, first)
    ensures Stray(c.sh, params, Cut(first[|first| - 1])) <==> LoadCuts(c, params, kids)
  {
    hide LeafPiece, StartsInt3, Prior;
  }

  /** The two pieces in front and the last one are not stray. */
  lemma FaithfulFront(c: Context, params: set<Param>, first: seq<Piece>, stray: bool)
    requires |first| > 2 && TextStartsInt3(first) && EndsSolid(first) && Faithful(c, params, Marks(first), stray)
    ensures Faithful(c, params, Marks(first[2..|first| - 1]), stray)
  {
    hide Stray, PieceText;
    var last, front := |first| - 1, first[2..|first| - 1];
    assert first == [first[0]] + [first[1]] + front + [first[last]];
    MarksConcat();
    MarksText();
    assert forall piece | piece in Marks(first) :: piece == first[0] || piece == first[last] || piece in Marks(front);
    assert first[0] in Marks(first);
    assert !first[last].Text? ==> first[last] in Marks(first);
    if stray {
      var piece :| piece in Marks(first) && Stray(c.sh, params, piece);
      assert piece in Marks(front);
    }
  }

  lemma FaithfulCut(c: Context, params: set<Param>, last: Piece)
    ensures Faithful(c, params, {Cut(last)}, Stray(c.sh, params, Cut(last)))
  {
    hide Stray;
    assert Cut(last) in {Cut(last)};
  }

  // ---------- The induction ----------

  lemma {:induction false} EmitRefers(c: Context, params: set<Param>, prev: Token, trees: seq<Tree>, after: Token)
    requires Sane(c) && Closing(after) && Covers(c, params, prev) && Good(c, params, trees)
    ensures var o := Emit(c, prev, trees, after);
            o.Emits? ==> Faithful(c, params, Marks(o.value), StrayIn(c, params, prev, trees, after))
    decreases Size(trees), 4
  {
    hide Emit, EmitItem, Faithful, Good, Sane, Covers, StrayIn, Marks;
    if trees == [] {
      EmitNothing(c, prev, after);
      StrayNothing(c, params, prev, after);
      MarksText();
      FaithfulNothing(c, params);
    } else {
      EmitStep(c, prev, trees, after);
      var o := EmitItem(c, prev, trees, after);
      if o.Emits? {
        var stray := ItemRefers(c, params, prev, trees, after);
        ItemWithin(c, prev, trees, after);
        GoodWithin(c, params, o.value.rest, trees);
        EmitRefers(c, params, o.value.last, o.value.rest, after);
        var e := Emit(c, o.value.last, o.value.rest, after);
        if e.Emits? {
          MarksConcat();
          FaithfulBoth(c, params, Marks(o.value.out), Marks(e.value), stray,
                       StrayIn(c, params, o.value.last, o.value.rest, after));
        }
      }
    }
  }

  lemma StrayNothing(c: Context, params: set<Param>, prev: Token, after: Token)
    ensures !StrayIn(c, params, prev, [], after)
  {
  }

  /** An item's own share in the stray names of the region. */
  lemma {:induction false} ItemRefers(c: Context, params: set<Param>, prev: Token, trees: seq<Tree>, after: Token)
    returns (stray: bool)
    requires Sane(c) && Closing(after) && Covers(c, params, prev) && Good(c, params, trees) && trees != []
    requires EmitItem(c, prev, trees, after).Emits?
    ensures var item := EmitItem(c, prev, trees, after).value;
            && Faithful(c, params, Marks(item.out), stray) && Covers(c, params, item.last)
            && StrayIn(c, params, prev, trees, after) == (stray || StrayIn(c, params, item.last, item.rest, after))
    decreases Size(trees), 3
  {
    hide Emit, EmitItem, EmitName, Faithful, Good, Sane, Covers, Parenthesis, StrayIn, StrayTree, StrayName, Marks;
    GoodHead(c, params, trees);
    StrayStep(c, params, prev, trees, after);
    match trees[0]
    case Leaf(t) =>
      GoodLeaf(c, params, t);
      if t.Name? {
        NameItem(c, params, prev, trees, after);
        stray := NameRefersItem(c, params, prev, t.name, trees[1..], after);
      } else {
        LeafItem(c, params, prev, trees, after);
        MarksText();
        FaithfulNothing(c, params);
        stray := false;
      }
    case Brace(kids) =>
      stray := StrayIn(c, params, OpenBrace, kids, CloseBrace);
      GoodKids(c, params, trees[0]);
      BracketsCovered(c, params);
      EmitRefers(c, params, OpenBrace, kids, CloseBrace);
      BraceItem(c, params, prev, trees, after);
      BlockMarks(Emit(c, OpenBrace, kids, CloseBrace).value);
    case Paren(kids) =>
      stray := StrayIn(c, params, OpenParen, kids, CloseParen);
      GoodKids(c, params, trees[0]);
      BracketsCovered(c, params);
      EmitRefers(c, params, OpenParen, kids, CloseParen);
      ParenItem(c, params, prev, trees, after);
      FaithfulParenthesis(c, params, prev, Emit(c, OpenParen, kids, CloseParen).value, stray);
  }

  lemma BracketsCovered(c: Context, params: set<Param>)
    ensures forall t | IsBracket(t) :: Covers(c, params, t)
  {
  }

  lemma GoodLeaf(c: Context, params: set<Param>, t: Token)
    requires GoodTree(c, params, Leaf(t))
    ensures Covers(c, params, t)
  {
  }

  lemma NameItem(c: Context, params: set<Param>, prev: Token, trees: seq<Tree>, after: Token)
    requires trees != [] && trees[0].Leaf? && trees[0].t.Name?
    ensures EmitItem(c, prev, trees, after) == EmitName(c, prev, trees[0].t.name, trees[1..], after)
    ensures StrayTree(c, params, prev, trees[0], trees[1..], after)
         == StrayName(c, params, prev, trees[0].t.name, trees[1..], after)
    ensures Last(trees[0]) == trees[0].t
  {
    hide EmitName, StrayName;
  }

  lemma LeafItem(c: Context, params: set<Param>, prev: Token, trees: seq<Tree>, after: Token)
    requires trees != [] && trees[0].Leaf? && !trees[0].t.Name?
    ensures EmitItem(c, prev, trees, after) == Emits(Item([Text(Str(trees[0].t))], trees[0].t, trees[1..]))
    ensures !StrayTree(c, params, prev, trees[0], trees[1..], after) && Last(trees[0]) == trees[0].t
  {
  }

  lemma BraceItem(c: Context, params: set<Param>, prev: Token, trees: seq<Tree>, after: Token)
    requires trees != [] && trees[0].Brace? && EmitItem(c, prev, trees, after).Emits?
    ensures var out := Emit(c, OpenBrace, trees[0].kids, CloseBrace);
            && out.Emits?
            && EmitItem(c, prev, trees, after)
               == Emits(Item([Text("{")] + out.value + [Text("}")], CloseBrace, trees[1..]))
    ensures StrayTree(c, params, prev, trees[0], trees[1..], after)
         == StrayIn(c, params, OpenBrace, trees[0].kids, CloseBrace)
    ensures Last(trees[0]) == CloseBrace
  {
    hide Emit, StrayIn;
  }

  lemma ParenItem(c: Context, params: set<Param>, prev: Token, trees: seq<Tree>, after: Token)
    requires trees != [] && trees[0].Paren? && EmitItem(c, prev, trees, after).Emits?
    ensures var out := Emit(c, OpenParen, trees[0].kids, CloseParen);
            && out.Emits?
            && var r := Parenthesis(c, prev, out.value);
               r.Some? && EmitItem(c, prev, trees, after) == Emits(Item(r.value, CloseParen, trees[1..]))
    ensures StrayTree(c, params, prev, trees[0], trees[1..], after)
         == StrayIn(c, params, OpenParen, trees[0].kids, CloseParen)
    ensures Last(trees[0]) == CloseParen
  {
    hide Emit, StrayIn, Parenthesis;
  }

  lemma BlockMarks(out: seq<Piece>)
    ensures Marks([Text("{")] + out + [Text("}")]) == Marks(out)
  {
    MarksConcat();
    MarksText();
  }

  lemma GoodKids(c: Context, params: set<Param>, tree: Tree)
    requires GoodTree(c, params, tree) && !tree.Leaf?
    ensures Good(c, params, tree.kids) && SizeTree(tree) == 2 + Size(tree.kids)
  {
  }

  lemma AheadCovered(c: Context, params: set<Param>, trees: seq<Tree>, after: Token)
    requires Good(c, params, trees) && Closing(after)
    ensures Covers(c, params, Ahead(trees, after))
  {
    GoodDrop(c, params, trees);
    if DropSpace(trees) != [] {
      GoodHead(c, params, DropSpace(trees));
    }
  }

  lemma {:induction false} NameRefersItem(c: Context, params: set<Param>, prev: Token, n: Symbol, rest: seq<Tree>,
                                          after: Token) returns (stray: bool)
    requires Sane(c) && Closing(after) && Covers(c, params, Name(n)) && Good(c, params, rest)
    requires EmitName(c, prev, n, rest, after).Emits?
    ensures var item := EmitName(c, prev, n, rest, after).value;
            && Faithful(c, params, Marks(item.out), stray) && Covers(c, params, item.last)
            && (StrayName(c, params, prev, n, rest, after) || StrayIn(c, params, Name(n), rest, after))
               == (stray || StrayIn(c, params, item.last, item.rest, after))
    decreases Size(rest), 9
  {
    hide EmitProduct, EmitProductSum, EmitSampler, Faithful, Good, Sane, Covers, StrayIn, Marks, NameText, LooksAhead,
         Ahead, LoadKids, LoadCuts, RawName;
    BracketsCovered(c, params);
    MarksText();
    FaithfulNothing(c, params);
    if n in c.sh.words && c.sh.words[n].Multiply? {
      stray := ProductRefers(c, params, n, rest, after);
    } else if n in c.sh.words && c.sh.words[n].MultiplyAdd? {
      stray := ProductSumRefers(c, params, n, rest, after);
    } else if n in c.sh.words {
      stray := false;
    } else if c.sh.IsTexture(n) {
      stray := SamplerRefers(c, params, prev, n, rest, after);
    } else {
      stray := RawName(c, prev, n, rest, after);
      PlainNameRefers(c, params, prev, n, rest, after);
    }
  }

  lemma PlainNameRefers(c: Context, params: set<Param>, prev: Token, n: Symbol, rest: seq<Tree>, after: Token)
    requires Sane(c) && Closing(after) && Covers(c, params, Name(n)) && Good(c, params, rest)
    requires n !in c.sh.words && !c.sh.IsTexture(n)
    ensures var o := EmitName(c, prev, n, rest, after);
            && o.Emits? && o.value.last == Name(n) && o.value.rest == rest
            && Faithful(c, params, Marks(o.value.out), RawName(c, prev, n, rest, after))
  {
    hide Faithful, Good, Sane, Covers, Marks, NameText, LooksAhead, Ahead, RawName;
    var tail := if rest == [] then [] else rest[1..];
    assert Good(c, params, tail) by { GoodTail(c, params, rest); }
    AheadCovered(c, params, tail, after);
    FaithfulName(c, params, prev, n, rest, after);
  }

  lemma GoodTail(c: Context, params: set<Param>, trees: seq<Tree>)
    requires Good(c, params, trees)
    ensures Good(c, params, if trees == [] then [] else trees[1..])
  {
  }

  /** The stray names of a call's region are those of its parenthesis and those behind it. */
  lemma StrayGroup(c: Context, params: set<Param>, prev: Token, rest: seq<Tree>, after: Token)
    requires NextGroup(rest).Some?
    ensures var g := NextGroup(rest).value;
            StrayIn(c, params, prev, rest, after)
            == (StrayIn(c, params, OpenParen, g.kids, CloseParen) || StrayIn(c, params, CloseParen, g.rest, after))
  {
    hide StrayIn;
    StrayPass(c, params, prev, rest, after);
  }

  lemma {:induction false} ProductRefers(c: Context, params: set<Param>, n: Symbol, rest: seq<Tree>, after: Token)
    returns (stray: bool)
    requires Sane(c) && Good(c, params, rest) && EmitProduct(c, rest).Emits?
    ensures var item := EmitProduct(c, rest).value;
            && Faithful(c, params, Marks(item.out), stray) && item.last == CloseParen
            && StrayIn(c, params, Name(n), rest, after) == (stray || StrayIn(c, params, CloseParen, item.rest, after))
    decreases Size(rest), 8
  {
    hide Emit, Faithful, Good, Sane, StrayIn, Marks, NextGroup, BeforeComma, AfterComma, TopCommas, DropSpace, Size;
    var g := NextGroup(rest).value;
    var first, second := BeforeComma(g.kids), AfterComma(g.kids);
    GoodGroup(c, params, rest);
    GoodParts(c, params, g.kids);
    GoodDrop(c, params, second);
    StrayGroup(c, params, Name(n), rest, after);
    StrayComma(c, params, OpenParen, g.kids, CloseParen);
    StrayDrop(c, params, Comma, second, CloseParen);
    assert Size(first) + 1 + Size(second) == Size(g.kids);
    stray := StrayIn(c, params, OpenParen, g.kids, CloseParen);
    EmitRefers(c, params, OpenParen, first, Comma);
    EmitRefers(c, params, Comma, DropSpace(second), CloseParen);
    var lhs := Emit(c, OpenParen, first, Comma).value;
    var rhs := Emit(c, Comma, DropSpace(second), CloseParen).value;
    FaithfulBoth(c, params, Marks(lhs), Marks(rhs), StrayIn(c, params, OpenParen, first, Comma),
                 StrayIn(c, params, Comma, DropSpace(second), CloseParen));
    ProductMarks(lhs, rhs);
  }

  lemma ProductMarks(lhs: seq<Piece>, rhs: seq<Piece>)
    ensures Marks(ProductText(lhs, rhs)) == Marks(lhs) + Marks(rhs)
  {
    MarksConcat();
    MarksText();
  }

  lemma {:induction false} ProductSumRefers(c: Context, params: set<Param>, n: Symbol, rest: seq<Tree>, after: Token)
    returns (stray: bool)
    requires Sane(c) && Good(c, params, rest) && EmitProductSum(c, rest).Emits?
    ensures var item := EmitProductSum(c, rest).value;
            && Faithful(c, params, Marks(item.out), stray) && item.last == CloseParen
            && StrayIn(c, params, Name(n), rest, after) == (stray || StrayIn(c, params, CloseParen, item.rest, after))
    decreases Size(rest), 8
  {
    hide EmitArguments, Faithful, Good, Sane, StrayIn, Marks, NextGroup, Size, MultiplyAddText;
    var g := NextGroup(rest).value;
    GoodGroup(c, params, rest);
    StrayGroup(c, params, Name(n), rest, after);
    stray := StrayIn(c, params, OpenParen, g.kids, CloseParen);
    ArgumentsRefer(c, params, OpenParen, g.kids, 3);
    MultiplyAddMarks(EmitArguments(c, OpenParen, g.kids, 3).value);
  }

  lemma MultiplyAddMarks(args: seq<seq<Piece>>)
    requires |args| == 3
    ensures Marks(MultiplyAddText(args)) == PartMarks(args)
  {
    hide PartMarks;
    MarksConcat();
    MarksText();
    ThreeParts(args);
  }

  lemma {:induction false} ArgumentsRefer(c: Context, params: set<Param>, prev: Token, kids: seq<Tree>, n: nat)
    requires Sane(c) && !prev.Name? && Good(c, params, kids) && n > 0
    requires EmitArguments(c, prev, kids, n).Emits?
    ensures var args := EmitArguments(c, prev, kids, n).value;
            && Faithful(c, params, PartMarks(args), StrayIn(c, params, prev, kids, CloseParen))
    decreases Size(kids), 5, n
  {
    hide Emit, Faithful, Good, Sane, StrayIn, Marks, BeforeComma, AfterComma, TopCommas, EndsSolid, Size;
    FaithfulNothing(c, params);
    if n == 1 {
      EmitRefers(c, params, prev, kids, CloseParen);
      ThreeParts([Emit(c, prev, kids, CloseParen).value]);
    } else {
      var first, second := BeforeComma(kids), AfterComma(kids);
      assert Size(first) + 1 + Size(second) == Size(kids);
      GoodParts(c, params, kids);
      EmitRefers(c, params, prev, first, Comma);
      ArgumentsRefer(c, params, Comma, second, n - 1);
      StrayComma(c, params, prev, kids, CloseParen);
      var out, args := Emit(c, prev, first, Comma).value, EmitArguments(c, Comma, second, n - 1).value;
      PartMarksConcat([out], args);
      ThreeParts([out]);
      FaithfulBoth(c, params, Marks(out), PartMarks(args), StrayIn(c, params, prev, first, Comma),
                   StrayIn(c, params, Comma, second, CloseParen));
    }
  }

  lemma {:induction false} SamplerRefers(c: Context, params: set<Param>, prev: Token, n: Symbol, rest: seq<Tree>,
                                         after: Token) returns (stray: bool)
    requires Sane(c) && Good(c, params, rest) && EmitSampler(c, n, rest).Emits? && n !in c.sh.words
    requires c.sh.IsTexture(n) && Covers(c, params, Name(n))
    ensures var item := EmitSampler(c, n, rest).value;
            && Faithful(c, params, Marks(item.out), stray) && item.last == CloseParen
            && (StrayName(c, params, prev, n, rest, after) || StrayIn(c, params, Name(n), rest, after))
               == (stray || StrayIn(c, params, CloseParen, item.rest, after))
    decreases Size(rest), 8
  {
    hide Faithful, Good, Sane, StrayIn, Marks, DropSpace, EmitTextureCall, LoadCuts, NextGroup;
    var dot := DropSpace(rest);
    var m := DropSpace(dot[1..]);
    GoodDrop(c, params, rest);
    GoodDrop(c, params, dot[1..]);
    var v := c.sh.methods[m[0].t.name];
    GroupIsNext(c, n, v, m[1..]);
    assert dot[0].t == Dot;
    StrayPass(c, params, Name(n), rest, after);
    StrayPass(c, params, Dot, dot[1..], after);
    assert !StrayTree(c, params, Comma, dot[0], dot[1..], after);
    assert !StrayTree(c, params, Comma, m[0], m[1..], after) by {
      MethodIsNotStray(c, params, m[0].t.name, m[1..], after);
    }
    stray := TextureCallRefers(c, params, n, v, m[0].t, m[1..], after);
  }

  lemma GroupIsNext(c: Context, n: Symbol, v: Sampling, rest: seq<Tree>)
    requires EmitTextureCall(c, n, v, rest).Emits?
    ensures NextGroup(rest).Some? && rest != [] && !Head(rest[0]).Compare?
  {
  }

  /** A name before a parenthesis is neither compared nor a texture whose method is called. */
  lemma MethodIsNotStray(c: Context, params: set<Param>, m: Symbol, rest: seq<Tree>, after: Token)
    requires NextGroup(rest).Some? && rest != [] && !Head(rest[0]).Compare?
    ensures !StrayName(c, params, Comma, m, rest, after)
  {
    hide LoadCuts;
  }

  lemma {:induction false} TextureCallRefers(c: Context, params: set<Param>, n: Symbol, v: Sampling, prev: Token,
                                             rest: seq<Tree>, after: Token) returns (stray: bool)
    requires Sane(c) && Good(c, params, rest) && EmitTextureCall(c, n, v, rest).Emits?
    requires c.sh.IsTexture(n) && Covers(c, params, Name(n))
    ensures var item := EmitTextureCall(c, n, v, rest).value;
            && Faithful(c, params, Marks(item.out), stray) && item.last == CloseParen
            && ((v.Load? && LoadCuts(c, params, NextGroup(rest).value.kids)) || StrayIn(c, params, prev, rest, after))
               == (stray || StrayIn(c, params, CloseParen, item.rest, after))
    decreases Size(rest), 8
  {
    hide EmitArguments, Faithful, Good, Sane, StrayIn, Marks, NextGroup, Size, CallText, Covers, PartMarks, LoadCuts;
    var g := NextGroup(rest).value;
    GoodGroup(c, params, rest);
    StrayGroup(c, params, prev, rest, after);
    stray := ArgumentsOfCall(c, params, v, g.kids);
    var out := CallText(v, EmitArguments(c, OpenParen, g.kids, Arity(v)).value).value;
    FaithfulTexture(c, params, n);
    FaithfulBoth(c, params, {Texture(n)}, Marks(out), false, stray);
    CallMarks(n, out);
  }

  /** The arguments of a texture call as they are emitted. */
  lemma {:induction false} ArgumentsOfCall(c: Context, params: set<Param>, v: Sampling, kids: seq<Tree>)
    returns (stray: bool)
    requires Sane(c) && Good(c, params, kids) && EmitArguments(c, OpenParen, kids, Arity(v)).Emits?
    requires CallText(v, EmitArguments(c, OpenParen, kids, Arity(v)).value).Some?
    ensures stray == (StrayIn(c, params, OpenParen, kids, CloseParen) || (v.Load? && LoadCuts(c, params, kids)))
    ensures Faithful(c, params, Marks(CallText(v, EmitArguments(c, OpenParen, kids, Arity(v)).value).value), stray)
    decreases Size(kids), 6
  {
    hide Emit, Faithful, Good, Sane, StrayIn, Marks, LoadText, LoadCuts, PartMarks, EndsSolid;
    var inside := StrayIn(c, params, OpenParen, kids, CloseParen);
    stray := inside || (v.Load? && LoadCuts(c, params, kids));
    if v.Load? {
      EmitRefers(c, params, OpenParen, kids, CloseParen);
      EmitEnds(c, params, OpenParen, kids, CloseParen);
      OneArgument(c, kids);
      LoadRefers(c, params, kids, Emit(c, OpenParen, kids, CloseParen).value, inside);
    } else {
      ArgumentsRefer(c, params, OpenParen, kids, Arity(v));
      CallKeeps(v, EmitArguments(c, OpenParen, kids, Arity(v)).value);
    }
  }

  lemma CallMarks(n: Symbol, out: seq<Piece>)
    ensures Marks([Texture(n), Text(".")] + out) == {Texture(n)} + Marks(out)
  {
    MarksConcat();
    assert Marks([Texture(n), Text(".")]) == {Texture(n)};
  }

  lemma FaithfulTexture(c: Context, params: set<Param>, n: Symbol)
    requires c.sh.IsTexture(n) && Covers(c, params, Name(n))
    ensures Faithful(c, params, {Texture(n)}, false)
  {
    assert StandsFor(c.sh, c.fs, n, TextureParam(n));
  }
}
