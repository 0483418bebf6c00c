/**
  What the emitted text of a region refers to. Every reference to a lifted global comes from a name of the region; only
  a comparison and a name that has lost a character can refer to something else.
 */
module ShaderReferences {
  import opened ShaderAnalysis
  import opened ShaderEmit
  import opened ShaderEnds
  import opened ShaderScan
  import opened ShaderSyntax
  import opened Wrappers

  /** What text refers to: a parameter that lifting adds, or a uniform that is global no more. */
  datatype Ref = Lifted(p: Param) | Global(n: Symbol)

  predicate NameRefers(sh: Shader, n: Symbol, r: Ref) {
    match r
    case Global(x) => x == n && sh.IsPlain(n)
    case Lifted(p) =>
      match p
      case UniformBlock => false
      case TextureParam(x) => x == n && sh.IsTexture(n)
      case SamplerParam(x) => x == n && n in sh.samplers
  }

  predicate TokenRefers(sh: Shader, t: Token, r: Ref) {
    t.Name? && NameRefers(sh, t.name, r)
  }

  predicate Refers(sh: Shader, piece: Piece, r: Ref) {
    match piece
    case Text(_) => false
    case Uniform(_) => r == Lifted(UniformBlock)
    case Texture(n) => r == Lifted(TextureParam(n))
    case Ident(n) => NameRefers(sh, n, r)
    case Member(_) => false
    case Compared(left, _, right) => NameRefers(sh, left, r) || TokenRefers(sh, right, r)
    case Extra(p) => r == Lifted(p)
    case Cut(whole) => RestRefers(sh, whole, r)
  }

  /** What is left of a word refers to the global that has this shorter name. */
  predicate RestRefers(sh: Shader, whole: Piece, r: Ref) {
    match whole
    case Uniform(_) => r == Lifted(UniformBlock)
    case Member(_) => false
    case _ =>
      var text := PieceText(whole);
      |text| > 1 && (whole.Text? ==> IsWord(text)) && NameRefers(sh, Symbol(text[..|text| - 1]), r)
  }

  /** The piece refers to something other than these parameters. */
  ghost predicate Stray(sh: Shader, params: set<Param>, piece: Piece) {
    exists r :: Refers(sh, piece, r) && !(r.Lifted? && r.p in params)
  }

  /** Nothing but a comparison or a piece that has lost a character is stray. */
  ghost predicate Fine(sh: Shader, params: set<Param>, piece: Piece) {
    Stray(sh, params, piece) ==> piece.Compared? || piece.Cut?
  }

  // ---------- The pieces that count ----------

  /** The pieces that are not plain text. */
  function Marks(ps: seq<Piece>): set<Piece> {
    set piece | piece in ps && !piece.Text?
  }

  lemma MarksConcat()
    ensures forall a: seq<Piece>, b: seq<Piece> {:trigger Marks(a + b)} :: Marks(a + b) == Marks(a) + Marks(b)
  {
  }

  lemma MarksText()
    ensures forall text {:trigger Text(text)} :: Marks([Text(text)]) == {}
    ensures Marks(SEP) == {} && Marks([]) == {}
  {
  }

  ghost predicate AllFine(sh: Shader, params: set<Param>, marks: set<Piece>) {
    forall piece | piece in marks :: Fine(sh, params, piece)
  }

  ghost predicate AnyStray(sh: Shader, params: set<Param>, marks: set<Piece>) {
    exists piece :: piece in marks && Stray(sh, params, piece)
  }

  /** Nothing is added, and only pieces without text are lost. */
  ghost predicate Keeps(marks: set<Piece>, kept: set<Piece>) {
    && kept <= marks
    && (forall piece | piece in marks && PieceText(piece) != "" :: piece in kept)
  }

  lemma KeptIsSame(sh: Shader, params: set<Param>, marks: set<Piece>, kept: set<Piece>)
    requires Keeps(marks, kept) && AllFine(sh, params, marks)
    ensures AllFine(sh, params, kept)
    ensures AnyStray(sh, params, marks) <==> AnyStray(sh, params, kept)
  {
    hide Stray, PieceText;
    if AnyStray(sh, params, marks) {
      var piece :| piece in marks && Stray(sh, params, piece);
      StrayHasText(sh, params, piece);
    }
  }

  /** A piece without text refers to nothing. */
  lemma StrayHasText(sh: Shader, params: set<Param>, piece: Piece)
    requires Stray(sh, params, piece) && (piece.Compared? || piece.Cut?)
    ensures PieceText(piece) != ""
  {
    if piece.Cut? && piece.piece.Uniform? {
      assert |PieceText(piece.piece)| > 1;
    }
  }

  function PartMarks(parts: seq<seq<Piece>>): set<Piece> {
    if parts == [] then {} else Marks(parts[0]) + PartMarks(parts[1..])
  }

  lemma {:induction false} PieceIsText(ps: seq<Piece>, piece: Piece)
    requires piece in ps && PieceText(piece) != ""
    ensures Render(ps) != ""
  {
    if ps[0] != piece {
      PieceIsText(ps[1..], piece);
    }
  }

  /** Splitting at commas loses text that is empty, and the commas. */
  lemma {:induction false} SplitKeeps(ps: seq<Piece>, left: nat)
    ensures Keeps(Marks(ps), PartMarks(Split(ps, left)))
    decreases |ps|
  {
    hide Render, FirstComma, Marks, PartMarks, Keeps;
    var k := FirstComma(ps);
    var part := if Render(ps[..k]) == "" then [] else [ps[..k]];
    PartKeeps(ps[..k]);
    if k == |ps| {
      assert ps[..k] == ps;
    } else {
      FirstCommaIsComma(ps);
      var rest, more := ps[k + 1..], if part == [] then left else if left == 0 then 0 else left - 1;
      assert ps == ps[..k] + [Text(",")] + rest;
      PartKeeps(rest);
      SplitKeeps(rest, more);
      if part != [] && left <= 1 {
        KeepsBoth(ps[..k], rest, part, if Render(rest) == "" then [] else [rest]);
      } else {
        KeepsBoth(ps[..k], rest, part, Split(rest, more));
      }
    }
  }

  /** A part is left out only if it has no text. */
  lemma PartKeeps(ps: seq<Piece>)
    ensures Keeps(Marks(ps), PartMarks(if Render(ps) == "" then [] else [ps]))
  {
    forall piece | piece in ps && PieceText(piece) != "" ensures Render(ps) != "" {
      PieceIsText(ps, piece);
    }
    if Render(ps) != "" {
      assert [ps][1..] == [];
      assert PartMarks([ps]) == Marks(ps);
    }
  }

  lemma KeepsBoth(a: seq<Piece>, b: seq<Piece>, s: seq<seq<Piece>>, t: seq<seq<Piece>>)
    requires Keeps(Marks(a), PartMarks(s)) && Keeps(Marks(b), PartMarks(t))
    ensures Keeps(Marks(a + [Text(",")] + b), PartMarks(s + t))
  {
    hide PartMarks;
    MarksConcat();
    MarksText();
    PartMarksConcat(s, t);
  }

  lemma {:induction false} PartMarksConcat(a: seq<seq<Piece>>, b: seq<seq<Piece>>)
    ensures PartMarks(a + b) == PartMarks(a) + PartMarks(b)
  {
    if a == [] {
      assert a + b == b;
    } else {
      assert (a + b)[1..] == a[1..] + b;
      PartMarksConcat(a[1..], b);
    }
  }

  /** A piece that has text, and is no comparison and has not lost a character yet. */
  predicate Solid(piece: Piece) {
    PieceText(piece) != "" && !piece.Compared? && !piece.Cut?
  }

  predicate EndsSolid(ps: seq<Piece>) {
    ps != [] ==> Solid(ps[|ps| - 1])
  }

  lemma Int3Keeps(content: seq<Piece>)
    ensures Int3(content).Some? ==> Keeps(Marks(content), Marks(Int3(content).value))
  {
    hide Split;
    SplitKeeps(content, 3);
    MarksConcat();
    MarksText();
    ThreeParts(Split(content, 3));
  }

  lemma ThreeParts(s: seq<seq<Piece>>)
    ensures |s| == 3 ==> PartMarks(s) == Marks(s[0]) + Marks(s[1]) + Marks(s[2])
    ensures |s| == 2 ==> PartMarks(s) == Marks(s[0]) + Marks(s[1])
    ensures |s| == 1 ==> PartMarks(s) == Marks(s[0])
  {
    if |s| == 3 {
      assert s[1..][1..][1..] == [] && s[1..][1..][0] == s[2];
    } else if |s| == 2 {
      assert s[1..][1..] == [];
    }
  }

  // ---------- A `Load` that loses a character ----------

  /** What `Load` makes of an `int3`: its parts, where the last character of the text is lost. */
  lemma LoadKeeps(first: seq<Piece>)
    requires |first| > 2 && TextStartsInt3(first) && EndsSolid(first)
    ensures LoadText(first).Some? ==>
              Keeps(Marks(first[2..|first| - 1]) + {Cut(first[|first| - 1])}, Marks(LoadText(first).value))
  {
    hide Split, PieceText;
    MarksConcat();
    MarksText();
    var last, front := |first| - 1, first[2..|first| - 1];
    assert first[2..] == front + [first[last]];
    assert DropLast(first[2..]) == front + [Cut(first[last])];
    assert Marks([Cut(first[last])]) == {Cut(first[last])};
    SplitKeeps(DropLast(first[2..]), 3);
    ThreeParts(Split(DropLast(first[2..]), 3));
  }

  lemma PlainLoad(first: seq<Piece>)
    requires !TextStartsInt3(first)
    ensures LoadText(first).Some? && Marks(LoadText(first).value) == Marks(first)
  {
    MarksConcat();
    MarksText();
  }

  /**
    The argument of a `Load` that cuts a word: it starts with an `int3`, and its last token is a word that is the name
    of a global without its last character, one that is not among the parameters.
   */
  ghost predicate LoadCuts(c: Context, params: set<Param>, kids: seq<Tree>) {
    && StartsInt3(c, kids)
    && var last := kids[|kids| - 1];
       last.Leaf? && Stray(c.sh, params, Cut(LeafPiece(c, Prior(OpenParen, kids), last.t, CloseParen)))
  }

  // ---------- Stray names in the source ----------

  /** A name that is compared, where the name or the first token of the right side is a uniform without a prefix. */
  predicate RawName(c: Context, prev: Token, n: Symbol, rest: seq<Tree>, after: Token) {
    && rest != [] && LooksAhead(c, prev, n, Head(rest[0]))
    && (c.sh.IsPlain(n)
        || var right := Ahead(rest[1..], after); right.Name? && c.sh.IsPlain(right.name))
  }

  /** A raw comparison, or a texture whose `Load` cuts a word. */
  ghost predicate StrayName(c: Context, params: set<Param>, prev: Token, n: Symbol, rest: seq<Tree>, after: Token) {
    && n !in c.sh.words
    && if c.sh.IsTexture(n) then LoadKids(c, rest).Some? && LoadCuts(c, params, LoadKids(c, rest).value)
       else RawName(c, prev, n, rest, after)
  }

  ghost predicate StrayTree(c: Context, params: set<Param>, prev: Token, tree: Tree, rest: seq<Tree>, after: Token)
    decreases tree
  {
    match tree
    case Leaf(t) => t.Name? && StrayName(c, params, prev, t.name, rest, after)
    case Paren(kids) => StrayIn(c, params, OpenParen, kids, CloseParen)
    case Brace(kids) => StrayIn(c, params, OpenBrace, kids, CloseBrace)
  }

  /** Some name of the region, at any depth, is stray. */
  ghost predicate StrayIn(c: Context, params: set<Param>, prev: Token, trees: seq<Tree>, after: Token)
    decreases trees
  {
    && trees != []
    && (StrayTree(c, params, prev, trees[0], trees[1..], after)
        || StrayIn(c, params, Last(trees[0]), trees[1..], after))
  }

  lemma StrayTreePrior(c: Context, params: set<Param>, s: Token, t: Token, tree: Tree, rest: seq<Tree>, after: Token)
    requires !tree.Leaf? || !tree.t.Name? || (!s.Dot? && !t.Dot?)
    ensures StrayTree(c, params, s, tree, rest, after) == StrayTree(c, params, t, tree, rest, after)
  {
    hide StrayIn, StrayName;
    if tree.Leaf? && tree.t.Name? {
      StrayNamePrior(c, params, s, t, tree.t.name, rest, after);
    }
  }

  lemma StrayNamePrior(c: Context, params: set<Param>, s: Token, t: Token, n: Symbol, rest: seq<Tree>, after: Token)
    requires !s.Dot? && !t.Dot?
    ensures StrayName(c, params, s, n, rest, after) == StrayName(c, params, t, n, rest, after)
  {
    hide LoadKids, LoadCuts, RawName;
    RawNamePrior(c, s, t, n, rest, after);
  }

  lemma RawNamePrior(c: Context, s: Token, t: Token, n: Symbol, rest: seq<Tree>, after: Token)
    requires s.Dot? == t.Dot?
    ensures RawName(c, s, n, rest, after) == RawName(c, t, n, rest, after)
  {
    hide Ahead;
  }

  lemma StrayStep(c: Context, params: set<Param>, prev: Token, trees: seq<Tree>, after: Token)
    requires trees != []
    ensures StrayIn(c, params, prev, trees, after)
         == (StrayTree(c, params, prev, trees[0], trees[1..], after)
             || StrayIn(c, params, Last(trees[0]), trees[1..], after))
  {
    hide StrayTree;
  }

  lemma StrayPrior(c: Context, params: set<Param>, s: Token, t: Token, trees: seq<Tree>, after: Token)
    requires !s.Dot? && !t.Dot?
    ensures StrayIn(c, params, s, trees, after) == StrayIn(c, params, t, trees, after)
  {
    hide StrayTree;
    if trees != [] {
      StrayTreePrior(c, params, s, t, trees[0], trees[1..], after);
    }
  }

  /** Space between the tokens does not matter, except after a dot. */
  lemma {:induction false} StrayDrop(c: Context, params: set<Param>, prev: Token, trees: seq<Tree>, after: Token)
    requires !prev.Dot?
    ensures StrayIn(c, params, prev, trees, after) == StrayIn(c, params, Comma, DropSpace(trees), after)
    decreases trees
  {
    hide StrayIn, Ahead;
    if trees != [] && IsSpace(trees[0]) {
      StrayStep(c, params, prev, trees, after);
      StrayDrop(c, params, trees[0].t, trees[1..], after);
    } else {
      StrayPrior(c, params, prev, Comma, trees, after);
    }
  }

  /** A tree that is not a compared name can be passed over, with the space in front of it. */
  lemma {:induction false} StrayPass(c: Context, params: set<Param>, prev: Token, trees: seq<Tree>, after: Token)
    requires DropSpace(trees) != []
    requires var tree := DropSpace(trees)[0];
             tree.Leaf? && tree.t.Name? ==> DropSpace(trees)[1..] != [] ==> !Head(DropSpace(trees)[1]).Compare?
    ensures StrayIn(c, params, prev, trees, after)
         == (var rest := DropSpace(trees);
             || StrayTree(c, params, Comma, rest[0], rest[1..], after)
             || StrayIn(c, params, Last(rest[0]), rest[1..], after))
    decreases trees
  {
    hide StrayIn, StrayTree, Ahead;
    StrayStep(c, params, prev, trees, after);
    if IsSpace(trees[0]) {
      SpaceIsNotStray(c, params, prev, trees, after);
      StrayDrop(c, params, trees[0].t, trees[1..], after);
      StrayStep(c, params, Comma, DropSpace(trees), after);
    } else {
      UncomparedPrior(c, params, prev, Comma, trees[0], trees[1..], after);
    }
  }

  lemma SpaceIsNotStray(c: Context, params: set<Param>, prev: Token, trees: seq<Tree>, after: Token)
    requires trees != [] && IsSpace(trees[0])
    ensures !StrayTree(c, params, prev, trees[0], trees[1..], after)
    ensures Last(trees[0]) == trees[0].t && !trees[0].t.Dot? && DropSpace(trees) == DropSpace(trees[1..])
  {
  }

  /** The token before a name that is not compared does not matter. */
  lemma UncomparedPrior(c: Context, params: set<Param>, s: Token, t: Token, tree: Tree, rest: seq<Tree>, after: Token)
    requires tree.Leaf? && tree.t.Name? ==> rest != [] ==> !Head(rest[0]).Compare?
    ensures StrayTree(c, params, s, tree, rest, after) == StrayTree(c, params, t, tree, rest, after)
  {
    hide StrayIn, StrayName;
    if tree.Leaf? && tree.t.Name? {
      UncomparedNamePrior(c, params, s, t, tree.t.name, rest, after);
    }
  }

  lemma UncomparedNamePrior(c: Context, params: set<Param>, s: Token, t: Token, n: Symbol, rest: seq<Tree>,
                            after: Token)
    requires rest != [] ==> !Head(rest[0]).Compare?
    ensures StrayName(c, params, s, n, rest, after) == StrayName(c, params, t, n, rest, after)
  {
    hide RawName, LoadKids, LoadCuts;
    UncomparedIsNotRaw(c, s, n, rest, after);
    UncomparedIsNotRaw(c, t, n, rest, after);
  }

  lemma UncomparedIsNotRaw(c: Context, prev: Token, n: Symbol, rest: seq<Tree>, after: Token)
    requires rest != [] ==> !Head(rest[0]).Compare?
    ensures !RawName(c, prev, n, rest, after)
  {
    hide Ahead;
  }

  /** A region's stray names are those before and after a top-level comma. */
  lemma {:induction false} StrayCut(c: Context, params: set<Param>, prev: Token, a: seq<Tree>, b: seq<Tree>,
                                    after: Token)
    ensures StrayIn(c, params, prev, a + [Leaf(Comma)] + b, after)
         == (StrayIn(c, params, prev, a, Comma) || StrayIn(c, params, Comma, b, after))
    decreases a
  {
    var all := a + [Leaf(Comma)] + b;
    if a == [] {
      assert all[0] == Leaf(Comma) && all[1..] == b;
    } else {
      assert all[0] == a[0] && all[1..] == a[1..] + [Leaf(Comma)] + b;
      StrayCut(c, params, Last(a[0]), a[1..], b, after);
      StrayTreeCut(c, params, prev, a[0], a[1..], b, after);
    }
  }

  lemma StrayTreeCut(c: Context, params: set<Param>, prev: Token, tree: Tree, a: seq<Tree>, b: seq<Tree>, after: Token)
    ensures StrayTree(c, params, prev, tree, a + [Leaf(Comma)] + b, after) == StrayTree(c, params, prev, tree, a, Comma)
  {
    hide StrayIn, RawName, LoadKids, LoadCuts;
    LoadKidsCut(c, a, b);
    if tree.Leaf? && tree.t.Name? {
      RawNameCut(c, prev, tree.t.name, a, b, after);
    }
  }

  lemma RawNameCut(c: Context, prev: Token, n: Symbol, a: seq<Tree>, b: seq<Tree>, after: Token)
    ensures RawName(c, prev, n, a + [Leaf(Comma)] + b, after) == RawName(c, prev, n, a, Comma)
  {
    hide Ahead;
    var all := a + [Leaf(Comma)] + b;
    if a == [] {
      assert all[0] == Leaf(Comma);
    } else {
      assert all[0] == a[0] && all[1..] == a[1..] + [Leaf(Comma)] + b;
      AheadCut(a[1..], b, after);
    }
  }

  lemma StrayComma(c: Context, params: set<Param>, prev: Token, kids: seq<Tree>, after: Token)
    requires TopCommas(kids) > 0
    ensures StrayIn(c, params, prev, kids, after)
         == (StrayIn(c, params, prev, BeforeComma(kids), Comma) || StrayIn(c, params, Comma, AfterComma(kids), after))
  {
    StrayCut(c, params, prev, BeforeComma(kids), AfterComma(kids), after);
  }
}
