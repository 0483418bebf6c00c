/**
  The names that are emitted another number of times than they are written: a `Load` can cut the last name of its
  argument, and a comparison repeats the name on its right side, which follows once more by itself.
 */
module ShaderTallies {
  import opened ShaderAnalysis
  import opened ShaderEmit
  import opened ShaderEnds
  import opened ShaderScan
  import opened ShaderSyntax
  import opened Wrappers

  /** A name that keeps its text: neither rewritten, nor a method of textures, nor a struct, nor `int3`. */
  predicate Counts(c: Context, n: Symbol) {
    n !in c.sh.words && n !in c.sh.methods && n !in c.sh.paired && n != INT3 && n.text != ""
  }

  function One(c: Context, n: Symbol): seq<Symbol> {
    if Counts(c, n) then [n] else []
  }

  /** The name of a token. */
  function Named(c: Context, t: Token): seq<Symbol> {
    if t.Name? then One(c, t.name) else []
  }

  /** The names in the text of a piece; a comparison has those of both sides. */
  function PieceTrail(c: Context, piece: Piece): seq<Symbol> {
    match piece
    case Uniform(n) => One(c, n)
    case Texture(n) => One(c, n)
    case Ident(n) => One(c, n)
    case Member(n) => One(c, n)
    case Compared(n, _, right) => One(c, n) + Named(c, right)
    case _ => []
  }

  // ---------- Names that are cut ----------

  /** A `Load` with this argument cuts its last name. */
  predicate CutsName(c: Context, kids: seq<Tree>) {
    && StartsInt3(c, kids)
    && var last := kids[|kids| - 1];
       last.Leaf? && PieceTrail(c, LeafPiece(c, Prior(OpenParen, kids), last.t, CloseParen)) != []
  }

  function NameCuts(c: Context, n: Symbol, rest: seq<Tree>): nat {
    if n in c.sh.words || !c.sh.IsTexture(n) || LoadKids(c, rest).None? then 0
    else if CutsName(c, LoadKids(c, rest).value) then 1
    else 0
  }

  function TreeCuts(c: Context, tree: Tree, rest: seq<Tree>): nat
    decreases tree
  {
    match tree
    case Leaf(t) => if t.Name? then NameCuts(c, t.name, rest) else 0
    case Paren(kids) => Cuts(c, kids)
    case Brace(kids) => Cuts(c, kids)
  }

  /** The number of names of the region that a `Load` cuts. */
  function Cuts(c: Context, trees: seq<Tree>): nat
    decreases trees
  {
    if trees == [] then 0 else TreeCuts(c, trees[0], trees[1..]) + Cuts(c, trees[1..])
  }

  lemma CutsStep(c: Context, trees: seq<Tree>)
    requires trees != []
    ensures Cuts(c, trees) == TreeCuts(c, trees[0], trees[1..]) + Cuts(c, trees[1..])
  {
    hide TreeCuts;
  }

  lemma {:induction false} CutsDrop(c: Context, trees: seq<Tree>)
    ensures Cuts(c, trees) == Cuts(c, DropSpace(trees))
    decreases trees
  {
    hide Cuts;
    if trees != [] && IsSpace(trees[0]) {
      CutsStep(c, trees);
      CutsDrop(c, trees[1..]);
    }
  }

  lemma CutsGroup(c: Context, trees: seq<Tree>)
    requires NextGroup(trees).Some?
    ensures Cuts(c, trees) == Cuts(c, NextGroup(trees).value.kids) + Cuts(c, NextGroup(trees).value.rest)
  {
    hide Cuts;
    CutsDrop(c, trees);
    CutsStep(c, DropSpace(trees));
  }

  lemma {:induction false} CutsAtComma(c: Context, a: seq<Tree>, b: seq<Tree>)
    ensures Cuts(c, a + [Leaf(Comma)] + b) == Cuts(c, a) + Cuts(c, b)
    decreases a
  {
    hide Cuts, NameCuts;
    var all := a + [Leaf(Comma)] + b;
    CutsStep(c, all);
    if a == [] {
      assert all[0] == Leaf(Comma) && all[1..] == b;
      NoCuts(c);
    } else {
      assert all[0] == a[0] && all[1..] == a[1..] + [Leaf(Comma)] + b;
      CutsStep(c, a);
      CutsAtComma(c, a[1..], b);
      if a[0].Leaf? && a[0].t.Name? {
        NameCutsBefore(c, a[0].t.name, a[1..], b);
      }
    }
  }

  lemma NoCuts(c: Context)
    ensures Cuts(c, []) == 0
  {
  }

  lemma NameCutsBefore(c: Context, n: Symbol, a: seq<Tree>, b: seq<Tree>)
    ensures NameCuts(c, n, a + [Leaf(Comma)] + b) == NameCuts(c, n, a)
  {
    hide LoadKids, CutsName;
    LoadKidsCut(c, a, b);
  }

  lemma CutsParts(c: Context, kids: seq<Tree>)
    requires TopCommas(kids) > 0
    ensures Cuts(c, kids) == Cuts(c, BeforeComma(kids)) + Cuts(c, AfterComma(kids))
  {
    hide Cuts;
    CutsAtComma(c, BeforeComma(kids), AfterComma(kids));
  }

  // ---------- Names that are repeated ----------

  /** A comparison is emitted with the first token of its right side. */
  function NameEcho(c: Context, prev: Token, n: Symbol, rest: seq<Tree>, after: Token): seq<Symbol> {
    if n in c.sh.words || c.sh.IsTexture(n) || rest == [] || !LooksAhead(c, prev, n, Head(rest[0])) then []
    else Named(c, Ahead(rest[1..], after))
  }

  function TreeEchoes(c: Context, prev: Token, tree: Tree, rest: seq<Tree>, after: Token): nat
    decreases tree
  {
    match tree
    case Leaf(t) => if t.Name? then |NameEcho(c, prev, t.name, rest, after)| else 0
    case Paren(kids) => Echoes(c, OpenParen, kids, CloseParen)
    case Brace(kids) => Echoes(c, OpenBrace, kids, CloseBrace)
  }

  /** The number of comparisons of the region, at any depth, whose right side starts with a name. */
  function Echoes(c: Context, prev: Token, trees: seq<Tree>, after: Token): nat
    decreases trees
  {
    if trees == [] then 0
    else TreeEchoes(c, prev, trees[0], trees[1..], after) + Echoes(c, Last(trees[0]), trees[1..], after)
  }

  function TreeTold(c: Context, prev: Token, tree: Tree, rest: seq<Tree>, after: Token): seq<Symbol>
    decreases tree
  {
    match tree
    case Leaf(t) => if t.Name? then One(c, t.name) + NameEcho(c, prev, t.name, rest, after) else []
    case Paren(kids) => Told(c, OpenParen, kids, CloseParen)
    case Brace(kids) => Told(c, OpenBrace, kids, CloseBrace)
  }

  /** The names of the region in their order, a compared one followed by the name that its comparison repeats. */
  function Told(c: Context, prev: Token, trees: seq<Tree>, after: Token): seq<Symbol>
    decreases trees
  {
    if trees == [] then []
    else TreeTold(c, prev, trees[0], trees[1..], after) + Told(c, Last(trees[0]), trees[1..], after)
  }

  lemma EchoesStep(c: Context, prev: Token, trees: seq<Tree>, after: Token)
    requires trees != []
    ensures Echoes(c, prev, trees, after)
         == TreeEchoes(c, prev, trees[0], trees[1..], after) + Echoes(c, Last(trees[0]), trees[1..], after)
  {
    hide TreeEchoes;
  }

  lemma ToldStep(c: Context, prev: Token, trees: seq<Tree>, after: Token)
    requires trees != []
    ensures Told(c, prev, trees, after)
         == TreeTold(c, prev, trees[0], trees[1..], after) + Told(c, Last(trees[0]), trees[1..], after)
  {
    hide TreeTold;
  }

  lemma NoEchoes(c: Context, prev: Token, after: Token)
    ensures Echoes(c, prev, [], after) == 0
  {
  }

  lemma NothingTold(c: Context, prev: Token, after: Token)
    ensures Told(c, prev, [], after) == []
  {
  }

  /** A tree other than a compared name is the same after any token. */
  lemma UncomparedTold(c: Context, s: Token, t: Token, tree: Tree, rest: seq<Tree>, after: Token)
    requires tree.Leaf? && tree.t.Name? ==> rest == [] || !Head(rest[0]).Compare? || s.Dot? == t.Dot?
    ensures TreeTold(c, s, tree, rest, after) == TreeTold(c, t, tree, rest, after)
    ensures tree.Leaf? && (!tree.t.Name? || rest == [] || !Head(rest[0]).Compare?) ==>
              TreeTold(c, s, tree, rest, after) == Named(c, tree.t)
  {
    hide Told, Ahead, One;
  }

  /** Space between the tokens does not matter, except after a dot. */
  lemma {:induction false} ToldDrop(c: Context, prev: Token, trees: seq<Tree>, after: Token)
    requires !prev.Dot?
    ensures Told(c, prev, trees, after) == Told(c, Comma, DropSpace(trees), after)
    decreases trees
  {
    hide Told, TreeTold;
    if trees == [] {
      NothingTold(c, prev, after);
      NothingTold(c, Comma, after);
    } else {
      ToldStep(c, prev, trees, after);
      if IsSpace(trees[0]) {
        UncomparedTold(c, prev, prev, trees[0], trees[1..], after);
        ToldDrop(c, trees[0].t, trees[1..], after);
      } else {
        ToldStep(c, Comma, trees, after);
        UncomparedTold(c, prev, Comma, trees[0], trees[1..], after);
      }
    }
  }

  /** A tree that is not a compared name can be passed over, with the space in front of it. */
  lemma ToldPass(c: Context, prev: Token, trees: seq<Tree>, after: Token)
    requires DropSpace(trees) != []
    requires var tree, rest := DropSpace(trees)[0], DropSpace(trees)[1..];
             tree.Leaf? && tree.t.Name? ==> rest == [] || !Head(rest[0]).Compare?
    ensures var tree, rest := DropSpace(trees)[0], DropSpace(trees)[1..];
            Told(c, prev, trees, after)
            == (if tree.Leaf? then Named(c, tree.t) else TreeTold(c, Comma, tree, rest, after))
               + Told(c, Last(tree), rest, after)
  {
    hide Told, TreeTold;
    ToldStep(c, prev, trees, after);
    var tree, rest := DropSpace(trees)[0], DropSpace(trees)[1..];
    UncomparedTold(c, prev, Comma, tree, rest, after);
    if IsSpace(trees[0]) {
      UncomparedTold(c, prev, prev, trees[0], trees[1..], after);
      ToldDrop(c, trees[0].t, trees[1..], after);
      ToldStep(c, Comma, DropSpace(trees), after);
    }
  }

  lemma ToldGroup(c: Context, prev: Token, trees: seq<Tree>, after: Token)
    requires NextGroup(trees).Some?
    ensures var g := NextGroup(trees).value;
            Told(c, prev, trees, after) == Told(c, OpenParen, g.kids, CloseParen) + Told(c, CloseParen, g.rest, after)
  {
    hide Told;
    ToldPass(c, prev, trees, after);
  }

  lemma {:induction false} ToldAtComma(c: Context, prev: Token, a: seq<Tree>, b: seq<Tree>, after: Token)
    ensures Told(c, prev, a + [Leaf(Comma)] + b, after) == Told(c, prev, a, Comma) + Told(c, Comma, b, after)
    decreases a
  {
    hide Told, NameEcho;
    var all := a + [Leaf(Comma)] + b;
    ToldStep(c, prev, all, after);
    if a == [] {
      assert all[0] == Leaf(Comma) && all[1..] == b;
      NothingTold(c, prev, Comma);
    } else {
      assert all[0] == a[0] && all[1..] == a[1..] + [Leaf(Comma)] + b;
      ToldStep(c, prev, a, Comma);
      ToldAtComma(c, Last(a[0]), a[1..], b, after);
      if a[0].Leaf? && a[0].t.Name? {
        NameEchoBefore(c, prev, a[0].t.name, a[1..], b, after);
      }
    }
  }

  lemma NameEchoBefore(c: Context, prev: Token, n: Symbol, a: seq<Tree>, b: seq<Tree>, after: Token)
    ensures NameEcho(c, prev, n, a + [Leaf(Comma)] + b, after) == NameEcho(c, prev, n, a, Comma)
  {
    hide Ahead, Named;
    var all := a + [Leaf(Comma)] + b;
    if a == [] {
      assert all[0] == Leaf(Comma);
    } else {
      assert all[0] == a[0] && all[1..] == a[1..] + [Leaf(Comma)] + b;
      AheadCut(a[1..], b, after);
    }
  }

  lemma ToldParts(c: Context, prev: Token, kids: seq<Tree>, after: Token)
    requires TopCommas(kids) > 0
    ensures Told(c, prev, kids, after)
         == Told(c, prev, BeforeComma(kids), Comma) + Told(c, Comma, AfterComma(kids), after)
  {
    hide Told;
    ToldAtComma(c, prev, BeforeComma(kids), AfterComma(kids), after);
  }
}
