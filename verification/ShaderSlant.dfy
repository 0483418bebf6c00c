/**
  What makes the brackets of emitted text differ from those of the source: a comparison repeats the first token of its
  right side, even a bracket, and a `Load` cuts the last character of its argument, even if it is not the closing
  parenthesis.
 */
module ShaderSlant {
  import opened Brackets
  import opened ShaderAnalysis
  import opened ShaderEmit
  import opened ShaderEnds
  import opened ShaderScan
  import opened ShaderSyntax
  import opened ShaderText
  import opened Wrappers

  /** How often each of these happens in a region. */
  datatype Tally = Tally(opens: nat, opensBrace: nat, closes: nat, closesBrace: nat, commas: nat, lost: nat,
                         lostBrace: nat)
  {
    function Plus(t: Tally): Tally {
      Tally(opens + t.opens, opensBrace + t.opensBrace, closes + t.closes, closesBrace + t.closesBrace,
            commas + t.commas, lost + t.lost, lostBrace + t.lostBrace)
    }

    /** The brackets of a kind that are too many. */
    function Excess(kind: Kind): int {
      match kind
      case Parens => opens - closes - lost - lostBrace
      case Braces => opensBrace - closesBrace + lostBrace
    }

    /** Nothing adds or loses a bracket. */
    predicate Clear() {
      opens == opensBrace == closes == closesBrace == lost == lostBrace == 0
    }
  }

  const NONE := Tally(0, 0, 0, 0, 0, 0, 0)

  /** A comparison is emitted with this token once more. */
  function RightTally(t: Token): Tally {
    match t
    case OpenParen => NONE.(opens := 1)
    case OpenBrace => NONE.(opensBrace := 1)
    case CloseParen => NONE.(closes := 1)
    case CloseBrace => NONE.(closesBrace := 1)
    case Comma => NONE.(commas := 1)
    case _ => NONE
  }

  /** A `Load` with an `int3` needs a closing parenthesis at the end of its argument. */
  function LoadTally(c: Context, kids: seq<Tree>): Tally {
    if !StartsInt3(c, kids) then NONE
    else
      match kids[|kids| - 1]
      case Leaf(_) => NONE.(lost := 1)
      case Paren(_) => NONE
      case Brace(_) => NONE.(lostBrace := 1)
  }

  function NameSlant(c: Context, prev: Token, n: Symbol, rest: seq<Tree>, after: Token): Tally {
    if n in c.sh.words then NONE
    else if c.sh.IsTexture(n) then if LoadKids(c, rest).Some? then LoadTally(c, LoadKids(c, rest).value) else NONE
    else if rest != [] && LooksAhead(c, prev, n, Head(rest[0])) then RightTally(Ahead(rest[1..], after))
    else NONE
  }

  function TreeSlant(c: Context, prev: Token, tree: Tree, rest: seq<Tree>, after: Token): Tally
    decreases tree
  {
    match tree
    case Leaf(t) => if t.Name? then NameSlant(c, prev, t.name, rest, after) else NONE
    case Paren(kids) => Slant(c, OpenParen, kids, CloseParen)
    case Brace(kids) => Slant(c, OpenBrace, kids, CloseBrace)
  }

  /** The tally of a region, at any depth. */
  function Slant(c: Context, prev: Token, trees: seq<Tree>, after: Token): Tally
    decreases trees
  {
    if trees == [] then NONE
    else TreeSlant(c, prev, trees[0], trees[1..], after).Plus(Slant(c, Last(trees[0]), trees[1..], after))
  }

  lemma SlantStep(c: Context, prev: Token, trees: seq<Tree>, after: Token)
    requires trees != []
    ensures Slant(c, prev, trees, after)
         == TreeSlant(c, prev, trees[0], trees[1..], after).Plus(Slant(c, Last(trees[0]), trees[1..], after))
  {
    hide TreeSlant;
  }

  lemma NothingSlants(c: Context, prev: Token, after: Token)
    ensures Slant(c, prev, [], after) == NONE
  {
  }

  /** A tree other than a compared name is the same after any token; a leaf that is no call adds nothing. */
  lemma Uncompared(c: Context, s: Token, t: Token, tree: Tree, rest: seq<Tree>, after: Token)
    requires tree.Leaf? && tree.t.Name? ==> rest == [] || !Head(rest[0]).Compare? || s.Dot? == t.Dot?
    ensures TreeSlant(c, s, tree, rest, after) == TreeSlant(c, t, tree, rest, after)
    ensures tree.Leaf? && (tree.t.Name? ==> (rest == [] || !Head(rest[0]).Compare?) && LoadKids(c, rest).None?) ==>
              TreeSlant(c, s, tree, rest, after) == NONE
  {
    hide Slant, Ahead, LoadTally, LoadKids, RightTally;
  }

  /** Space between the tokens does not matter, except after a dot. */
  lemma {:induction false} SlantDrop(c: Context, prev: Token, trees: seq<Tree>, after: Token)
    requires !prev.Dot?
    ensures Slant(c, prev, trees, after) == Slant(c, Comma, DropSpace(trees), after)
    decreases trees
  {
    hide Slant, TreeSlant;
    if trees == [] {
      NothingSlants(c, prev, after);
      NothingSlants(c, Comma, after);
    } else {
      SlantStep(c, prev, trees, after);
      if IsSpace(trees[0]) {
        Uncompared(c, prev, prev, trees[0], trees[1..], after);
        SlantDrop(c, trees[0].t, trees[1..], after);
      } else {
        SlantStep(c, Comma, trees, after);
        Uncompared(c, prev, Comma, trees[0], trees[1..], after);
      }
    }
  }

  /** A tree that is not a compared name can be passed over, with the space in front of it. */
  lemma SlantPass(c: Context, prev: Token, trees: seq<Tree>, after: Token)
    requires DropSpace(trees) != []
    requires var tree, rest := DropSpace(trees)[0], DropSpace(trees)[1..];
             tree.Leaf? && tree.t.Name? ==> (rest == [] || !Head(rest[0]).Compare?) && LoadKids(c, rest).None?
    ensures var tree, rest := DropSpace(trees)[0], DropSpace(trees)[1..];
            Slant(c, prev, trees, after)
            == (if tree.Leaf? then NONE else TreeSlant(c, Comma, tree, rest, after))
                .Plus(Slant(c, Last(tree), rest, after))
  {
    hide Slant, TreeSlant, LoadKids;
    SlantStep(c, prev, trees, after);
    var tree, rest := DropSpace(trees)[0], DropSpace(trees)[1..];
    Uncompared(c, prev, Comma, tree, rest, after);
    if IsSpace(trees[0]) {
      Uncompared(c, prev, prev, trees[0], trees[1..], after);
      SlantDrop(c, trees[0].t, trees[1..], after);
      SlantStep(c, Comma, DropSpace(trees), after);
      Uncompared(c, Comma, Comma, tree, rest, after);
    }
  }

  lemma SlantGroup(c: Context, prev: Token, trees: seq<Tree>, after: Token)
    requires NextGroup(trees).Some?
    ensures var g := NextGroup(trees).value;
            Slant(c, prev, trees, after)
            == Slant(c, OpenParen, g.kids, CloseParen).Plus(Slant(c, CloseParen, g.rest, after))
  {
    hide Slant;
    SlantPass(c, prev, trees, after);
  }

  lemma {:induction false} SlantAtComma(c: Context, prev: Token, a: seq<Tree>, b: seq<Tree>, after: Token)
    ensures Slant(c, prev, a + [Leaf(Comma)] + b, after) == Slant(c, prev, a, Comma).Plus(Slant(c, Comma, b, after))
    decreases a
  {
    hide Slant, TreeSlant;
    var all := a + [Leaf(Comma)] + b;
    SlantStep(c, prev, all, after);
    if a == [] {
      assert all[0] == Leaf(Comma) && all[1..] == b;
      Uncompared(c, prev, prev, all[0], b, after);
      NothingSlants(c, prev, Comma);
    } else {
      assert all[0] == a[0] && all[1..] == a[1..] + [Leaf(Comma)] + b;
      SlantStep(c, prev, a, Comma);
      SlantAtComma(c, Last(a[0]), a[1..], b, after);
      TreeSlantBefore(c, prev, a[0], a[1..], b, after);
    }
  }

  lemma TreeSlantBefore(c: Context, prev: Token, tree: Tree, a: seq<Tree>, b: seq<Tree>, after: Token)
    ensures TreeSlant(c, prev, tree, a + [Leaf(Comma)] + b, after) == TreeSlant(c, prev, tree, a, Comma)
  {
    hide Slant, NameSlant;
    if tree.Leaf? && tree.t.Name? {
      NameSlantBefore(c, prev, tree.t.name, a, b, after);
    }
  }

  lemma NameSlantBefore(c: Context, prev: Token, n: Symbol, a: seq<Tree>, b: seq<Tree>, after: Token)
    ensures NameSlant(c, prev, n, a + [Leaf(Comma)] + b, after) == NameSlant(c, prev, n, a, Comma)
  {
    hide Ahead, LoadKids, LoadTally, RightTally;
    var all := a + [Leaf(Comma)] + b;
    LoadKidsCut(c, a, b);
    if a == [] {
      assert all[0] == Leaf(Comma);
    } else {
      assert all[0] == a[0] && all[1..] == a[1..] + [Leaf(Comma)] + b;
      AheadCut(a[1..], b, after);
    }
  }

  lemma SlantParts(c: Context, prev: Token, kids: seq<Tree>, after: Token)
    requires TopCommas(kids) > 0
    ensures Slant(c, prev, kids, after)
         == Slant(c, prev, BeforeComma(kids), Comma).Plus(Slant(c, Comma, AfterComma(kids), after))
  {
    hide Slant;
    SlantAtComma(c, prev, BeforeComma(kids), AfterComma(kids), after);
  }

  // ---------- Tokens without brackets ----------

  /** Text without brackets, and without commas. */
  predicate Bare(text: string) {
    Free(text) && CommaFree(text) && text != ""
  }

  predicate PlainLeaf(t: Token) {
    Free(Str(t)) && (t == Comma || CommaFree(Str(t))) && Str(t) != ""
  }

  /** Brackets and commas are tokens of their own, as a lexer makes them. */
  ghost predicate Lexed(trees: seq<Tree>) {
    forall tree | tree in trees :: LexedTree(tree)
  }

  ghost predicate LexedTree(tree: Tree) {
    match tree
    case Leaf(t) => PlainLeaf(t)
    case Paren(kids) => forall k | k in kids :: LexedTree(k)
    case Brace(kids) => forall k | k in kids :: LexedTree(k)
  }

  /** Names of the shader and of the language, too, hold no brackets and commas. */
  ghost predicate PlainNames(c: Context) {
    && (forall n | n in c.sh.words && c.sh.words[n].Rewritten? :: Bare(c.sh.words[n].text))
    && (forall n | n in c.sh.order || n in c.sh.samplers :: Bare(n.text))
  }

  lemma LexedHead(trees: seq<Tree>)
    requires Lexed(trees) && trees != []
    ensures LexedTree(trees[0]) && Lexed(trees[1..])
    ensures !trees[0].Leaf? ==> Lexed(trees[0].kids) && SizeTree(trees[0]) == 2 + Size(trees[0].kids)
  {
    assert LexedTree(trees[0]);
  }

  lemma LexedDrop(trees: seq<Tree>)
    requires Lexed(trees)
    ensures Lexed(DropSpace(trees)) && (DropSpace(trees) != [] ==> Lexed(DropSpace(trees)[1..]))
  {
    DropSpaceWithin(trees);
  }

  lemma LexedGroup(trees: seq<Tree>)
    requires Lexed(trees) && NextGroup(trees).Some?
    ensures Lexed(NextGroup(trees).value.kids) && Lexed(NextGroup(trees).value.rest)
  {
    hide Lexed;
    LexedDrop(trees);
    LexedHead(DropSpace(trees));
  }

  lemma LexedParts(kids: seq<Tree>)
    requires Lexed(kids) && TopCommas(kids) > 0
    ensures Lexed(BeforeComma(kids)) && Lexed(AfterComma(kids))
  {
    assert Within(BeforeComma(kids), kids);
    assert Within(AfterComma(kids), kids);
  }
}
