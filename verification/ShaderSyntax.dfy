/** The tokens of a shader file, its bracket structure, and how a cursor moves over it. */
module ShaderSyntax {
  import opened Wrappers

  /** An identifier. */
  datatype Symbol = Symbol(text: string)

  datatype Token =
    | Name(name: Symbol)
    | OpenParen | CloseParen | OpenBrace | CloseBrace | Comma | Dot
    | Compare(op: string)   // == != < <= >= >
    | Plain(text: string)   // any other visible token
    | Space(text: string)   // blanks and line ends
    | End                   // after the last token

  /** The text of a token. */
  function Str(t: Token): string {
    match t
    case Name(name) => name.text
    case OpenParen => "("
    case CloseParen => ")"
    case OpenBrace => "{"
    case CloseBrace => "}"
    case Comma => ","
    case Dot => "."
    case Compare(op) => op
    case Plain(text) => text
    case Space(text) => text
    case End => ""
  }

  predicate IsBracket(t: Token) {
    t.OpenParen? || t.CloseParen? || t.OpenBrace? || t.CloseBrace?
  }

  /** A token stream ends with its only end token. */
  ghost predicate Stream(ts: seq<Token>) {
    |ts| > 0 && forall i | 0 <= i < |ts| :: ts[i].End? <==> i == |ts| - 1
  }

  /** The first position at or after `p` that holds no space. */
  function SkipSpace(ts: seq<Token>, p: nat): (q: nat)
    requires Stream(ts) && p < |ts|
    ensures p <= q < |ts| && !ts[q].Space?
    decreases |ts| - p
  {
    if ts[p].Space? then SkipSpace(ts, p + 1) else p
  }

  /** `cf_next_token`: the next position without a space; the end token is never passed. */
  function NextToken(ts: seq<Token>, p: nat): (q: nat)
    requires Stream(ts) && p < |ts|
    ensures p <= q < |ts| && !ts[q].Space?
    ensures !ts[p].Space? && !ts[p].End? ==> p < q
  {
    if ts[p].Space? || ts[p].End? then SkipSpace(ts, p) else SkipSpace(ts, p + 1)
  }

  lemma {:induction false} SkipsSpaceOnly(ts: seq<Token>, p: nat)
    requires Stream(ts) && p < |ts|
    ensures forall k | p <= k < SkipSpace(ts, p) :: ts[k].Space?
    decreases |ts| - p
  {
    if ts[p].Space? {
      SkipsSpaceOnly(ts, p + 1);
    }
  }

  /** The next token is the first visible one behind the cursor; only at the end the cursor stays. */
  lemma NextIsVisible(ts: seq<Token>, p: nat, q: nat)
    requires Stream(ts) && p < |ts|
    ensures q == NextToken(ts, p)
       <==> if ts[p].End? then q == p
            else p < q < |ts| && !ts[q].Space? && forall k | p < k < q :: ts[k].Space?
  {
    SkipsSpaceOnly(ts, if ts[p].Space? || ts[p].End? then p else p + 1);
  }

  // ---------- Brackets ----------

  /** A balanced stretch of tokens is a list of these; leaves are neither brackets nor the end. */
  datatype Tree = Leaf(t: Token) | Paren(kids: seq<Tree>) | Brace(kids: seq<Tree>)

  ghost predicate Proper(trees: seq<Tree>) {
    forall tree | tree in trees :: ProperTree(tree)
  }

  ghost predicate ProperTree(tree: Tree) {
    match tree
    case Leaf(t) => !IsBracket(t) && !t.End?
    case Paren(kids) => forall k | k in kids :: ProperTree(k)
    case Brace(kids) => forall k | k in kids :: ProperTree(k)
  }

  /** The number of tokens. */
  function Size(trees: seq<Tree>): nat {
    if trees == [] then 0 else SizeTree(trees[0]) + Size(trees[1..])
  }

  function SizeTree(tree: Tree): (n: nat)
    ensures n > 0
  {
    match tree
    case Leaf(_) => 1
    case Paren(kids) => 2 + Size(kids)
    case Brace(kids) => 2 + Size(kids)
  }

  function Flat(trees: seq<Tree>): (ts: seq<Token>)
    ensures |ts| == Size(trees)
  {
    if trees == [] then [] else FlatTree(trees[0]) + Flat(trees[1..])
  }

  function FlatTree(tree: Tree): (ts: seq<Token>)
    ensures |ts| == SizeTree(tree) && ts[0] == Head(tree)
  {
    match tree
    case Leaf(t) => [t]
    case Paren(kids) => [OpenParen] + Flat(kids) + [CloseParen]
    case Brace(kids) => [OpenBrace] + Flat(kids) + [CloseBrace]
  }

  /** The first token of a tree. */
  function Head(tree: Tree): Token {
    match tree
    case Leaf(t) => t
    case Paren(_) => OpenParen
    case Brace(_) => OpenBrace
  }

  predicate IsSpace(tree: Tree) {
    tree.Leaf? && tree.t.Space?
  }

  /** The trees from the first one on that is not a space. */
  function DropSpace(trees: seq<Tree>): (rest: seq<Tree>)
    ensures |rest| <= |trees|
    ensures rest != [] ==> !IsSpace(rest[0])
    ensures Size(trees) == Size(rest) + |trees| - |rest|
  {
    if trees != [] && IsSpace(trees[0]) then DropSpace(trees[1..]) else trees
  }

  lemma {:induction false} DropSpaceWithin(trees: seq<Tree>)
    ensures forall t | t in DropSpace(trees) :: t in trees
  {
    if trees != [] && IsSpace(trees[0]) {
      DropSpaceWithin(trees[1..]);
    }
  }

  predicate IsComma(tree: Tree) {
    tree == Leaf(Comma)
  }

  /** The number of commas that are not inside brackets. */
  function TopCommas(trees: seq<Tree>): nat {
    if trees == [] then 0 else (if IsComma(trees[0]) then 1 else 0) + TopCommas(trees[1..])
  }

  /** The trees before the first top-level comma. */
  function BeforeComma(trees: seq<Tree>): (a: seq<Tree>)
    requires TopCommas(trees) > 0
    ensures |a| < |trees| && a == trees[..|a|] && IsComma(trees[|a|])
    ensures forall k | 0 <= k < |a| :: !IsComma(a[k])
  {
    if IsComma(trees[0]) then [] else [trees[0]] + BeforeComma(trees[1..])
  }

  /** The trees after the first top-level comma. */
  function AfterComma(trees: seq<Tree>): (b: seq<Tree>)
    requires TopCommas(trees) > 0
    ensures trees == BeforeComma(trees) + [Leaf(Comma)] + b
    ensures TopCommas(b) == TopCommas(trees) - 1
    ensures Size(trees) == Size(BeforeComma(trees)) + 1 + Size(b)
  {
    if IsComma(trees[0]) then trees[1..] else AfterComma(trees[1..])
  }

  lemma {:induction false} FlatAppend(a: seq<Tree>, b: seq<Tree>)
    ensures Flat(a + b) == Flat(a) + Flat(b)
  {
    if a == [] {
      assert a + b == b;
    } else {
      assert (a + b)[1..] == a[1..] + b;
      FlatAppend(a[1..], b);
    }
  }

  datatype Group = Group(kids: seq<Tree>, rest: seq<Tree>)

  /** The parenthesis that the next visible token opens, and what follows it. */
  function NextGroup(trees: seq<Tree>): (g: Option<Group>)
    ensures g.Some? ==> Size(g.value.kids) + Size(g.value.rest) + 2 <= Size(trees)
  {
    var a := DropSpace(trees);
    if a != [] && a[0].Paren? then
      assert SizeTree(a[0]) == 2 + Size(a[0].kids);
      Some(Group(a[0].kids, a[1..])) else None
  }

  /** A token that ends a region: a comma or a closing bracket. */
  predicate Closing(t: Token) {
    t == Comma || t == CloseParen || t == CloseBrace
  }

  /** The tokens from `p` on are those of these trees, and `after` follows. */
  ghost predicate Region(ts: seq<Token>, p: nat, trees: seq<Tree>, after: Token)
    decreases trees
  {
    if trees == [] then p < |ts| && ts[p] == after
    else RegionTree(ts, p, trees[0]) && Region(ts, p + SizeTree(trees[0]), trees[1..], after)
  }

  ghost predicate RegionTree(ts: seq<Token>, p: nat, tree: Tree)
    decreases tree
  {
    && p < |ts| && ts[p] == Head(tree)
    && match tree
       case Leaf(_) => true
       case Paren(kids) => Region(ts, p + 1, kids, CloseParen)
       case Brace(kids) => Region(ts, p + 1, kids, CloseBrace)
  }

  /** A region takes as many tokens as its trees have. */
  lemma {:induction false} RegionEnds(ts: seq<Token>, p: nat, trees: seq<Tree>, after: Token)
    requires Region(ts, p, trees, after)
    ensures p + Size(trees) < |ts| && ts[p + Size(trees)] == after
    decreases trees
  {
    if trees != [] {
      RegionEnds(ts, p + SizeTree(trees[0]), trees[1..], after);
    }
  }

  /** A region is a stretch of the stream. */
  lemma {:induction false} RegionIsStretch(ts: seq<Token>, p: nat, trees: seq<Tree>, after: Token)
    requires p + Size(trees) < |ts|
    ensures Region(ts, p, trees, after) <==> ts[p..p + Size(trees)] == Flat(trees) && ts[p + Size(trees)] == after
    decreases trees
  {
    if trees != [] {
      var q := p + SizeTree(trees[0]);
      RegionIsStretch(ts, q, trees[1..], after);
      TreeIsStretch(ts, p, trees[0]);
      Joined(ts, p, q, p + Size(trees), FlatTree(trees[0]), Flat(trees[1..]));
    }
  }

  lemma {:induction false} TreeIsStretch(ts: seq<Token>, p: nat, tree: Tree)
    requires p + SizeTree(tree) <= |ts|
    ensures RegionTree(ts, p, tree) <==> ts[p..p + SizeTree(tree)] == FlatTree(tree)
    decreases tree
  {
    hide Region, Flat, Size;
    var end := p + SizeTree(tree);
    match tree
    case Leaf(t) => assert ts[p..end] == [ts[p]];
    case Paren(kids) =>
      RegionIsStretch(ts, p + 1, kids, CloseParen);
      Enclosed(ts, p, end, OpenParen, Flat(kids), CloseParen);
    case Brace(kids) =>
      RegionIsStretch(ts, p + 1, kids, CloseBrace);
      Enclosed(ts, p, end, OpenBrace, Flat(kids), CloseBrace);
  }

  lemma Joined(ts: seq<Token>, p: nat, q: nat, r: nat, a: seq<Token>, b: seq<Token>)
    requires p <= q <= r <= |ts| && |a| == q - p && |b| == r - q
    ensures ts[p..r] == a + b <==> ts[p..q] == a && ts[q..r] == b
  {
    assert ts[p..r] == ts[p..q] + ts[q..r];
    if ts[p..r] == a + b {
      assert ts[p..q] == ts[p..r][..q - p] && ts[q..r] == ts[p..r][q - p..];
    }
  }

  lemma Enclosed(ts: seq<Token>, p: nat, r: nat, open: Token, inner: seq<Token>, close: Token)
    requires p + 1 < r <= |ts| && |inner| == r - p - 2
    ensures ts[p..r] == [open] + inner + [close] <==> ts[p] == open && ts[p + 1..r - 1] == inner && ts[r - 1] == close
  {
    Joined(ts, p, p + 1, r - 1, [open], inner);
    Joined(ts, p, r - 1, r, [open] + inner, [close]);
    assert ts[p..p + 1] == [ts[p]] && ts[r - 1..r] == [ts[r - 1]];
  }

  /** The first visible token of a region that `after` ends. */
  function Ahead(trees: seq<Tree>, after: Token): Token {
    var rest := DropSpace(trees);
    if rest == [] then after else Head(rest[0])
  }

  /** The cursor's next token is the first visible one of the region that follows. */
  lemma NextIsAhead(ts: seq<Token>, p: nat, trees: seq<Tree>, after: Token)
    requires Stream(ts) && Proper(trees) && Closing(after) && p < |ts| && !ts[p].Space? && !ts[p].End?
    requires Region(ts, p + 1, trees, after)
    ensures ts[NextToken(ts, p)] == Ahead(trees, after) && !Ahead(trees, after).End?
    ensures Region(ts, NextToken(ts, p), DropSpace(trees), after)
    ensures NextToken(ts, p) + Size(DropSpace(trees)) == p + 1 + Size(trees)
  {
    SkipIsAhead(ts, p + 1, trees, after);
  }

  lemma {:induction false} SkipIsAhead(ts: seq<Token>, p: nat, trees: seq<Tree>, after: Token)
    requires Stream(ts) && Proper(trees) && Closing(after) && p < |ts| && Region(ts, p, trees, after)
    ensures ts[SkipSpace(ts, p)] == Ahead(trees, after) && !Ahead(trees, after).End?
    ensures Region(ts, SkipSpace(ts, p), DropSpace(trees), after)
    ensures SkipSpace(ts, p) + Size(DropSpace(trees)) == p + Size(trees)
    decreases trees
  {
    if trees != [] {
      assert ProperTree(trees[0]);
      if IsSpace(trees[0]) {
        SkipIsAhead(ts, p + 1, trees[1..], after);
        DropOneSpace(trees);
        assert SkipSpace(ts, p) == SkipSpace(ts, p + 1);
      } else {
        assert DropSpace(trees) == trees && SkipSpace(ts, p) == p;
      }
    }
  }

  lemma DropOneSpace(trees: seq<Tree>)
    requires trees != [] && IsSpace(trees[0])
    ensures DropSpace(trees) == DropSpace(trees[1..]) && SizeTree(trees[0]) == 1
  {
  }
}
