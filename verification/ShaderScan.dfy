/**
  The scanner and the emission agree: on bracketed code the scanner consumes exactly the region it was started on,
  rests on the token that ends it, and leaves the text of its bracket structure.
 */
module ShaderScan {
  import opened ShaderAnalysis
  import opened ShaderEmit
  import opened ShaderSyntax
  import opened Wrappers

  ghost predicate Within(rest: seq<Tree>, trees: seq<Tree>) {
    forall t | t in rest :: t in trees
  }

  lemma WithinIsProper(rest: seq<Tree>, trees: seq<Tree>)
    requires Within(rest, trees) && Proper(trees)
    ensures Proper(rest)
  {
  }

  lemma WithinWithin(a: seq<Tree>, b: seq<Tree>, trees: seq<Tree>)
    requires Within(a, b) && Within(b, trees)
    ensures Within(a, trees)
  {
  }

  lemma AfterSpaceWithin(trees: seq<Tree>)
    requires DropSpace(trees) != []
    ensures Within(DropSpace(trees)[1..], trees)
  {
    DropSpaceWithin(trees);
    var rest := DropSpace(trees);
    forall t | t in rest[1..] ensures t in trees {
      assert t in rest;
    }
  }

  lemma GroupWithin(trees: seq<Tree>)
    requires NextGroup(trees).Some?
    ensures var g := NextGroup(trees).value;
            && Within(g.rest, trees) && (Proper(trees) ==> Proper(g.rest) && Proper(g.kids))
  {
    var a := DropSpace(trees);
    DropSpaceWithin(trees);
    assert a[0] in trees;
    if Proper(trees) {
      assert ProperTree(a[0]);
      WithinIsProper(a[1..], trees);
    }
  }

  /** The tokens of a group, from the opening parenthesis at `a` to the end of the region at `close`. */
  ghost predicate Grouped(ts: seq<Token>, a: nat, g: Group, after: Token, close: nat) {
    && Region(ts, a + 1, g.kids, CloseParen)
    && a + 1 + Size(g.kids) < |ts| && ts[a + 1 + Size(g.kids)] == CloseParen
    && Region(ts, a + 2 + Size(g.kids), g.rest, after)
    && a + 2 + Size(g.kids) + Size(g.rest) == close
  }

  /** Where the next visible token opens a parenthesis, and only there, a group comes next. */
  lemma NextIsGroup(ts: seq<Token>, p: nat, trees: seq<Tree>, after: Token)
    requires Stream(ts) && Proper(trees) && Closing(after) && p < |ts| && !ts[p].Space? && !ts[p].End?
    requires Region(ts, p + 1, trees, after)
    ensures ts[NextToken(ts, p)] == OpenParen <==> NextGroup(trees).Some?
    ensures NextGroup(trees).Some? ==>
              Grouped(ts, NextToken(ts, p), NextGroup(trees).value, after, p + 1 + Size(trees))
  {
    hide NextToken, Region, Stream, Size, DropSpace, Proper, Grouped;
    NextIsAhead(ts, p, trees, after);
    var a := DropSpace(trees);
    if a != [] {
      VisibleIsProper(trees);
      if a[0].Paren? {
        GroupAt(ts, NextToken(ts, p), a, after);
      }
    }
  }

  lemma VisibleIsProper(trees: seq<Tree>)
    requires Proper(trees) && DropSpace(trees) != []
    ensures ProperTree(DropSpace(trees)[0])
  {
    DropSpaceWithin(trees);
    assert DropSpace(trees)[0] in trees;
  }

  lemma GroupAt(ts: seq<Token>, q: nat, a: seq<Tree>, after: Token)
    requires Region(ts, q, a, after) && a != [] && a[0].Paren?
    ensures Grouped(ts, q, Group(a[0].kids, a[1..]), after, q + Size(a))
  {
    assert RegionTree(ts, q, a[0]);
    RegionEnds(ts, q + 1, a[0].kids, CloseParen);
  }

  lemma GroupKids(ts: seq<Token>, a: nat, trees: seq<Tree>, after: Token, close: nat)
    requires Proper(trees) && NextGroup(trees).Some? && Grouped(ts, a, NextGroup(trees).value, after, close)
    ensures Proper(NextGroup(trees).value.kids) && Region(ts, a + 1, NextGroup(trees).value.kids, CloseParen)
  {
    GroupWithin(trees);
  }

  lemma HasNextInRegion(ts: seq<Token>, p: nat, trees: seq<Tree>, after: Token)
    requires Stream(ts) && Proper(trees) && Closing(after) && p < |ts| && !ts[p].Space? && !ts[p].End?
    requires Region(ts, p + 1, trees, after)
    ensures HasNext(ts, p)
  {
    NextIsAhead(ts, p, trees, after);
  }

  /** The token before a region counts only when it is a name or a dot. */
  lemma PriorCounts(c: Context, s: Token, t: Token, trees: seq<Tree>, after: Token)
    requires !s.Name? && !s.Dot? && !t.Name? && !t.Dot?
    ensures Emit(c, s, trees, after) == Emit(c, t, trees, after)
  {
    if trees != [] {
      PriorCountsItem(c, s, t, trees, after);
      hide EmitItem;
    }
  }

  lemma PriorCountsItem(c: Context, s: Token, t: Token, trees: seq<Tree>, after: Token)
    requires !s.Name? && !s.Dot? && !t.Name? && !t.Dot? && trees != []
    ensures EmitItem(c, s, trees, after) == EmitItem(c, t, trees, after)
  {
    hide Emit, EmitName, Parenthesis;
    if trees[0].Paren? {
      PriorCountsParen(c, s, t, trees, after);
    } else {
      if trees[0].Leaf? && trees[0].t.Name? {
        PriorCountsName(c, s, t, trees[0].t.name, trees[1..], after);
      }
    }
  }

  lemma PriorCountsParen(c: Context, s: Token, t: Token, trees: seq<Tree>, after: Token)
    requires !s.Name? && !t.Name? && trees != [] && trees[0].Paren?
    ensures EmitItem(c, s, trees, after) == EmitItem(c, t, trees, after)
  {
    hide Emit, Parenthesis;
    var o := Emit(c, OpenParen, trees[0].kids, CloseParen);
    if o.Emits? {
      PriorCountsParenthesis(c, s, t, o.value);
    }
  }

  lemma PriorCountsName(c: Context, s: Token, t: Token, n: Symbol, rest: seq<Tree>, after: Token)
    requires !s.Dot? && !t.Dot?
    ensures EmitName(c, s, n, rest, after) == EmitName(c, t, n, rest, after)
  {
    hide EmitProduct, EmitProductSum, EmitSampler;
  }

  lemma PriorCountsParenthesis(c: Context, s: Token, t: Token, content: seq<Piece>)
    requires !s.Name? && !t.Name?
    ensures Parenthesis(c, s, content) == Parenthesis(c, t, content)
  {
    hide Listed, Int3;
  }

  // ---------- What it means to agree ----------

  /** A scan that rests at `pos` with the text of the region, or fails where the emission fails. */
  ghost predicate Agrees(r: Option<Scan>, o: Outcome<seq<Piece>>, pos: nat) {
    match o
    case Throws => r == None
    case Emits(out) => r == Some(Scan(out, pos))
    case Overruns => true
  }

  /** A step over the first item of the region `trees`, which ends with `after` at position `close`. */
  ghost predicate AgreesItem(ts: seq<Token>, r: Option<Scan>, o: Outcome<Item>, trees: seq<Tree>, after: Token,
                             close: nat)
  {
    match o
    case Throws => r == None
    case Emits(item) =>
      && r.Some? && r.value.out == item.out && r.value.pos + 1 + Size(item.rest) == close
      && Resumes(ts, r.value.pos, item, trees, after)
    case Overruns => true
  }

  /** The rest of the region follows. */
  ghost predicate Resumes(ts: seq<Token>, pos: nat, item: Item, trees: seq<Tree>, after: Token) {
    && pos < |ts| && ts[pos] == item.last && !item.last.End?
    && Proper(item.rest) && Within(item.rest, trees)
    && Region(ts, pos + 1, item.rest, after)
  }

  /** After a group the region goes on behind the group's closing parenthesis. */
  lemma GroupResumes(ts: seq<Token>, a: nat, trees: seq<Tree>, after: Token, close: nat, out: seq<Piece>)
    requires Proper(trees) && NextGroup(trees).Some? && Grouped(ts, a, NextGroup(trees).value, after, close)
    ensures var g := NextGroup(trees).value;
            && Resumes(ts, a + 1 + Size(g.kids), Item(out, CloseParen, g.rest), trees, after)
            && a + 1 + Size(g.kids) + 1 + Size(g.rest) == close
  {
    hide NextGroup, Region, Proper, Within;
    GroupWithin(trees);
  }

  lemma WiderItem(ts: seq<Token>, r: Option<Scan>, o: Outcome<Item>, inner: seq<Tree>, trees: seq<Tree>, after: Token,
                  close: nat)
    requires AgreesItem(ts, r, o, inner, after, close) && Within(inner, trees)
    ensures AgreesItem(ts, r, o, trees, after, close)
  {
    hide Region, Proper;
  }

  // ---------- Regions ----------

  /** No tree of the region is the token at which the scan stops. */
  ghost predicate Without(trees: seq<Tree>, end: Token) {
    forall t | t in trees :: t != Leaf(end)
  }

  /** The scan passes over a region with exactly its text, and goes on behind it. */
  lemma {:induction false} ContentPasses(c: Context, ts: seq<Token>, p: nat, trees: seq<Tree>, after: Token, end: Token)
    requires Stream(ts) && Proper(trees) && Closing(after) && Closing(end) && Without(trees, end)
    requires p < |ts| && !ts[p].End? && Region(ts, p + 1, trees, after)
    ensures p + Size(trees) < |ts|
    ensures match Emit(c, ts[p], trees, after)
            case Throws => Content(c, ts, p, end) == None
            case Emits(out) => Content(c, ts, p, end) == Then(out, Content(c, ts, p + Size(trees), end))
            case Overruns => true
    decreases Size(trees), 4
  {
    hide Content, Emit, EmitItem, Step, Then, Region, Closing, Proper, Size;
    RegionEnds(ts, p + 1, trees, after);
    if trees == [] {
      EmitNothing(c, ts[p], after);
      ThenNothing(Content(c, ts, p, end));
    } else {
      HeadIsNot(ts, p + 1, trees, after, end);
      ContentStep(c, ts, p, end);
      EmitStep(c, ts[p], trees, after);
      StepIsItem(c, ts, p, trees, after);
      var o := EmitItem(c, ts[p], trees, after);
      if o.Emits? {
        var pos := p + Size(trees) - Size(o.value.rest);
        ContentPasses(c, ts, pos, o.value.rest, after, end);
        var e := Emit(c, ts[pos], o.value.rest, after);
        if e.Emits? {
          ThenThen(o.value.out, e.value, Content(c, ts, p + Size(trees), end));
        } else if e.Throws? {
          ThenFails(o.value.out);
        }
      }
    }
  }

  lemma EmitNothing(c: Context, prev: Token, after: Token)
    ensures Emit(c, prev, [], after) == Emits([]) && Size([]) == 0
  {
  }

  lemma HeadIsNot(ts: seq<Token>, p: nat, trees: seq<Tree>, after: Token, end: Token)
    requires Region(ts, p, trees, after) && trees != [] && Without(trees, end) && Closing(end)
    ensures p < |ts| && ts[p] != end
  {
    assert trees[0] in trees;
  }

  lemma ThenFails(out: seq<Piece>)
    ensures Then(out, None) == None
  {
  }

  lemma EmitStep(c: Context, prev: Token, trees: seq<Tree>, after: Token)
    requires trees != []
    ensures var e := Emit(c, prev, trees, after);
            match EmitItem(c, prev, trees, after)
            case Throws => e == Throws
            case Overruns => e == Overruns
            case Emits(item) =>
              match Emit(c, item.last, item.rest, after)
              case Throws => e == Throws
              case Overruns => e == Overruns
              case Emits(out) => e == Emits(item.out + out)
  {
    hide EmitItem;
  }

  /** The scan of a region stops on the token that ends it. */
  lemma {:induction false} ContentCloses(c: Context, ts: seq<Token>, p: nat, trees: seq<Tree>, end: Token)
    requires Stream(ts) && Proper(trees) && Closing(end) && Without(trees, end)
    requires p < |ts| && !ts[p].End? && Region(ts, p + 1, trees, end)
    ensures Agrees(Content(c, ts, p, end), Emit(c, ts[p], trees, end), p + 1 + Size(trees))
    decreases Size(trees), 5
  {
    hide Content, Emit, Region, Proper, Without, Size;
    ContentPasses(c, ts, p, trees, end, end);
    RegionEnds(ts, p + 1, trees, end);
    ContentStops(c, ts, p + Size(trees), end);
    var e := Emit(c, ts[p], trees, end);
    if e.Emits? {
      assert e.value + [] == e.value;
    }
  }

  lemma ContentStops(c: Context, ts: seq<Token>, p: nat, end: Token)
    requires Stream(ts) && Closing(end) && p + 1 < |ts| && ts[p + 1] == end
    ensures !ts[p].End? && Content(c, ts, p, end) == Some(Scan([], p + 1))
  {
    hide Step;
  }

  /** A balanced region does not hold a closing bracket of its own. */
  lemma ProperWithout(trees: seq<Tree>, end: Token)
    requires Proper(trees) && (end == CloseParen || end == CloseBrace)
    ensures Without(trees, end)
  {
    forall t | t in trees ensures t != Leaf(end) {
      assert ProperTree(t);
    }
  }

  lemma {:induction false} StepIsItem(c: Context, ts: seq<Token>, p: nat, trees: seq<Tree>, after: Token)
    requires Stream(ts) && Proper(trees) && Closing(after) && trees != []
    requires p < |ts| && !ts[p].End? && Region(ts, p + 1, trees, after)
    ensures p + 1 < |ts|
    ensures AgreesItem(ts, Step(c, ts, p + 1), EmitItem(c, ts[p], trees, after), trees, after, p + 1 + Size(trees))
    decreases Size(trees), 3
  {
    hide Step, EmitItem, AgreesItem, Stream, Proper, Region, Size;
    HeadIsProper(ts, p + 1, trees, after);
    match trees[0]
    case Leaf(t) =>
      if t.Name? {
        NameIsItem(c, ts, p, t.name, trees[1..], after);
        NameStep(c, ts, p, trees, after);
      } else {
        LeafIsItem(c, ts, p, trees, after);
      }
    case Paren(kids) =>
      ProperWithout(kids, CloseParen);
      ContentCloses(c, ts, p + 1, kids, CloseParen);
      BracketIsItem(c, ts, p, trees, after);
    case Brace(kids) =>
      ProperWithout(kids, CloseBrace);
      ContentCloses(c, ts, p + 1, kids, CloseBrace);
      BracketIsItem(c, ts, p, trees, after);
  }

  lemma HeadIsProper(ts: seq<Token>, p: nat, trees: seq<Tree>, after: Token)
    requires Proper(trees) && trees != [] && Region(ts, p, trees, after)
    ensures ProperTree(trees[0]) && Proper(trees[1..]) && Within(trees[1..], trees)
    ensures p < |ts| && ts[p] == Head(trees[0]) && RegionTree(ts, p, trees[0])
    ensures Region(ts, p + SizeTree(trees[0]), trees[1..], after)
    ensures Size(trees) == SizeTree(trees[0]) + Size(trees[1..])
    ensures trees[0].Paren? ==> Proper(trees[0].kids) && Region(ts, p + 1, trees[0].kids, CloseParen)
    ensures trees[0].Brace? ==> Proper(trees[0].kids) && Region(ts, p + 1, trees[0].kids, CloseBrace)
    ensures !trees[0].Leaf? ==> !ts[p].End? && SizeTree(trees[0]) == 2 + Size(trees[0].kids)
  {
    assert ProperTree(trees[0]);
    WithinIsProper(trees[1..], trees);
  }

  lemma NameStep(c: Context, ts: seq<Token>, p: nat, trees: seq<Tree>, after: Token)
    requires Stream(ts) && p + 1 < |ts| && trees != [] && trees[0].Leaf? && trees[0].t.Name? && ts[p + 1] == trees[0].t
    requires AgreesItem(ts, StepName(c, ts, p + 1), EmitName(c, ts[p], trees[0].t.name, trees[1..], after), trees[1..],
                        after, p + 1 + Size(trees))
    ensures AgreesItem(ts, Step(c, ts, p + 1), EmitItem(c, ts[p], trees, after), trees, after, p + 1 + Size(trees))
  {
    hide StepName, EmitName, AgreesItem, Size;
    WiderItem(ts, StepName(c, ts, p + 1), EmitName(c, ts[p], trees[0].t.name, trees[1..], after), trees[1..], trees,
              after, p + 1 + Size(trees));
  }

  lemma LeafIsItem(c: Context, ts: seq<Token>, p: nat, trees: seq<Tree>, after: Token)
    requires Stream(ts) && Proper(trees) && trees != [] && Region(ts, p + 1, trees, after)
    requires trees[0].Leaf? && !trees[0].t.Name?
    ensures p + 1 < |ts|
    ensures AgreesItem(ts, Step(c, ts, p + 1), EmitItem(c, ts[p], trees, after), trees, after, p + 1 + Size(trees))
  {
    hide Content, StepName, Parenthesis, Emit, EmitName, Proper;
    HeadIsProper(ts, p + 1, trees, after);
  }

  lemma BracketIsItem(c: Context, ts: seq<Token>, p: nat, trees: seq<Tree>, after: Token)
    requires Stream(ts) && Proper(trees) && trees != [] && Region(ts, p + 1, trees, after) && !trees[0].Leaf?
    requires p + 1 < |ts|
    requires var open, close := Head(trees[0]), if trees[0].Paren? then CloseParen else CloseBrace;
             Agrees(Content(c, ts, p + 1, close), Emit(c, open, trees[0].kids, close), p + 2 + Size(trees[0].kids))
    ensures AgreesItem(ts, Step(c, ts, p + 1), EmitItem(c, ts[p], trees, after), trees, after, p + 1 + Size(trees))
  {
    hide Content, StepName, Parenthesis, Emit, EmitName, Proper, Region, Size;
    HeadIsProper(ts, p + 1, trees, after);
    var close := if trees[0].Paren? then CloseParen else CloseBrace;
    RegionEnds(ts, p + 2, trees[0].kids, close);
    assert ts[p + 1 - 1] == ts[p];
  }

  // ---------- Names ----------

  lemma {:induction false} NameIsItem(c: Context, ts: seq<Token>, p: nat, n: Symbol, rest: seq<Tree>, after: Token)
    requires Stream(ts) && Proper(rest) && Closing(after)
    requires p + 1 < |ts| && ts[p + 1] == Name(n) && Region(ts, p + 2, rest, after)
    ensures AgreesItem(ts, StepName(c, ts, p + 1), EmitName(c, ts[p], n, rest, after), rest, after, p + 2 + Size(rest))
    decreases Size(rest), 9
  {
    hide StepName, EmitName, Region, AgreesItem, Stream, Proper, Size;
    if n in c.sh.words && (c.sh.words[n].Unsupported? || c.sh.words[n].Rewritten?) {
      WordIsItem(c, ts, p, n, rest, after);
    } else if n in c.sh.words || c.sh.IsTexture(n) {
      CallsAreDispatched(c, ts, p, n, rest, after);
      if n !in c.sh.words {
        SamplerIsItem(c, ts, p + 1, rest, after);
      } else if c.sh.words[n].Multiply? {
        ProductIsItem(c, ts, p + 1, rest, after);
      } else {
        ProductSumIsItem(c, ts, p + 1, rest, after);
      }
    } else {
      PlainNameIsItem(c, ts, p, n, rest, after);
    }
  }

  lemma CallsAreDispatched(c: Context, ts: seq<Token>, p: nat, n: Symbol, rest: seq<Tree>, after: Token)
    requires Stream(ts) && p + 1 < |ts| && ts[p + 1] == Name(n)
    ensures n in c.sh.words && c.sh.words[n].Multiply? ==>
              && StepName(c, ts, p + 1) == Product(c, ts, p + 1)
              && EmitName(c, ts[p], n, rest, after) == EmitProduct(c, rest)
    ensures n in c.sh.words && c.sh.words[n].MultiplyAdd? ==>
              && StepName(c, ts, p + 1) == ProductSum(c, ts, p + 1)
              && EmitName(c, ts[p], n, rest, after) == EmitProductSum(c, rest)
    ensures n !in c.sh.words && c.sh.IsTexture(n) ==>
              && StepName(c, ts, p + 1) == Sampler(c, ts, p + 1)
              && EmitName(c, ts[p], n, rest, after) == EmitSampler(c, n, rest)
  {
    hide Product, ProductSum, Sampler, EmitProduct, EmitProductSum, EmitSampler, NameText, LooksAhead;
  }

  lemma WordIsItem(c: Context, ts: seq<Token>, p: nat, n: Symbol, rest: seq<Tree>, after: Token)
    requires Stream(ts) && Proper(rest)
    requires n in c.sh.words && (c.sh.words[n].Unsupported? || c.sh.words[n].Rewritten?)
    requires p + 1 < |ts| && ts[p + 1] == Name(n) && Region(ts, p + 2, rest, after)
    ensures AgreesItem(ts, StepName(c, ts, p + 1), EmitName(c, ts[p], n, rest, after), rest, after, p + 2 + Size(rest))
  {
  }

  lemma PlainNameIsItem(c: Context, ts: seq<Token>, p: nat, n: Symbol, rest: seq<Tree>, after: Token)
    requires Stream(ts) && Proper(rest) && Closing(after) && n !in c.sh.words && !c.sh.IsTexture(n)
    requires p + 1 < |ts| && ts[p + 1] == Name(n) && Region(ts, p + 2, rest, after)
    ensures AgreesItem(ts, StepName(c, ts, p + 1), EmitName(c, ts[p], n, rest, after), rest, after, p + 2 + Size(rest))
  {
    if rest != [] {
      assert ProperTree(rest[0]);
      if LooksAhead(c, ts[p], n, ts[p + 2]) {
        assert rest[0].Leaf?;
        NextIsAhead(ts, p + 2, rest[1..], after);
      }
    }
  }

  // ---------- Calls ----------

  lemma {:induction false} ProductIsItem(c: Context, ts: seq<Token>, q: nat, rest: seq<Tree>, after: Token)
    requires Stream(ts) && Proper(rest) && Closing(after)
    requires 0 < q < |ts| && ts[q].Name? && Region(ts, q + 1, rest, after)
    ensures AgreesItem(ts, Product(c, ts, q), EmitProduct(c, rest), rest, after, q + 1 + Size(rest))
    decreases Size(rest), 7
  {
    hide Resumes, Region, Grouped, Proper, Within, Stream, NextToken, NextGroup, Size, Content, Emit, HasNext,
         ProductText, DropSpace, BeforeComma, AfterComma, TopCommas;
    NextIsGroup(ts, q, rest, after);
    var g, a := NextGroup(rest), NextToken(ts, q);
    if g.Some? && TopCommas(g.value.kids) > 0 {
      GroupKids(ts, a, rest, after, q + 1 + Size(rest));
      HasNextInRegion(ts, a, g.value.kids, CloseParen);
      FactorsAgree(c, ts, a, g.value.kids);
      forall out {
        GroupResumes(ts, a, rest, after, q + 1 + Size(rest), out);
      }
    }
  }

  /** Both factors, cut at the first top-level comma. */
  lemma {:induction false} FactorsAgree(c: Context, ts: seq<Token>, a: nat, kids: seq<Tree>)
    requires Stream(ts) && Proper(kids) && TopCommas(kids) > 0
    requires a < |ts| && ts[a] == OpenParen && Region(ts, a + 1, kids, CloseParen)
    ensures var b := a + 1 + Size(BeforeComma(kids));
            && b < |ts| && HasNext(ts, b) && NextToken(ts, b) > b
            && Agrees(Content(c, ts, a, Comma), Emit(c, OpenParen, BeforeComma(kids), Comma), b)
            && Agrees(Content(c, ts, NextToken(ts, b) - 1, CloseParen),
                      Emit(c, Comma, DropSpace(AfterComma(kids)), CloseParen), a + 1 + Size(kids))
    decreases Size(kids), 6
  {
    hide Content, Emit, Stream, Region, Proper, Without, Size, BeforeComma, AfterComma, TopCommas, DropSpace, NextToken,
         HasNext, Agrees;
    var second, b := AfterComma(kids), a + 1 + Size(BeforeComma(kids));
    CutAtComma(ts, a, kids, CloseParen);
    PartsAreProper(kids);
    ContentCloses(c, ts, a, BeforeComma(kids), Comma);
    SecondFactorAgrees(c, ts, b, second);
    assert b + 1 + Size(second) == a + 1 + Size(kids);
  }

  /** The second factor, without the space in front of it. */
  lemma {:induction false} SecondFactorAgrees(c: Context, ts: seq<Token>, b: nat, second: seq<Tree>)
    requires Stream(ts) && Proper(second)
    requires b < |ts| && ts[b] == Comma && Region(ts, b + 1, second, CloseParen)
    ensures HasNext(ts, b) && NextToken(ts, b) > b
    ensures Agrees(Content(c, ts, NextToken(ts, b) - 1, CloseParen), Emit(c, Comma, DropSpace(second), CloseParen),
                   b + 1 + Size(second))
    decreases Size(second), 6
  {
    HasNextInRegion(ts, b, second, CloseParen);
    NextIsAhead(ts, b, second, CloseParen);
    SpaceOrComma(ts, b);
    hide Content, Emit, Region, NextToken;
    var s, rest := NextToken(ts, b) - 1, DropSpace(second);
    DropSpaceWithin(second);
    WithinIsProper(rest, second);
    ProperWithout(rest, CloseParen);
    assert NextToken(ts, b) == s + 1;
    ContentCloses(c, ts, s, rest, CloseParen);
    PriorCounts(c, ts[s], Comma, rest, CloseParen);
  }

  /** A region falls apart at its first top-level comma, at position `b`. */
  ghost predicate Parts(ts: seq<Token>, a: nat, b: nat, kids: seq<Tree>, end: Token)
    requires TopCommas(kids) > 0
  {
    && Region(ts, a + 1, BeforeComma(kids), Comma) && b == a + 1 + Size(BeforeComma(kids)) < |ts| && ts[b] == Comma
    && Region(ts, b + 1, AfterComma(kids), end)
    && b + 1 + Size(AfterComma(kids)) == a + 1 + Size(kids)
  }

  lemma {:induction false} CutAtComma(ts: seq<Token>, a: nat, kids: seq<Tree>, end: Token)
    requires TopCommas(kids) > 0 && Region(ts, a + 1, kids, end)
    ensures Parts(ts, a, a + 1 + Size(BeforeComma(kids)), kids, end)
    decreases kids
  {
    hide Region, RegionTree, Size, TopCommas, BeforeComma, AfterComma, SizeTree;
    CommaIsSome(kids);
    if IsComma(kids[0]) {
      CutAtFirst(ts, a, kids, end);
    } else {
      RegionHead(ts, a + 1, kids, end);
      CommaLater(kids);
      CutAtComma(ts, a + SizeTree(kids[0]), kids[1..], end);
      RegionCons(ts, a + 1, kids[0], BeforeComma(kids[1..]), Comma);
    }
  }

  lemma CommaIsSome(kids: seq<Tree>)
    requires TopCommas(kids) > 0
    ensures kids != []
  {
  }

  lemma CutAtFirst(ts: seq<Token>, a: nat, kids: seq<Tree>, end: Token)
    requires kids != [] && IsComma(kids[0]) && TopCommas(kids) > 0 && Region(ts, a + 1, kids, end)
    ensures Parts(ts, a, a + 1 + Size(BeforeComma(kids)), kids, end)
  {
    assert BeforeComma(kids) == [] && AfterComma(kids) == kids[1..];
    assert RegionTree(ts, a + 1, kids[0]);
  }

  lemma RegionHead(ts: seq<Token>, p: nat, trees: seq<Tree>, after: Token)
    requires trees != [] && Region(ts, p, trees, after)
    ensures RegionTree(ts, p, trees[0]) && Region(ts, p + SizeTree(trees[0]), trees[1..], after)
    ensures Size(trees) == SizeTree(trees[0]) + Size(trees[1..])
  {
  }

  lemma RegionCons(ts: seq<Token>, p: nat, head: Tree, tail: seq<Tree>, after: Token)
    requires RegionTree(ts, p, head) && Region(ts, p + SizeTree(head), tail, after)
    ensures Region(ts, p, [head] + tail, after) && Size([head] + tail) == SizeTree(head) + Size(tail)
  {
    assert ([head] + tail)[1..] == tail;
  }

  /** Where the first tree is no comma, the parts are those of the other trees, with the first tree in front. */
  lemma CommaLater(kids: seq<Tree>)
    requires kids != [] && !IsComma(kids[0]) && TopCommas(kids) > 0
    ensures TopCommas(kids[1..]) > 0
    ensures BeforeComma(kids) == [kids[0]] + BeforeComma(kids[1..]) && AfterComma(kids) == AfterComma(kids[1..])
  {
  }

  lemma PartsAreProper(kids: seq<Tree>)
    requires Proper(kids) && TopCommas(kids) > 0
    ensures Proper(BeforeComma(kids)) && Proper(AfterComma(kids)) && Without(BeforeComma(kids), Comma)
  {
    assert Within(BeforeComma(kids), kids);
    assert Within(AfterComma(kids), kids);
    WithinIsProper(BeforeComma(kids), kids);
    WithinIsProper(AfterComma(kids), kids);
  }

  /** Just before the next visible token there is a space, or the cursor's own token. */
  lemma SpaceOrComma(ts: seq<Token>, b: nat)
    requires Stream(ts) && b < |ts| && ts[b] == Comma
    ensures var s := NextToken(ts, b) - 1; b <= s < |ts| && (ts[s] == Comma || ts[s].Space?)
  {
    BeforeVisible(ts, b + 1);
  }

  lemma {:induction false} BeforeVisible(ts: seq<Token>, p: nat)
    requires Stream(ts) && 0 < p < |ts|
    ensures var s := SkipSpace(ts, p) - 1; s == p - 1 || (p <= s < |ts| && ts[s].Space?)
    decreases |ts| - p
  {
    if ts[p].Space? {
      BeforeVisible(ts, p + 1);
    }
  }

  lemma {:induction false} ProductSumIsItem(c: Context, ts: seq<Token>, q: nat, rest: seq<Tree>, after: Token)
    requires Stream(ts) && Proper(rest) && Closing(after)
    requires 0 < q < |ts| && ts[q].Name? && Region(ts, q + 1, rest, after)
    ensures AgreesItem(ts, ProductSum(c, ts, q), EmitProductSum(c, rest), rest, after, q + 1 + Size(rest))
    decreases Size(rest), 7
  {
    hide Resumes, Region, Grouped, Proper, Within, Stream, NextToken, NextGroup, Size, Arguments, EmitArguments,
         MultiplyAddText;
    NextIsGroup(ts, q, rest, after);
    var g, a := NextGroup(rest), NextToken(ts, q);
    if g.Some? {
      GroupKids(ts, a, rest, after, q + 1 + Size(rest));
      ArgumentsAgree(c, ts, a, OpenParen, g.value.kids, 3);
      forall out {
        GroupResumes(ts, a, rest, after, q + 1 + Size(rest), out);
      }
    }
  }

  ghost predicate AgreesArgs(r: Option<ArgScan>, o: Outcome<seq<seq<Piece>>>, pos: nat) {
    match o
    case Throws => r == None
    case Emits(args) => r == Some(ArgScan(args, pos))
    case Overruns => true
  }

  lemma {:induction false} ArgumentsAgree(c: Context, ts: seq<Token>, a: nat, prev: Token, kids: seq<Tree>, n: nat)
    requires Stream(ts) && Proper(kids) && n > 0 && (prev == OpenParen || prev == Comma)
    requires a < |ts| && ts[a] == prev && Region(ts, a + 1, kids, CloseParen)
    ensures AgreesArgs(Arguments(c, ts, a, n), EmitArguments(c, prev, kids, n), a + 1 + Size(kids))
    decreases Size(kids), 6, n
  {
    hide Content, Emit, HasNext, Region, Stream, Proper, Size, BeforeComma, AfterComma, Without;
    HasNextInRegion(ts, a, kids, CloseParen);
    if n == 1 {
      ProperWithout(kids, CloseParen);
      ContentCloses(c, ts, a, kids, CloseParen);
    } else if TopCommas(kids) > 0 {
      CutAtComma(ts, a, kids, CloseParen);
      PartsAreProper(kids);
      ContentCloses(c, ts, a, BeforeComma(kids), Comma);
      ArgumentsAgree(c, ts, a + 1 + Size(BeforeComma(kids)), Comma, AfterComma(kids), n - 1);
    }
  }

  lemma {:induction false} SamplerIsItem(c: Context, ts: seq<Token>, q: nat, rest: seq<Tree>, after: Token)
    requires Stream(ts) && Proper(rest) && Closing(after)
    requires 0 < q < |ts| && ts[q].Name? && Region(ts, q + 1, rest, after)
    ensures AgreesItem(ts, Sampler(c, ts, q), EmitSampler(c, ts[q].name, rest), rest, after, q + 1 + Size(rest))
    decreases Size(rest), 8
  {
    hide Sampler, EmitSampler, AgreesItem, NextToken, Size, Stream, Region, Proper, DropSpace, Within;
    NextIsAhead(ts, q, rest, after);
    var dot, d := DropSpace(rest), NextToken(ts, q);
    if dot != [] && dot[0] == Leaf(Dot) {
      LeafTail(ts, d, dot, after);
      AfterSpaceWithin(rest);
      WithinIsProper(dot[1..], rest);
      MethodIsItem(c, ts, q, d, rest, dot, after);
    } else {
      NotADot(c, ts, q, rest, after);
    }
  }

  lemma {:induction false} MethodIsItem(c: Context, ts: seq<Token>, q: nat, d: nat, rest: seq<Tree>, dot: seq<Tree>,
                                        after: Token)
    requires Stream(ts) && Closing(after) && 0 < q < |ts| && ts[q].Name?
    requires d == NextToken(ts, q) && ts[d] == Dot && dot == DropSpace(rest) && dot != [] && dot[0] == Leaf(Dot)
    requires Region(ts, d + 1, dot[1..], after) && d + 1 + Size(dot[1..]) == q + 1 + Size(rest)
    requires Proper(dot[1..]) && Within(dot[1..], rest)
    ensures AgreesItem(ts, Sampler(c, ts, q), EmitSampler(c, ts[q].name, rest), rest, after, q + 1 + Size(rest))
    decreases Size(rest), 7
  {
    hide Sampler, EmitSampler, AgreesItem, NextToken, Size, Stream, Region, Proper, DropSpace, Within;
    NextIsAhead(ts, d, dot[1..], after);
    var m, e := DropSpace(dot[1..]), NextToken(ts, d);
    if m != [] && m[0].Leaf? && m[0].t.Name? && m[0].t.name in c.sh.methods {
      LeafTail(ts, e, m, after);
      AfterSpaceWithin(dot[1..]);
      WithinIsProper(m[1..], dot[1..]);
      WithinWithin(m[1..], dot[1..], rest);
      var r, o := Sampler(c, ts, q), EmitSampler(c, ts[q].name, rest);
      TextureCallIsItem(c, ts, e, ts[q].name, c.sh.methods[m[0].t.name], m[1..], after);
      SamplerUnfolds(c, ts, q, rest, dot, m);
      WiderItem(ts, r, o, m[1..], rest, after, e + 1 + Size(m[1..]));
    } else {
      NotAMethod(c, ts, q, rest, after, dot, m);
    }
  }

  lemma SamplerUnfolds(c: Context, ts: seq<Token>, q: nat, rest: seq<Tree>, dot: seq<Tree>, m: seq<Tree>)
    requires Stream(ts) && 0 < q < |ts| && ts[q].Name? && ts[NextToken(ts, q)] == Dot
    requires dot == DropSpace(rest) && dot != [] && dot[0] == Leaf(Dot)
    requires m == DropSpace(dot[1..]) && m != [] && m[0].Leaf? && m[0].t.Name? && m[0].t.name in c.sh.methods
    requires ts[NextToken(ts, NextToken(ts, q))] == m[0].t
    ensures var v := c.sh.methods[m[0].t.name];
            && Sampler(c, ts, q)
               == Then([Texture(ts[q].name), Text(".")], TextureCall(c, ts, NextToken(ts, NextToken(ts, q)), v))
            && EmitSampler(c, ts[q].name, rest) == EmitTextureCall(c, ts[q].name, v, m[1..])
  {
    hide TextureCall, EmitTextureCall, NextToken, DropSpace;
  }

  /** Without a dot, or without the name of a method after it, both fail. */
  lemma NotADot(c: Context, ts: seq<Token>, q: nat, rest: seq<Tree>, after: Token)
    requires Stream(ts) && 0 < q < |ts| && ts[q].Name? && Closing(after)
    requires ts[NextToken(ts, q)] == Ahead(rest, after) && (DropSpace(rest) == [] || DropSpace(rest)[0] != Leaf(Dot))
    ensures AgreesItem(ts, Sampler(c, ts, q), EmitSampler(c, ts[q].name, rest), rest, after, q + 1 + Size(rest))
  {
    hide TextureCall, EmitTextureCall, NextToken, DropSpace, Size;
  }

  lemma NotAMethod(c: Context, ts: seq<Token>, q: nat, rest: seq<Tree>, after: Token, dot: seq<Tree>,
                   m: seq<Tree>)
    requires Stream(ts) && 0 < q < |ts| && ts[q].Name?
    requires ts[NextToken(ts, q)] == Dot && dot == DropSpace(rest) && dot != [] && dot[0] == Leaf(Dot)
    requires m == DropSpace(dot[1..]) && !(m != [] && m[0].Leaf? && m[0].t.Name? && m[0].t.name in c.sh.methods)
    requires var t := ts[NextToken(ts, NextToken(ts, q))]; !t.Name? || t.name !in c.sh.methods
    ensures AgreesItem(ts, Sampler(c, ts, q), EmitSampler(c, ts[q].name, rest), rest, after, q + 1 + Size(rest))
  {
    hide TextureCall, EmitTextureCall, NextToken, DropSpace, Size;
  }

  lemma LeafTail(ts: seq<Token>, p: nat, trees: seq<Tree>, after: Token)
    requires Region(ts, p, trees, after) && trees != [] && trees[0].Leaf?
    ensures p < |ts| && ts[p] == trees[0].t && Region(ts, p + 1, trees[1..], after)
    ensures Size(trees) == 1 + Size(trees[1..])
  {
  }

  lemma {:induction false} TextureCallIsItem(c: Context, ts: seq<Token>, m: nat, n: Symbol, v: Sampling,
                                             rest: seq<Tree>, after: Token)
    requires Stream(ts) && Proper(rest) && Closing(after)
    requires m < |ts| && ts[m].Name? && Region(ts, m + 1, rest, after)
    ensures AgreesItem(ts, Then([Texture(n), Text(".")], TextureCall(c, ts, m, v)), EmitTextureCall(c, n, v, rest),
                       rest, after, m + 1 + Size(rest))
    decreases Size(rest), 7
  {
    hide Resumes, Region, Grouped, Proper, Within, Stream, NextToken, NextGroup, Size, Arguments, EmitArguments,
         CallText;
    NextIsGroup(ts, m, rest, after);
    var g, a := NextGroup(rest), NextToken(ts, m);
    if g.Some? {
      GroupKids(ts, a, rest, after, m + 1 + Size(rest));
      ArgumentsAgree(c, ts, a, OpenParen, g.value.kids, Arity(v));
      forall out {
        GroupResumes(ts, a, rest, after, m + 1 + Size(rest), out);
      }
    }
  }

  // ---------- Whole bodies ----------

  /**
    On a balanced function body the scanner stops on the body's own closing brace with the emission of the body, or
    fails where that does. It may run past the brace only if some call has too few arguments.
   */
  lemma ScanConsumesBody(c: Context, ts: seq<Token>, p: nat, body: seq<Tree>)
    requires Stream(ts) && Proper(body) && RegionTree(ts, p, Brace(body))
    ensures p + 1 + Size(body) < |ts| && ts[p + 1 + Size(body)] == CloseBrace
    ensures Agrees(Content(c, ts, p, CloseBrace), Emit(c, OpenBrace, body, CloseBrace), p + 1 + Size(body))
  {
    hide Content, Emit;
    assert ts[p] == OpenBrace && Region(ts, p + 1, body, CloseBrace);
    RegionEnds(ts, p + 1, body, CloseBrace);
    ProperWithout(body, CloseBrace);
    ContentCloses(c, ts, p, body, CloseBrace);
  }

  // ---------- Calls with too few arguments ----------

  lemma {:induction false} NoCommas(kids: seq<Tree>)
    requires TopCommas(kids) == 0
    ensures Without(kids, Comma)
  {
    if kids != [] {
      NoCommas(kids[1..]);
      assert kids == [kids[0]] + kids[1..];
    }
  }

  /** Without a comma, the scan for a first argument leaves the parenthesis. */
  lemma ArgumentRunsPast(c: Context, ts: seq<Token>, a: nat, kids: seq<Tree>)
    requires Stream(ts) && Proper(kids) && TopCommas(kids) == 0
    requires a < |ts| && (ts[a] == OpenParen || ts[a] == Comma) && Region(ts, a + 1, kids, CloseParen)
    requires !Emit(c, ts[a], kids, CloseParen).Overruns?
    ensures var r := Content(c, ts, a, Comma); r.Some? ==> r.value.pos > a + 1 + Size(kids)
  {
    var p := a + Size(kids);
    hide Content, Emit, Step, Region, Proper, Without;
    NoCommas(kids);
    RegionEnds(ts, a + 1, kids, CloseParen);
    ContentPasses(c, ts, a, kids, CloseParen, Comma);
    if Content(c, ts, a, Comma).Some? {
      BracketIsText(c, ts, p + 1);
      ContentStep(c, ts, p, Comma);
      ContentMoves(c, ts, p + 1);
    }
  }

  lemma BracketIsText(c: Context, ts: seq<Token>, q: nat)
    requires Stream(ts) && 0 < q < |ts| && ts[q] == CloseParen
    ensures Step(c, ts, q) == Some(Scan([Text(")")], q))
  {
    hide Content, StepName, Parenthesis;
  }

  lemma ContentMoves(c: Context, ts: seq<Token>, p: nat)
    requires Stream(ts) && p < |ts| && ts[p] == CloseParen
    ensures var r := Content(c, ts, p, Comma); r.Some? ==> r.value.pos > p
  {
    hide Step;
  }
}
