/**
  Calls with enough arguments stay inside their own parentheses: nothing is scanned past the region it belongs to. For
  each kind of call the cursor rests on the call's own closing parenthesis exactly if the arguments are enough.
 */
module ShaderCalls {
  import opened ShaderAnalysis
  import opened ShaderEmit
  import opened ShaderEnds
  import opened ShaderScan
  import opened ShaderSyntax
  import opened Wrappers

  /** A call of this name has the arguments it needs. */
  predicate Enough(sh: Shader, t: Token, commas: nat) {
    t.Name? ==>
      && (t.name in sh.words && sh.words[t.name].Multiply? ==> commas >= 1)
      && (t.name in sh.words && sh.words[t.name].MultiplyAdd? ==> commas >= 2)
      && (t.name in sh.methods ==> commas >= Arity(sh.methods[t.name]) - 1)
  }

  /** Every call of the region has the arguments it needs. */
  predicate CallsFit(sh: Shader, trees: seq<Tree>)
    decreases trees
  {
    trees == [] || (CallFits(sh, trees[0], trees[1..]) && CallsFit(sh, trees[1..]))
  }

  predicate CallFits(sh: Shader, tree: Tree, rest: seq<Tree>)
    decreases tree
  {
    match tree
    case Leaf(t) =>
      NextGroup(rest).Some? ==> Enough(sh, t, TopCommas(NextGroup(rest).value.kids))
    case Paren(kids) => CallsFit(sh, kids)
    case Brace(kids) => CallsFit(sh, kids)
  }

  lemma {:induction false} FitDrop(c: Context, trees: seq<Tree>)
    requires CallsFit(c.sh, trees)
    ensures CallsFit(c.sh, DropSpace(trees))
    ensures DropSpace(trees) != [] ==>
              && CallFits(c.sh, DropSpace(trees)[0], DropSpace(trees)[1..])
              && CallsFit(c.sh, DropSpace(trees)[1..])
    decreases trees
  {
    hide CallFits;
    if trees != [] && IsSpace(trees[0]) {
      FitDrop(c, trees[1..]);
    }
  }

  lemma FitGroup(c: Context, trees: seq<Tree>)
    requires CallsFit(c.sh, trees) && NextGroup(trees).Some?
    ensures CallsFit(c.sh, NextGroup(trees).value.kids) && CallsFit(c.sh, NextGroup(trees).value.rest)
  {
    FitDrop(c, trees);
  }

  lemma {:induction false} GroupExtends(a: seq<Tree>, b: seq<Tree>)
    requires NextGroup(a).Some?
    ensures NextGroup(a + b).Some? && NextGroup(a + b).value.kids == NextGroup(a).value.kids
    decreases a
  {
    assert a != [];
    assert (a + b)[0] == a[0] && (a + b)[1..] == a[1..] + b;
    if IsSpace(a[0]) {
      GroupExtends(a[1..], b);
    }
  }

  lemma {:induction false} FitPrefix(c: Context, a: seq<Tree>, b: seq<Tree>)
    requires CallsFit(c.sh, a + b)
    ensures CallsFit(c.sh, a) && CallsFit(c.sh, b)
    decreases a
  {
    hide CallFits;
    if a == [] {
      assert a + b == b;
    } else {
      assert (a + b)[0] == a[0] && (a + b)[1..] == a[1..] + b;
      FitPrefix(c, a[1..], b);
      FitTreePrefix(c, a[0], a[1..], b);
    }
  }

  lemma FitTreePrefix(c: Context, tree: Tree, a: seq<Tree>, b: seq<Tree>)
    requires CallFits(c.sh, tree, a + b)
    ensures CallFits(c.sh, tree, a)
  {
    if NextGroup(a).Some? {
      GroupExtends(a, b);
    }
  }

  lemma FitParts(c: Context, kids: seq<Tree>)
    requires CallsFit(c.sh, kids) && TopCommas(kids) > 0
    ensures CallsFit(c.sh, BeforeComma(kids)) && CallsFit(c.sh, AfterComma(kids))
  {
    hide CallsFit;
    var a, b := BeforeComma(kids), AfterComma(kids);
    assert kids == a + ([Leaf(Comma)] + b);
    FitPrefix(c, a, [Leaf(Comma)] + b);
    FitPrefix(c, [Leaf(Comma)], b);
  }

  lemma FitKids(c: Context, trees: seq<Tree>)
    requires CallsFit(c.sh, trees) && trees != [] && !trees[0].Leaf?
    ensures CallsFit(c.sh, trees[0].kids) && SizeTree(trees[0]) == 2 + Size(trees[0].kids)
  {
  }

  // ---------- Nothing runs past its region ----------

  /** The item does not run past its region, and the rest of the region is as good as the region. */
  ghost predicate Stays(c: Context, o: Outcome<Item>) {
    !o.Overruns? && (o.Emits? ==> CallsFit(c.sh, o.value.rest))
  }

  /** Where calls have the arguments they need, nothing runs past its own parenthesis. */
  lemma {:induction false} EmitStays(c: Context, prev: Token, trees: seq<Tree>, after: Token)
    requires CallsFit(c.sh, trees)
    ensures !Emit(c, prev, trees, after).Overruns?
    decreases Size(trees), 4
  {
    hide Emit, EmitItem, CallsFit;
    if trees == [] {
      EmitNothing(c, prev, after);
    } else {
      EmitStep(c, prev, trees, after);
      ItemStays(c, prev, trees, after);
      var o := EmitItem(c, prev, trees, after);
      if o.Emits? {
        EmitStays(c, o.value.last, o.value.rest, after);
      }
    }
  }

  lemma {:induction false} ItemStays(c: Context, prev: Token, trees: seq<Tree>, after: Token)
    requires CallsFit(c.sh, trees) && trees != []
    ensures Stays(c, EmitItem(c, prev, trees, after))
    decreases Size(trees), 3
  {
    hide Emit, EmitName, Parenthesis, CallFits;
    match trees[0]
    case Leaf(t) =>
      if t.Name? {
        NameStays(c, prev, t, trees[1..], after);
      }
    case Brace(kids) =>
      FitKids(c, trees);
      EmitStays(c, OpenBrace, kids, CloseBrace);
    case Paren(kids) =>
      FitKids(c, trees);
      EmitStays(c, OpenParen, kids, CloseParen);
  }

  lemma {:induction false} NameStays(c: Context, prev: Token, t: Token, rest: seq<Tree>, after: Token)
    requires CallsFit(c.sh, rest) && t.Name? && CallFits(c.sh, Leaf(t), rest)
    ensures Stays(c, EmitName(c, prev, t.name, rest, after))
    decreases Size(rest), 9
  {
    hide EmitProduct, EmitProductSum, EmitSampler, CallsFit, LooksAhead, NameText, Ahead;
    var n := t.name;
    if n in c.sh.words && c.sh.words[n].Multiply? {
      ProductStays(c, rest);
    } else if n in c.sh.words && c.sh.words[n].MultiplyAdd? {
      ProductSumStays(c, rest);
    } else if n !in c.sh.words && c.sh.IsTexture(n) {
      SamplerStays(c, n, rest);
    }
  }

  lemma {:induction false} ProductStays(c: Context, rest: seq<Tree>)
    requires CallsFit(c.sh, rest) && (NextGroup(rest).Some? ==> TopCommas(NextGroup(rest).value.kids) >= 1)
    ensures Stays(c, EmitProduct(c, rest))
    decreases Size(rest), 8
  {
    hide Emit, CallsFit, NextGroup, BeforeComma, AfterComma, TopCommas, DropSpace, Size;
    if NextGroup(rest).Some? {
      var kids := NextGroup(rest).value.kids;
      var first, second := BeforeComma(kids), AfterComma(kids);
      assert Size(first) + 1 + Size(second) == Size(kids);
      FitGroup(c, rest);
      FitParts(c, kids);
      FitDrop(c, second);
      EmitStays(c, OpenParen, first, Comma);
      EmitStays(c, Comma, DropSpace(second), CloseParen);
    }
  }

  lemma {:induction false} ProductSumStays(c: Context, rest: seq<Tree>)
    requires CallsFit(c.sh, rest) && (NextGroup(rest).Some? ==> TopCommas(NextGroup(rest).value.kids) >= 2)
    ensures Stays(c, EmitProductSum(c, rest))
    decreases Size(rest), 8
  {
    hide EmitArguments, CallsFit, NextGroup, TopCommas, Size;
    if NextGroup(rest).Some? {
      FitGroup(c, rest);
      ArgumentsStay(c, OpenParen, NextGroup(rest).value.kids, 3);
    }
  }

  lemma {:induction false} ArgumentsStay(c: Context, prev: Token, kids: seq<Tree>, n: nat)
    requires CallsFit(c.sh, kids) && n > 0 && TopCommas(kids) >= n - 1
    ensures !EmitArguments(c, prev, kids, n).Overruns?
    decreases Size(kids), 5, n
  {
    hide Emit, CallsFit, BeforeComma, AfterComma, TopCommas, Size;
    if n == 1 {
      EmitStays(c, prev, kids, CloseParen);
    } else {
      assert Size(BeforeComma(kids)) + 1 + Size(AfterComma(kids)) == Size(kids);
      FitParts(c, kids);
      EmitStays(c, prev, BeforeComma(kids), Comma);
      ArgumentsStay(c, Comma, AfterComma(kids), n - 1);
    }
  }

  lemma {:induction false} SamplerStays(c: Context, n: Symbol, rest: seq<Tree>)
    requires CallsFit(c.sh, rest)
    ensures Stays(c, EmitSampler(c, n, rest))
    decreases Size(rest), 8
  {
    hide CallsFit, DropSpace, EmitTextureCall, TopCommas, CallFits;
    var dot := DropSpace(rest);
    if dot != [] && dot[0] == Leaf(Dot) {
      var m := DropSpace(dot[1..]);
      FitDrop(c, rest);
      FitDrop(c, dot[1..]);
      if m != [] && m[0].Leaf? && m[0].t.Name? && m[0].t.name in c.sh.methods {
        TextureCallStays(c, n, m[0].t, m[1..]);
      }
    }
  }

  lemma {:induction false} TextureCallStays(c: Context, n: Symbol, m: Token, rest: seq<Tree>)
    requires CallsFit(c.sh, rest) && m.Name? && m.name in c.sh.methods && CallFits(c.sh, Leaf(m), rest)
    ensures Stays(c, EmitTextureCall(c, n, c.sh.methods[m.name], rest))
    decreases Size(rest), 8
  {
    hide EmitArguments, CallsFit, NextGroup, Size, CallText, TopCommas;
    if NextGroup(rest).Some? {
      FitGroup(c, rest);
      ArgumentsStay(c, OpenParen, NextGroup(rest).value.kids, Arity(c.sh.methods[m.name]));
    }
  }

  // ---------- Where a call ends ----------

  /** The scan of arguments never stops before the parenthesis that closes them, and on it only if there are enough. */
  ghost predicate RestsIff(ts: seq<Token>, pos: nat, close: nat, enough: bool) {
    close < |ts| && ts[close] == CloseParen && pos >= close && (pos == close <==> enough)
  }

  lemma {:induction false} ArgumentsRestIff(c: Context, ts: seq<Token>, a: nat, kids: seq<Tree>, n: nat, s: ArgScan)
    requires Stream(ts) && Proper(kids) && CallsFit(c.sh, kids) && n > 0
    requires a < |ts| && (ts[a] == OpenParen || ts[a] == Comma) && Region(ts, a + 1, kids, CloseParen)
    requires Arguments(c, ts, a, n) == Some(s)
    ensures RestsIff(ts, s.pos, a + 1 + Size(kids), TopCommas(kids) >= n - 1)
    decreases n
  {
    hide Content, Emit, Region, Proper, Stream, Size, BeforeComma, AfterComma, CallsFit, HasNext, EmitArguments;
    RegionEnds(ts, a + 1, kids, CloseParen);
    if TopCommas(kids) >= n - 1 {
      ArgumentsStay(c, ts[a], kids, n);
      ArgumentsAgree(c, ts, a, ts[a], kids, n);
    } else if TopCommas(kids) == 0 {
      EmitStays(c, ts[a], kids, CloseParen);
      ArgumentRunsPast(c, ts, a, kids);
    } else {
      CutAtComma(ts, a, kids, CloseParen);
      PartsAreProper(kids);
      FitParts(c, kids);
      EmitStays(c, ts[a], BeforeComma(kids), Comma);
      ContentCloses(c, ts, a, BeforeComma(kids), Comma);
      var b := a + 1 + Size(BeforeComma(kids));
      assert b + 1 + Size(AfterComma(kids)) == a + 1 + Size(kids);
      ArgumentsRestIff(c, ts, b, AfterComma(kids), n - 1, Arguments(c, ts, b, n - 1).value);
    }
  }

  /** A call of this kind has a parenthesis of its own, whose calls have enough arguments. */
  ghost predicate CallAt(c: Context, ts: seq<Token>, q: nat, rest: seq<Tree>, after: Token) {
    && Stream(ts) && Proper(rest) && Closing(after) && 0 < q < |ts| && ts[q].Name? && Region(ts, q + 1, rest, after)
    && NextGroup(rest).Some? && CallsFit(c.sh, NextGroup(rest).value.kids)
  }

  /** The parenthesis of a call. */
  lemma CallGroup(c: Context, ts: seq<Token>, q: nat, rest: seq<Tree>, after: Token)
    requires CallAt(c, ts, q, rest, after)
    ensures var a, kids := NextToken(ts, q), NextGroup(rest).value.kids;
            Proper(kids) && Region(ts, a + 1, kids, CloseParen) && ts[a] == OpenParen
  {
    hide NextToken, Stream, Region, Proper, CallsFit, NextGroup;
    NextIsGroup(ts, q, rest, after);
    GroupKids(ts, NextToken(ts, q), rest, after, q + 1 + Size(rest));
  }

  /** A product leaves the cursor on its own closing parenthesis exactly if the parenthesis has a top-level comma. */
  lemma ProductRestsIff(c: Context, ts: seq<Token>, q: nat, rest: seq<Tree>, after: Token, s: Scan)
    requires CallAt(c, ts, q, rest, after) && Product(c, ts, q) == Some(s)
    ensures var kids := NextGroup(rest).value.kids;
            RestsIff(ts, s.pos, NextToken(ts, q) + 1 + Size(kids), TopCommas(kids) >= 1)
  {
    hide Content, Emit, Region, Proper, NextGroup, ProductText, Size, DropSpace, CallsFit, BeforeComma, AfterComma;
    CallGroup(c, ts, q, rest, after);
    var a, kids := NextToken(ts, q), NextGroup(rest).value.kids;
    RegionEnds(ts, a + 1, kids, CloseParen);
    if TopCommas(kids) == 0 {
      EmitStays(c, OpenParen, kids, CloseParen);
      ArgumentRunsPast(c, ts, a, kids);
    } else {
      FitParts(c, kids);
      FitDrop(c, AfterComma(kids));
      EmitStays(c, OpenParen, BeforeComma(kids), Comma);
      EmitStays(c, Comma, DropSpace(AfterComma(kids)), CloseParen);
      FactorsAgree(c, ts, a, kids);
    }
  }

  /** A multiply-add does exactly if its parenthesis has two top-level commas. */
  lemma ProductSumRestsIff(c: Context, ts: seq<Token>, q: nat, rest: seq<Tree>, after: Token, s: Scan)
    requires CallAt(c, ts, q, rest, after) && ProductSum(c, ts, q) == Some(s)
    ensures var kids := NextGroup(rest).value.kids;
            RestsIff(ts, s.pos, NextToken(ts, q) + 1 + Size(kids), TopCommas(kids) >= 2)
  {
    hide Region, Proper, NextToken, NextGroup, MultiplyAddText, Size, CallsFit, Arguments, RestsIff, Stream;
    CallGroup(c, ts, q, rest, after);
    var a := NextToken(ts, q);
    ArgumentsRestIff(c, ts, a, NextGroup(rest).value.kids, 3, Arguments(c, ts, a, 3).value);
  }

  /** A texture call does exactly if its parenthesis has the commas that separate the arguments of its method. */
  lemma TextureCallRestsIff(c: Context, ts: seq<Token>, m: nat, v: Sampling, rest: seq<Tree>, after: Token, s: Scan)
    requires CallAt(c, ts, m, rest, after) && TextureCall(c, ts, m, v) == Some(s)
    ensures var kids := NextGroup(rest).value.kids;
            RestsIff(ts, s.pos, NextToken(ts, m) + 1 + Size(kids), TopCommas(kids) >= Arity(v) - 1)
  {
    hide Region, Proper, NextToken, NextGroup, CallText, Size, CallsFit, Arguments, RestsIff, Stream;
    CallGroup(c, ts, m, rest, after);
    var a := NextToken(ts, m);
    ArgumentsRestIff(c, ts, a, NextGroup(rest).value.kids, Arity(v), Arguments(c, ts, a, Arity(v)).value);
  }
}
