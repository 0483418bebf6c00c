/** Every region is emitted with the brackets of its own tokens, and what the tally says more or less. */
module ShaderBalance {
  import opened Brackets
  import opened ShaderAnalysis
  import opened ShaderBrackets
  import opened ShaderCalls
  import opened ShaderEmit
  import opened ShaderEnds
  import opened ShaderScan
  import opened ShaderSlant
  import opened ShaderSyntax
  import opened ShaderText
  import opened Wrappers

  // ---------- Single pieces ----------

  lemma LeansTogether(a: seq<Piece>, s: Tally, b: seq<Piece>, t: Tally)
    requires LeansBy(a, s) && LeansBy(b, t)
    ensures LeansBy(a + b, s.Plus(t))
  {
    hide Render, TextLeansIn, Commaless;
    RenderConcat();
    CommalessConcat();
    BothLean(Render(a), s, Render(b), t);
  }

  lemma PieceLeans(piece: Piece, t: Tally)
    requires TextLeans(PieceText(piece), t)
    requires t.commas == 0 ==> piece == Text(",") || CommaFree(PieceText(piece))
    ensures LeansBy([piece], t)
  {
    hide Render, TextLeansIn;
    RenderOne();
    CommalessOne();
  }

  lemma LeafLeans(t: Token)
    requires PlainLeaf(t)
    ensures LeansBy([Text(Str(t))], NONE)
  {
    hide TextLeansIn;
    BareLeans(Str(t));
    PieceLeans(Text(Str(t)), NONE);
  }

  /** The first token of a region, or the token that ends it. */
  lemma AheadLexed(trees: seq<Tree>, after: Token)
    requires Lexed(trees) && Closing(after)
    ensures var t := Ahead(trees, after); IsBracket(t) || PlainLeaf(t)
  {
    LexedDrop(trees);
    if DropSpace(trees) != [] {
      LexedHead(DropSpace(trees));
    }
  }

  /** The text of one token. */
  lemma TokenLeans(t: Token)
    requires IsBracket(t) || PlainLeaf(t)
    ensures TextLeansIn(Str(t), RightTally(t), 1) && (RightTally(t).commas == 0 ==> CommaFree(Str(t)))
  {
    OneBracket(Parens, '(');
    OneBracket(Parens, ')');
    OneBracket(Parens, '{');
    OneBracket(Parens, '}');
    OneBracket(Braces, '(');
    OneBracket(Braces, ')');
    OneBracket(Braces, '{');
    OneBracket(Braces, '}');
    if !IsBracket(t) {
      BareLeans(Str(t));
    }
  }

  /** A comparison has the brackets of its right side. */
  lemma ComparisonLeans(left: Symbol, op: string, right: Token)
    requires Bare(left.text) && Free(op) && CommaFree(op) && (IsBracket(right) || PlainLeaf(right))
    ensures LeansBy([Compared(left, op, right)], RightTally(right))
  {
    hide TextLeansIn, RightTally, Free, PlainLeaf;
    TokenLeans(right);
    var front := left.text + " " + op + " ";
    SpaceIsFree();
    FreeConcat(left.text, " ");
    FreeConcat(left.text + " ", op);
    FreeConcat(left.text + " " + op, " ");
    AllLeans(front, Str(right), RightTally(right));
    assert "all(" + (front + Str(right)) + ")" == "all(" + left.text + " " + op + " " + Str(right) + ")";
    PieceLeans(Compared(left, op, right), RightTally(right));
  }

  lemma SpaceIsFree()
    ensures Free(" ")
  {
  }

  /** The text of a comparison. */
  lemma AllLeans(front: string, right: string, t: Tally)
    requires Free(front) && TextLeansIn(right, t, 1)
    ensures TextLeans("all(" + (front + right) + ")", t)
  {
    hide TextLeansIn, Free;
    assert "" + right == right && "" + front + right == front + right;
    Gap("", front, right, t, 1);
    Wrapped(front + right, t, 0);
    AllIsFree();
    WithBare("(" + (front + right) + ")", t, "all");
    assert "all" + "(" == "all(";
    assert "all" + ("(" + (front + right) + ")") == "all(" + (front + right) + ")";
  }

  lemma AllIsFree()
    ensures Free("all")
  {
  }

  // ---------- Names and brackets ----------

  lemma NameLeans(c: Context, prev: Token, n: Symbol, rest: seq<Tree>, after: Token)
    requires PlainNames(c) && Bare(n.text) && Lexed(rest) && Closing(after)
    requires if n in c.sh.words then c.sh.words[n].Rewritten? else !c.sh.IsTexture(n)
    ensures var o := EmitName(c, prev, n, rest, after);
            && o.Emits? && o.value.last == Name(n) && o.value.rest == rest
            && LeansBy(o.value.out, NameSlant(c, prev, n, rest, after))
  {
    hide LeansBy, Ahead, Bare, LooksAhead, NameSlant, EmitName, RightTally, PlainNames, Lexed, NameText;
    NamePieces(c, prev, n, rest, after);
    if n in c.sh.words {
      WordLean(c, n);
    } else if rest != [] && LooksAhead(c, prev, n, Head(rest[0])) {
      LooksAtComparison(c, prev, n, Head(rest[0]));
      RightLeans(c, n, rest, after);
    } else {
      NoComparisonAtEnd(c, prev, n, after);
      PlainNameLeans(c, prev, n, if rest == [] then after else Head(rest[0]));
    }
  }

  /** The three kinds of pieces that a name becomes, and their tallies. */
  lemma NamePieces(c: Context, prev: Token, n: Symbol, rest: seq<Tree>, after: Token)
    requires if n in c.sh.words then c.sh.words[n].Rewritten? else !c.sh.IsTexture(n)
    requires Closing(after)
    ensures var o, t := EmitName(c, prev, n, rest, after), NameSlant(c, prev, n, rest, after);
            && o.Emits? && o.value.last == Name(n) && o.value.rest == rest
            && if n in c.sh.words then o.value.out == [Text(c.sh.words[n].text)] && t == NONE
               else if rest != [] && LooksAhead(c, prev, n, Head(rest[0]))
               then Head(rest[0]).Compare?
                    && o.value.out == [Compared(n, Head(rest[0]).op, Ahead(rest[1..], after))]
                    && t == RightTally(Ahead(rest[1..], after))
               else o.value.out == [NameText(c, prev, n, if rest == [] then after else Head(rest[0]), End)] && t == NONE
  {
    hide Ahead, RightTally;
  }

  lemma LooksAtComparison(c: Context, prev: Token, n: Symbol, next: Token)
    requires LooksAhead(c, prev, n, next)
    ensures next.Compare?
  {
  }

  lemma NoComparisonAtEnd(c: Context, prev: Token, n: Symbol, after: Token)
    requires Closing(after)
    ensures !LooksAhead(c, prev, n, after)
  {
  }

  lemma WordLean(c: Context, n: Symbol)
    requires PlainNames(c) && n in c.sh.words && c.sh.words[n].Rewritten?
    ensures LeansBy([Text(c.sh.words[n].text)], NONE)
  {
    hide TextLeansIn;
    BareLeans(c.sh.words[n].text);
    PieceLeans(Text(c.sh.words[n].text), NONE);
  }

  lemma RightLeans(c: Context, n: Symbol, rest: seq<Tree>, after: Token)
    requires Bare(n.text) && Lexed(rest) && Closing(after) && rest != [] && Head(rest[0]).Compare?
    ensures LeansBy([Compared(n, Head(rest[0]).op, Ahead(rest[1..], after))], RightTally(Ahead(rest[1..], after)))
  {
    hide LeansBy, Ahead, Bare, RightTally, Lexed;
    LexedHead(rest);
    AheadLexed(rest[1..], after);
    assert LexedTree(rest[0]) && rest[0] == Leaf(Head(rest[0]));
    ComparisonLeans(n, Head(rest[0]).op, Ahead(rest[1..], after));
  }

  lemma PlainNameLeans(c: Context, prev: Token, n: Symbol, next: Token)
    requires PlainNames(c) && Bare(n.text) && !LooksAhead(c, prev, n, next)
    ensures LeansBy([NameText(c, prev, n, next, End)], NONE)
  {
    hide TextLeansIn;
    var piece := NameText(c, prev, n, next, End);
    assert forall i | 0 <= i < |n.text| :: !IsBracketChar(n.text[i]);
    assert Free(PieceText(piece)) && CommaFree(PieceText(piece));
    BareLeans(PieceText(piece));
    PieceLeans(piece, NONE);
  }

  /** Added arguments are names. */
  lemma {:induction false} ListedLean(c: Context, params: seq<Param>)
    requires PlainNames(c) && forall p | p in params :: NamesGlobal(c, p)
    ensures LeansBy(Listed(params), NONE)
    decreases params
  {
    hide TextLeansIn, PlainNames;
    BareLeans("");
    NothingLeans();
    if |params| >= 1 {
      ParamLeans(c, params[0]);
    }
    if |params| > 1 {
      ListedLean(c, params[1..]);
      SepLeans();
      LeansTogether([Extra(params[0])], NONE, SEP, NONE);
      LeansTogether([Extra(params[0])] + SEP, NONE, Listed(params[1..]), NONE);
    }
  }

  lemma NothingLeans()
    ensures LeansBy([], NONE)
  {
  }

  lemma SepLeans()
    ensures LeansBy(SEP, NONE)
  {
    RenderOne();
    CommalessOne();
    BareLeans(", ");
  }

  predicate NamesGlobal(c: Context, p: Param) {
    match p
    case UniformBlock => true
    case TextureParam(n) => n in c.sh.order
    case SamplerParam(n) => n in c.sh.samplers
  }

  lemma ParamLeans(c: Context, p: Param)
    requires PlainNames(c) && NamesGlobal(c, p)
    ensures LeansBy([Extra(p)], NONE)
  {
    hide TextLeansIn;
    BareLeans(ParamText(p));
    PieceLeans(Extra(p), NONE);
  }

  lemma {:induction false} TextureArgsGlobal(c: Context, names: seq<Symbol>)
    ensures forall p | p in TextureArgs(c.sh, names) :: NamesGlobal(c, p)
  {
    if names != [] {
      TextureArgsGlobal(c, names[..|names| - 1]);
    }
  }

  lemma {:induction false} SamplerArgsGlobal(c: Context, names: seq<Symbol>)
    ensures forall p | p in SamplerArgs(c.sh, names) :: NamesGlobal(c, p)
  {
    if names != [] {
      SamplerArgsGlobal(c, names[..|names| - 1]);
      SamplerParamsGlobal(c, Filter(c.sh.samplers, {names[|names| - 1]}));
      forall x | x in Filter(c.sh.samplers, {names[|names| - 1]}) ensures x in c.sh.samplers {
        FilterKeeps(c.sh.samplers, {names[|names| - 1]}, x);
      }
    }
  }

  lemma {:induction false} SamplerParamsGlobal(c: Context, names: seq<Symbol>)
    ensures forall p | p in SamplerParams(names) :: p.SamplerParam? && p.name in names
  {
    if names != [] {
      SamplerParamsGlobal(c, names[..|names| - 1]);
    }
  }

  lemma AddedLean(c: Context, prev: Token)
    requires PlainNames(c)
    ensures LeansBy(Listed(c.Added(prev)), NONE)
  {
    hide TextureArgs, SamplerArgs, LeansBy, PlainNames, Listed;
    if prev.Name? && prev.name in c.fs {
      TextureArgsGlobal(c, c.fs[prev.name].textures);
      SamplerArgsGlobal(c, c.fs[prev.name].samplers);
    }
    ListedLean(c, c.Added(prev));
  }

  lemma AroundLeans(open: string, content: seq<Piece>, close: string, t: Tally)
    requires LeansBy(content, t) && ((open == "(" && close == ")") || (open == "{" && close == "}"))
    ensures LeansBy([Text(open)] + content + [Text(close)], t)
  {
    hide Render, TextLeansIn, Commaless;
    RenderConcat();
    RenderOne();
    CommalessConcat();
    CommalessOne();
    EnclosedLeans(Render(content), t);
    BracedLeans(Render(content), t);
  }

  lemma ParenthesisLeans(c: Context, prev: Token, content: seq<Piece>, t: Tally)
    requires PlainNames(c) && LeansBy(content, t)
    ensures var r := Parenthesis(c, prev, content); r.Some? ==> LeansBy(r.value, t)
  {
    hide LeansBy, Int3, Listed, PlainNames;
    AddedLean(c, prev);
    Int3Leans(content, t);
    var inner := if prev == Name(INT3) then Int3(content) else Some(content);
    var added := Listed(c.Added(prev));
    if inner.Some? {
      TailLeans(inner.value, t, added);
    }
  }

  lemma TailLeans(inner: seq<Piece>, t: Tally, added: seq<Piece>)
    requires LeansBy(inner, t) && LeansBy(added, NONE)
    ensures var tail := if added == [] then [] else SEP + added;
            LeansBy([Text("(")] + inner + tail + [Text(")")], t)
  {
    hide LeansBy;
    var tail := if added == [] then [] else SEP + added;
    SepLeans();
    NothingLeans();
    LeansTogether(SEP, NONE, added, NONE);
    LeansTogether(inner, t, tail, NONE);
    AroundLeans("(", inner + tail, ")", t);
    assert [Text("(")] + (inner + tail) + [Text(")")] == [Text("(")] + inner + tail + [Text(")")];
  }

  // ---------- The induction ----------

  /** An item has the brackets of its own tally, and the rest of the region those of the rest. */
  ghost predicate Shares(c: Context, item: Item, after: Token, all: Tally, own: Tally) {
    all == own.Plus(Slant(c, item.last, item.rest, after)) && LeansBy(item.out, own) && Lexed(item.rest)
  }

  lemma {:induction false} EmitLeans(c: Context, prev: Token, trees: seq<Tree>, after: Token)
    requires PlainNames(c) && Lexed(trees) && Closing(after)
    ensures var o := Emit(c, prev, trees, after); o.Emits? ==> LeansBy(o.value, Slant(c, prev, trees, after))
    decreases Size(trees), 4
  {
    hide Emit, EmitItem, Slant, Lexed, LeansBy, PlainNames, Size;
    if trees == [] {
      EmitNothing(c, prev, after);
      NothingSlants(c, prev, after);
      NothingLeans();
    } else {
      EmitStep(c, prev, trees, after);
      var o := EmitItem(c, prev, trees, after);
      if o.Emits? {
        var own := ItemLeans(c, prev, trees, after);
        EmitLeans(c, o.value.last, o.value.rest, after);
        var e := Emit(c, o.value.last, o.value.rest, after);
        if e.Emits? {
          LeansTogether(o.value.out, own, e.value, Slant(c, o.value.last, o.value.rest, after));
        }
      }
    }
  }

  lemma {:induction false} ItemLeans(c: Context, prev: Token, trees: seq<Tree>, after: Token) returns (own: Tally)
    requires PlainNames(c) && Lexed(trees) && Closing(after) && trees != [] && EmitItem(c, prev, trees, after).Emits?
    ensures Shares(c, EmitItem(c, prev, trees, after).value, after, Slant(c, prev, trees, after), own)
    decreases Size(trees), 3
  {
    hide Emit, EmitName, Parenthesis, Slant, NameSlant, Lexed, LeansBy, PlainNames, PlainLeaf;
    SlantStep(c, prev, trees, after);
    LexedHead(trees);
    match trees[0]
    case Leaf(t) =>
      if t.Name? {
        NameIsBare(t);
        own := NameItemLeans(c, prev, t, trees[1..], after);
      } else {
        LeafLeans(t);
        own := NONE;
      }
    case Brace(kids) =>
      EmitLeans(c, OpenBrace, kids, CloseBrace);
      own := Slant(c, OpenBrace, kids, CloseBrace);
      AroundLeans("{", Emit(c, OpenBrace, kids, CloseBrace).value, "}", own);
    case Paren(kids) =>
      EmitLeans(c, OpenParen, kids, CloseParen);
      own := Slant(c, OpenParen, kids, CloseParen);
      ParenthesisLeans(c, prev, Emit(c, OpenParen, kids, CloseParen).value, own);
  }

  lemma NameIsBare(t: Token)
    requires PlainLeaf(t) && t.Name?
    ensures Bare(t.name.text)
  {
  }

  lemma {:induction false} NameItemLeans(c: Context, prev: Token, t: Token, rest: seq<Tree>, after: Token)
    returns (own: Tally)
    requires PlainNames(c) && t.Name? && Bare(t.name.text) && Lexed(rest) && Closing(after)
    requires EmitName(c, prev, t.name, rest, after).Emits?
    ensures Shares(c, EmitName(c, prev, t.name, rest, after).value, after,
                   NameSlant(c, prev, t.name, rest, after).Plus(Slant(c, t, rest, after)), own)
    decreases Size(rest), 9
  {
    hide EmitName, EmitProduct, EmitProductSum, EmitSampler, Slant, Lexed, LeansBy, PlainNames, Bare, LoadKids,
         LoadTally, Ahead, LooksAhead, RightTally;
    var n := t.name;
    NameIsCall(c, prev, n, rest, after);
    if n in c.sh.words && c.sh.words[n].Multiply? {
      own := ProductItemLeans(c, t, rest, after);
    } else if n in c.sh.words && c.sh.words[n].MultiplyAdd? {
      own := ProductSumItemLeans(c, t, rest, after);
    } else if n !in c.sh.words && c.sh.IsTexture(n) {
      own := SamplerItemLeans(c, t, rest, after);
    } else {
      own := NameSlant(c, prev, n, rest, after);
      NameLeans(c, prev, n, rest, after);
    }
  }

  lemma {:induction false} ProductItemLeans(c: Context, prev: Token, rest: seq<Tree>, after: Token) returns (own: Tally)
    requires PlainNames(c) && Lexed(rest) && EmitProduct(c, rest).Emits?
    ensures Shares(c, EmitProduct(c, rest).value, after, Slant(c, prev, rest, after), own)
    decreases Size(rest), 8
  {
    hide Emit, Slant, Lexed, LeansBy, PlainNames, NextGroup, BeforeComma, AfterComma, TopCommas, DropSpace, Size;
    var kids := NextGroup(rest).value.kids;
    var first, second := BeforeComma(kids), AfterComma(kids);
    LexedGroup(rest);
    LexedParts(kids);
    LexedDrop(second);
    SlantGroup(c, prev, rest, after);
    SlantParts(c, OpenParen, kids, CloseParen);
    SlantDrop(c, Comma, second, CloseParen);
    assert Size(first) + 1 + Size(second) == Size(kids);
    EmitLeans(c, OpenParen, first, Comma);
    EmitLeans(c, Comma, DropSpace(second), CloseParen);
    own := Slant(c, OpenParen, kids, CloseParen);
    ProductPieces(Emit(c, OpenParen, first, Comma).value, Slant(c, OpenParen, first, Comma),
                  Emit(c, Comma, DropSpace(second), CloseParen).value, Slant(c, Comma, DropSpace(second), CloseParen));
  }

  lemma ProductPieces(a: seq<Piece>, s: Tally, b: seq<Piece>, t: Tally)
    requires LeansBy(a, s) && LeansBy(b, t)
    ensures LeansBy(ProductText(a, b), s.Plus(t))
  {
    hide Render, TextLeansIn, Commaless;
    RenderConcat();
    RenderOne();
    CommalessConcat();
    CommalessOne();
    ProductLeans(Render(a), s, Render(b), t);
  }

  /** The tallies of the arguments of a call add up to that of its parenthesis. */
  function Sum(tallies: seq<Tally>): Tally {
    if tallies == [] then NONE else tallies[0].Plus(Sum(tallies[1..]))
  }

  ghost predicate AllLean(args: seq<seq<Piece>>, tallies: seq<Tally>) {
    |args| == |tallies| && forall i | 0 <= i < |args| :: LeansBy(args[i], tallies[i])
  }

  lemma SumOf(tallies: seq<Tally>)
    ensures |tallies| == 1 ==> Sum(tallies) == tallies[0]
    ensures |tallies| == 2 ==> Sum(tallies) == tallies[0].Plus(tallies[1])
    ensures |tallies| == 3 ==> Sum(tallies) == tallies[0].Plus(tallies[1]).Plus(tallies[2])
    ensures |tallies| == 4 ==> Sum(tallies) == tallies[0].Plus(tallies[1]).Plus(tallies[2]).Plus(tallies[3])
  {
    if 1 <= |tallies| <= 4 {
      var a := tallies[1..];
      if |a| > 0 {
        var b := a[1..];
        assert Sum(a) == a[0].Plus(Sum(b));
        if |b| > 0 {
          var d := b[1..];
          assert Sum(b) == b[0].Plus(Sum(d));
          if |d| > 0 {
            assert Sum(d) == d[0].Plus(Sum(d[1..]));
          }
        }
      }
    }
  }

  lemma {:induction false} ArgumentsLean(c: Context, prev: Token, kids: seq<Tree>, n: nat) returns (tallies: seq<Tally>)
    requires PlainNames(c) && Lexed(kids) && n > 0 && EmitArguments(c, prev, kids, n).Emits?
    ensures AllLean(EmitArguments(c, prev, kids, n).value, tallies) && Sum(tallies) == Slant(c, prev, kids, CloseParen)
    decreases Size(kids), 5, n
  {
    hide Emit, Slant, Lexed, LeansBy, PlainNames, BeforeComma, AfterComma, TopCommas, Size;
    if n == 1 {
      EmitLeans(c, prev, kids, CloseParen);
      tallies := [Slant(c, prev, kids, CloseParen)];
      SumOf(tallies);
    } else {
      var first, second := BeforeComma(kids), AfterComma(kids);
      assert Size(first) + 1 + Size(second) == Size(kids);
      LexedParts(kids);
      SlantParts(c, prev, kids, CloseParen);
      EmitLeans(c, prev, first, Comma);
      var others := ArgumentsLean(c, Comma, second, n - 1);
      tallies := [Slant(c, prev, first, Comma)] + others;
      assert tallies[1..] == others;
    }
  }

  lemma {:induction false} ProductSumItemLeans(c: Context, prev: Token, rest: seq<Tree>, after: Token)
    returns (own: Tally)
    requires PlainNames(c) && Lexed(rest) && EmitProductSum(c, rest).Emits?
    ensures Shares(c, EmitProductSum(c, rest).value, after, Slant(c, prev, rest, after), own)
    decreases Size(rest), 8
  {
    hide EmitArguments, Slant, Lexed, LeansBy, PlainNames, NextGroup, Size, MultiplyAddText, Sum;
    var kids := NextGroup(rest).value.kids;
    LexedGroup(rest);
    SlantGroup(c, prev, rest, after);
    var tallies := ArgumentsLean(c, OpenParen, kids, 3);
    own := Slant(c, OpenParen, kids, CloseParen);
    ProductSumPieces(EmitArguments(c, OpenParen, kids, 3).value, tallies);
  }

  lemma ProductSumPieces(args: seq<seq<Piece>>, tallies: seq<Tally>)
    requires |args| == 3 && AllLean(args, tallies)
    ensures LeansBy(MultiplyAddText(args), Sum(tallies))
  {
    hide Render, TextLeansIn, Commaless, Sum;
    RenderConcat();
    RenderOne();
    CommalessConcat();
    CommalessOne();
    SumOf(tallies);
    ProductSumLeans(Render(args[0]), tallies[0], Render(args[1]), tallies[1], Render(args[2]), tallies[2]);
  }

  lemma {:induction false} SamplerItemLeans(c: Context, t: Token, rest: seq<Tree>, after: Token) returns (own: Tally)
    requires t.Name? && t.name !in c.sh.words && c.sh.IsTexture(t.name)
    requires PlainNames(c) && Lexed(rest) && EmitSampler(c, t.name, rest).Emits?
    ensures Shares(c, EmitSampler(c, t.name, rest).value, after,
                   NameSlant(c, t, t.name, rest, after).Plus(Slant(c, t, rest, after)), own)
    decreases Size(rest), 8
  {
    hide Slant, Lexed, LeansBy, PlainNames, DropSpace, NextGroup, EmitTextureCall, LoadTally;
    var dot := DropSpace(rest);
    var m := DropSpace(dot[1..]);
    LexedDrop(rest);
    LexedDrop(dot[1..]);
    CallGroupIs(c, t.name, c.sh.methods[m[0].t.name], m[1..]);
    SlantPass(c, t, rest, after);
    SlantPass(c, Dot, dot[1..], after);
    own := TextureItemLeans(c, t.name, c.sh.methods[m[0].t.name], m[0].t, m[1..], after);
  }

  lemma CallGroupIs(c: Context, n: Symbol, v: Sampling, rest: seq<Tree>)
    requires EmitTextureCall(c, n, v, rest).Emits?
    ensures NextGroup(rest).Some? && rest != [] && !Head(rest[0]).Compare? && LoadKids(c, rest).None?
  {
  }

  lemma {:induction false} TextureItemLeans(c: Context, n: Symbol, v: Sampling, prev: Token, rest: seq<Tree>,
                                            after: Token) returns (own: Tally)
    requires PlainNames(c) && Lexed(rest) && EmitTextureCall(c, n, v, rest).Emits? && c.sh.IsTexture(n)
    ensures var load := if v.Load? then LoadTally(c, NextGroup(rest).value.kids) else NONE;
            Shares(c, EmitTextureCall(c, n, v, rest).value, after, load.Plus(Slant(c, prev, rest, after)), own)
    decreases Size(rest), 8
  {
    hide EmitArguments, Slant, Lexed, LeansBy, NextGroup, Size, CallText, LoadTally;
    var kids := NextGroup(rest).value.kids;
    LexedGroup(rest);
    SlantGroup(c, prev, rest, after);
    var out := CallText(v, EmitArguments(c, OpenParen, kids, Arity(v)).value).value;
    own := CallItemLeans(c, v, kids);
    TextureLeans(c, n);
    LeansTogether([Texture(n), Text(".")], NONE, out, own);
  }

  lemma TextureLeans(c: Context, n: Symbol)
    requires PlainNames(c) && c.sh.IsTexture(n)
    ensures LeansBy([Texture(n), Text(".")], NONE)
  {
    hide TextLeansIn;
    BareLeans(n.text);
    BareLeans(".");
    PieceLeans(Texture(n), NONE);
    PieceLeans(Text("."), NONE);
    LeansTogether([Texture(n)], NONE, [Text(".")], NONE);
    assert [Texture(n)] + [Text(".")] == [Texture(n), Text(".")];
  }

  /** The text of a texture call. */
  lemma {:induction false} CallItemLeans(c: Context, v: Sampling, kids: seq<Tree>) returns (own: Tally)
    requires PlainNames(c) && Lexed(kids) && EmitArguments(c, OpenParen, kids, Arity(v)).Emits?
    requires CallText(v, EmitArguments(c, OpenParen, kids, Arity(v)).value).Some?
    ensures own == (if v.Load? then LoadTally(c, kids) else NONE).Plus(Slant(c, OpenParen, kids, CloseParen))
    ensures LeansBy(CallText(v, EmitArguments(c, OpenParen, kids, Arity(v)).value).value, own)
    decreases Size(kids), 6
  {
    hide Emit, Slant, Lexed, LeansBy, PlainNames, Size, LoadText, LoadTally, Sum;
    var inside := Slant(c, OpenParen, kids, CloseParen);
    own := (if v.Load? then LoadTally(c, kids) else NONE).Plus(inside);
    if v.Load? {
      EmitLeans(c, OpenParen, kids, CloseParen);
      OneArgument(c, kids);
      LoadItemLeans(c, kids, Emit(c, OpenParen, kids, CloseParen).value, inside);
    } else {
      var tallies := ArgumentsLean(c, OpenParen, kids, Arity(v));
      SamplingLeans(v, EmitArguments(c, OpenParen, kids, Arity(v)).value, tallies);
    }
  }

  lemma SamplingLeans(v: Sampling, args: seq<seq<Piece>>, tallies: seq<Tally>)
    requires !v.Load? && |args| == Arity(v) && AllLean(args, tallies)
    ensures CallText(v, args).Some? && LeansBy(CallText(v, args).value, Sum(tallies))
  {
    hide Render, TextLeansIn, Commaless, Sum, CallText;
    SumOf(tallies);
    CallIsWritten(v, args);
    SamplingCommaless(v, args);
    var a, b := Render(args[0]), Render(args[1]);
    PairLeans(a, tallies[0], b, tallies[1]);
    match v
    case Sample =>
      CallLeans("sample", a + ", " + b, tallies[0].Plus(tallies[1]));
      assert "sample" + "(" == "sample(" && "sample" + "(" + (a + ", " + b) + ")" == "sample(" + a + ", " + b + ")";
    case SampleBias =>
      WordLeans("bias", a, b, Render(args[2]), tallies[0].Plus(tallies[1]), tallies[2]);
      assert "bias" + "(" == "bias(";
    case SampleLevel =>
      WordLeans("level", a, b, Render(args[2]), tallies[0].Plus(tallies[1]), tallies[2]);
      assert "level" + "(" == "level(";
    case SampleGrad =>
      PairLeans(Render(args[2]), tallies[2], Render(args[3]), tallies[3]);
      WordLeans("gradient2d", a, b, Render(args[2]) + ", " + Render(args[3]), tallies[0].Plus(tallies[1]),
                tallies[2].Plus(tallies[3]));
      assert "gradient2d" + "(" == "gradient2d(";
      Regrouped("sample(" + a + ", " + b + ", " + "gradient2d(", Render(args[2]), Render(args[3]));
  }

  lemma Regrouped(front: string, d: string, e: string)
    ensures front + (d + ", " + e) + "))" == front + d + ", " + e + "))"
  {
  }

  lemma WordLeans(word: string, a: string, b: string, d: string, s: Tally, t: Tally)
    requires Free(word) && TextLeans(a + ", " + b, s) && TextLeans(d, t)
    ensures TextLeans("sample(" + a + ", " + b + ", " + (word + "(") + d + "))", s.Plus(t))
    ensures forall text: string {:trigger text + ""} :: text + "" == text
  {
    hide TextLeansIn;
    var pair := a + ", " + b;
    CallLeans(word, d, t);
    PairLeans(pair, s, word + "(" + d + ")", t);
    CallLeans("sample", pair + ", " + (word + "(" + d + ")"), s.Plus(t));
    assert "sample" + "(" == "sample(" && ")" + ")" == "))";
    assert "sample" + "(" + (pair + ", " + (word + "(" + d + ")")) + ")"
        == "sample(" + a + ", " + b + ", " + (word + "(") + d + "))";
  }

  lemma SamplingCommaless(v: Sampling, args: seq<seq<Piece>>)
    requires !v.Load? && |args| == Arity(v)
    ensures CallText(v, args).Some?
    ensures (forall i | 0 <= i < |args| :: Commaless(args[i])) ==> Commaless(CallText(v, args).value)
  {
    hide Commaless, LoadText;
    CommalessConcat();
    WordsCommaless();
  }

  lemma WordsCommaless()
    ensures Commaless(SEP) && Commaless([Text("sample(")]) && Commaless([Text("bias(")])
    ensures Commaless([Text("gradient2d(")]) && Commaless([Text("level(")])
    ensures Commaless([Text(")")]) && Commaless([Text("))")])
  {
    hide Commaless;
    CommalessOne();
  }

  lemma LoadItemLeans(c: Context, kids: seq<Tree>, first: seq<Piece>, t: Tally)
    requires PlainNames(c) && Lexed(kids) && Emit(c, OpenParen, kids, CloseParen) == Emits(first) && LeansBy(first, t)
    ensures LoadText(first).Some? ==> LeansBy(LoadText(first).value, LoadTally(c, kids).Plus(t))
  {
    hide Emit, Render, TextLeansIn, Commaless, LoadText, StartsInt3, LeafPiece, Prior;
    EmitStartsInt3(c, kids, CloseParen);
    if !TextStartsInt3(first) {
      PlainLoadLeans(first, t);
    } else if |first| == 2 {
      ShortLoad(first);
    } else {
      StartsWithTrees(c, kids);
      EmitEndsAs(c, OpenParen, kids, CloseParen);
      var last := LastCharacter(c, kids, first);
      Int3LoadLeans(first, t, last, LoadTally(c, kids));
    }
  }

  /** The last character is that of the last token. */
  lemma LastCharacter(c: Context, kids: seq<Tree>, first: seq<Piece>) returns (last: char)
    requires PlainNames(c) && Lexed(kids) && StartsInt3(c, kids) && kids != [] && |first| > 2
    requires EndsAs(c, OpenParen, kids, CloseParen, first)
    ensures var text := Render(first[2..]); text != "" && text[|text| - 1] == last
    ensures Loses(last, LoadTally(c, kids))
  {
    hide Render, StartsInt3, Prior, NameText;
    RenderConcat();
    RenderOne();
    var piece := first[|first| - 1];
    if kids[|kids| - 1].Leaf? {
      LastLeafIsBare(c, kids);
    }
    assert first[2..] == first[2..|first| - 1] + [piece];
    var text := PieceText(piece);
    last := text[|text| - 1];
    assert Render(first[2..]) == Render(first[2..|first| - 1]) + text;
  }

  lemma LastLeafIsBare(c: Context, kids: seq<Tree>)
    requires PlainNames(c) && Lexed(kids) && kids != [] && kids[|kids| - 1].Leaf?
    ensures var text := PieceText(LeafPiece(c, Prior(OpenParen, kids), kids[|kids| - 1].t, CloseParen));
            text != "" && Free(text)
  {
    hide Prior;
    assert LexedTree(kids[|kids| - 1]);
  }

  // ---------- Whole regions ----------

  /**
    The brackets of the emitted text: of each kind those that the tally says are too many or too few. They are balanced
    if the tally is clear, and only then as long as what it says does not make up for each other.
   */
  ghost predicate Account(text: string, t: Tally) {
    && Net(Parens, text) == t.Excess(Parens) && Net(Braces, text) == t.Excess(Braces)
    && (t.Clear() ==> Balanced(Parens, text) && Balanced(Braces, text))
    && (t.closes == t.closesBrace == 0 && (t.opens == t.opensBrace == 0 || t.lost == t.lostBrace == 0) ==>
          (Balanced(Parens, text) && Balanced(Braces, text) <==> t.Clear()))
  }

  lemma EmitIsBalanced(c: Context, prev: Token, trees: seq<Tree>, after: Token)
    requires PlainNames(c) && Lexed(trees) && Closing(after)
    ensures var o := Emit(c, prev, trees, after);
            o.Emits? ==> Account(Render(o.value), Slant(c, prev, trees, after))
  {
    hide Emit, Render, Slant;
    EmitLeans(c, prev, trees, after);
  }

  /** The same of a whole function body, whose calls have enough arguments. */
  lemma BodyIsBalanced(c: Context, ts: seq<Token>, p: nat, body: seq<Tree>, s: Scan)
    requires Stream(ts) && Proper(body) && RegionTree(ts, p, Brace(body)) && CallsFit(c.sh, body)
    requires PlainNames(c) && Lexed(body) && Content(c, ts, p, CloseBrace) == Some(s)
    ensures Account(Render(s.out), Slant(c, OpenBrace, body, CloseBrace))
  {
    hide Content, Emit, Account, CallsFit, Lexed;
    ScanConsumesBody(c, ts, p, body);
    EmitStays(c, OpenBrace, body, CloseBrace);
    EmitIsBalanced(c, OpenBrace, body, CloseBrace);
  }
}
