/**
  How the text of a region starts and ends: with that of its first and of its last token. The rewriting of `Load`
  depends on both.
 */
module ShaderEnds {
  import opened ShaderAnalysis
  import opened ShaderEmit
  import opened ShaderScan
  import opened ShaderSyntax
  import opened Wrappers

  /** The last token of a tree. */
  function Last(tree: Tree): Token {
    match tree
    case Leaf(t) => t
    case Paren(_) => CloseParen
    case Brace(_) => CloseBrace
  }

  // ---------- What an item takes ----------

  /** The trees from the first one that follows a parenthesis. */
  predicate BehindParen(rest: seq<Tree>, trees: seq<Tree>) {
    var k := |trees| - |rest|;
    0 < k && rest == trees[k..] && trees[k - 1].Paren?
  }

  /** An item is a single tree, or it ends in a parenthesis. */
  predicate Spans(item: Item, trees: seq<Tree>) {
    var k := |trees| - |item.rest|;
    0 < k && item.rest == trees[k..] && item.last == Last(trees[k - 1]) && (k > 1 ==> trees[k - 1].Paren?)
  }

  lemma {:induction false} DropIsSuffix(trees: seq<Tree>)
    ensures DropSpace(trees) == trees[|trees| - |DropSpace(trees)|..]
  {
    if trees != [] && IsSpace(trees[0]) {
      DropIsSuffix(trees[1..]);
    }
  }

  lemma GroupIsBehind(trees: seq<Tree>)
    requires NextGroup(trees).Some?
    ensures BehindParen(NextGroup(trees).value.rest, trees)
  {
    DropIsSuffix(trees);
  }

  lemma BehindInside(rest: seq<Tree>, inner: seq<Tree>, trees: seq<Tree>)
    requires BehindParen(rest, inner) && |inner| <= |trees| && inner == trees[|trees| - |inner|..]
    ensures BehindParen(rest, trees)
  {
  }

  lemma NameSpans(c: Context, prev: Token, n: Symbol, rest: seq<Tree>, after: Token)
    ensures var o := EmitName(c, prev, n, rest, after);
            o.Emits? ==> (o.value.rest == rest && o.value.last == Name(n))
                         || (BehindParen(o.value.rest, rest) && o.value.last == CloseParen)
  {
    hide Emit, EmitArguments, NextGroup, EmitSampler, NameText, LooksAhead, BehindParen;
    if NextGroup(rest).Some? {
      GroupIsBehind(rest);
    }
    if n !in c.sh.words && c.sh.IsTexture(n) {
      SamplerSpans(c, n, rest);
    }
  }

  lemma SamplerSpans(c: Context, n: Symbol, rest: seq<Tree>)
    ensures var o := EmitSampler(c, n, rest);
            o.Emits? ==> BehindParen(o.value.rest, rest) && o.value.last == CloseParen
  {
    hide DropSpace, EmitTextureCall, BehindParen;
    var dot := DropSpace(rest);
    if dot != [] && dot[0] == Leaf(Dot) {
      var m := DropSpace(dot[1..]);
      if m != [] && m[0].Leaf? && m[0].t.Name? && m[0].t.name in c.sh.methods {
        DropIsSuffix(rest);
        DropIsSuffix(dot[1..]);
        TextureCallSpans(c, n, c.sh.methods[m[0].t.name], m[1..]);
        var o := EmitTextureCall(c, n, c.sh.methods[m[0].t.name], m[1..]);
        if o.Emits? {
          BehindInside(o.value.rest, m[1..], rest);
        }
      }
    }
  }

  lemma TextureCallSpans(c: Context, n: Symbol, v: Sampling, rest: seq<Tree>)
    ensures var o := EmitTextureCall(c, n, v, rest);
            o.Emits? ==> BehindParen(o.value.rest, rest) && o.value.last == CloseParen
  {
    hide CallText, EmitArguments, NextGroup, BehindParen;
    if NextGroup(rest).Some? {
      GroupIsBehind(rest);
    }
  }

  lemma ItemSpans(c: Context, prev: Token, trees: seq<Tree>, after: Token)
    requires trees != []
    ensures var o := EmitItem(c, prev, trees, after); o.Emits? ==> Spans(o.value, trees)
  {
    hide Emit, EmitName, Parenthesis, Spans, BehindParen;
    var o := EmitItem(c, prev, trees, after);
    if trees[0].Leaf? && trees[0].t.Name? {
      NameSpans(c, prev, trees[0].t.name, trees[1..], after);
    }
    if o.Emits? && o.value.rest == trees[1..] && o.value.last == Last(trees[0]) {
      SpansOne(o.value, trees);
    } else if o.Emits? {
      SpansMore(o.value, trees);
    }
  }

  lemma SpansOne(item: Item, trees: seq<Tree>)
    requires trees != [] && item.rest == trees[1..] && item.last == Last(trees[0])
    ensures Spans(item, trees)
  {
  }

  lemma SpansMore(item: Item, trees: seq<Tree>)
    requires trees != [] && BehindParen(item.rest, trees[1..]) && item.last == CloseParen
    ensures Spans(item, trees)
  {
  }

  // ---------- The last piece ----------

  /** What a name of the language starts with. */
  predicate IsWord(text: string) {
    text != "" && ('a' <= text[0] <= 'z' || 'A' <= text[0] <= 'Z' || text[0] == '_')
  }

  /** The text of a token that ends its region. */
  function LeafPiece(c: Context, prev: Token, t: Token, after: Token): Piece {
    if !t.Name? then Text(Str(t))
    else if t.name in c.sh.words then Text(if c.sh.words[t.name].Rewritten? then c.sh.words[t.name].text else Str(t))
    else NameText(c, prev, t.name, after, End)
  }

  /** The token before the last tree. */
  function Prior(prev: Token, trees: seq<Tree>): Token
    requires trees != []
  {
    if |trees| == 1 then prev else Last(trees[|trees| - 2])
  }

  /** The last piece is text that ends with this bracket, and no word. */
  predicate EndsIn(out: seq<Piece>, bracket: char) {
    && out != [] && out[|out| - 1].Text? && out[|out| - 1].text != "" && !IsWord(out[|out| - 1].text)
    && out[|out| - 1].text[|out[|out| - 1].text| - 1] == bracket
  }

  /** How the text of a region ends that ends with this tree. */
  predicate EndsAs(c: Context, prev: Token, trees: seq<Tree>, after: Token, out: seq<Piece>)
    requires trees != []
  {
    var last := trees[|trees| - 1];
    match last
    case Leaf(t) => out != [] && out[|out| - 1] == LeafPiece(c, Prior(prev, trees), t, after)
    case Paren(_) => EndsIn(out, ')')
    case Brace(_) => EndsIn(out, '}')
  }

  lemma LoadCloses(first: seq<Piece>)
    ensures LoadText(first).Some? ==> EndsIn(LoadText(first).value, ')')
  {
    hide Split, DropLast;
  }

  lemma CallCloses(n: Symbol, v: Sampling, args: seq<seq<Piece>>)
    requires |args| == Arity(v)
    ensures CallText(v, args).Some? ==> EndsIn([Texture(n), Text(".")] + CallText(v, args).value, ')')
  {
    hide LoadText;
    if v.Load? {
      LoadCloses(args[0]);
    }
  }

  lemma NameCloses(c: Context, prev: Token, n: Symbol, rest: seq<Tree>, after: Token)
    ensures var o := EmitName(c, prev, n, rest, after); o.Emits? && |o.value.rest| < |rest| ==> EndsIn(o.value.out, ')')
  {
    hide Emit, EmitArguments, NextGroup, EmitSampler, NameText, LooksAhead;
    if n !in c.sh.words && c.sh.IsTexture(n) {
      SamplerCloses(c, n, rest);
    }
  }

  lemma SamplerCloses(c: Context, n: Symbol, rest: seq<Tree>)
    ensures var o := EmitSampler(c, n, rest); o.Emits? ==> EndsIn(o.value.out, ')')
  {
    hide DropSpace, EmitTextureCall, EndsIn;
    var dot := DropSpace(rest);
    if dot != [] && dot[0] == Leaf(Dot) {
      var m := DropSpace(dot[1..]);
      if m != [] && m[0].Leaf? && m[0].t.Name? && m[0].t.name in c.sh.methods {
        TextureCallCloses(c, n, c.sh.methods[m[0].t.name], m[1..]);
      }
    }
  }

  lemma TextureCallCloses(c: Context, n: Symbol, v: Sampling, rest: seq<Tree>)
    ensures var o := EmitTextureCall(c, n, v, rest); o.Emits? ==> EndsIn(o.value.out, ')')
  {
    hide CallText, EmitArguments, NextGroup, EndsIn;
    var g := NextGroup(rest);
    if g.Some? {
      var args := EmitArguments(c, OpenParen, g.value.kids, Arity(v));
      if args.Emits? {
        CallCloses(n, v, args.value);
      }
    }
  }

  /** The last item of a region. */
  lemma ItemEndsAs(c: Context, prev: Token, trees: seq<Tree>, after: Token)
    requires trees != []
    ensures var o := EmitItem(c, prev, trees, after);
            o.Emits? && o.value.rest == [] ==> EndsAs(c, prev, trees, after, o.value.out)
  {
    hide Emit, EmitName, Int3, Listed;
    ItemSpans(c, prev, trees, after);
    if trees[0].Leaf? && trees[0].t.Name? {
      if |trees| == 1 {
        NameAtEnd(c, prev, trees[0].t.name, after);
      } else {
        NameCloses(c, prev, trees[0].t.name, trees[1..], after);
      }
    }
  }

  lemma NameAtEnd(c: Context, prev: Token, n: Symbol, after: Token)
    ensures var o := EmitName(c, prev, n, [], after); o.Emits? ==> o.value.out == [LeafPiece(c, prev, Name(n), after)]
  {
  }

  lemma {:induction false} EmitEndsAs(c: Context, prev: Token, trees: seq<Tree>, after: Token)
    requires trees != []
    ensures var o := Emit(c, prev, trees, after); o.Emits? ==> EndsAs(c, prev, trees, after, o.value)
    decreases Size(trees)
  {
    hide EmitItem, Emit, LeafPiece, IsWord;
    EmitStep(c, prev, trees, after);
    var o := EmitItem(c, prev, trees, after);
    if o.Emits? {
      if o.value.rest == [] {
        ItemEndsAs(c, prev, trees, after);
        EmitNothing(c, o.value.last, after);
        assert o.value.out + [] == o.value.out;
      } else {
        ItemSpans(c, prev, trees, after);
        EmitEndsAs(c, o.value.last, o.value.rest, after);
      }
    }
  }

  // ---------- Calls ----------

  /** Which names are calls. */
  lemma NameIsCall(c: Context, prev: Token, n: Symbol, rest: seq<Tree>, after: Token)
    ensures var o := EmitName(c, prev, n, rest, after);
            && (n in c.sh.words && c.sh.words[n].Multiply? ==> o == EmitProduct(c, rest))
            && (n in c.sh.words && c.sh.words[n].MultiplyAdd? ==> o == EmitProductSum(c, rest))
            && (n in c.sh.words && c.sh.words[n].Unsupported? ==> o == Throws)
            && (n !in c.sh.words && c.sh.IsTexture(n) ==> o == EmitSampler(c, n, rest))
  {
    hide EmitProduct, EmitProductSum, EmitSampler;
  }

  // ---------- A leading `int3` ----------

  lemma OneArgument(c: Context, kids: seq<Tree>)
    ensures var o := EmitArguments(c, OpenParen, kids, 1);
            o.Emits? ==> Emit(c, OpenParen, kids, CloseParen) == Emits(o.value[0])
  {
    hide Emit;
  }

  /** The text of the tree starts with a parenthesis. */
  predicate Opens(c: Context, tree: Tree) {
    match tree
    case Paren(_) => true
    case Brace(_) => false
    case Leaf(t) =>
      if !t.Name? then Str(t) == "("
      else t.name in c.sh.words
           && (c.sh.words[t.name].Multiply? || c.sh.words[t.name] == Rewritten("("))
  }

  /** The region starts with a call of `int3`, and `int3` is no name of the shader. */
  predicate StartsInt3(c: Context, trees: seq<Tree>) {
    && |trees| >= 2 && trees[0] == Leaf(Name(INT3)) && !Head(trees[1]).Compare? && Opens(c, trees[1])
    && INT3 !in c.sh.words && INT3 !in c.sh.order && INT3 !in c.sh.paired
  }

  lemma StartsWithTrees(c: Context, kids: seq<Tree>)
    ensures StartsInt3(c, kids) ==> kids != []
  {
  }

  predicate TextStartsInt3(first: seq<Piece>) {
    |first| >= 2 && first[0] == Ident(INT3) && first[1] == Text("(")
  }

  lemma NameOpens(c: Context, prev: Token, n: Symbol, rest: seq<Tree>, after: Token)
    ensures var o := EmitName(c, prev, n, rest, after);
            o.Emits? ==> o.value.out != [] && (o.value.out[0] == Text("(") <==> Opens(c, Leaf(Name(n))))
  {
    hide Emit, EmitArguments, NextGroup, EmitSampler;
    SamplerOpens(c, n, rest);
    assert |n.text + "_Out"| > |"("|;
  }

  lemma SamplerOpens(c: Context, n: Symbol, rest: seq<Tree>)
    ensures var o := EmitSampler(c, n, rest); o.Emits? ==> o.value.out != [] && o.value.out[0] == Texture(n)
  {
    hide DropSpace, EmitArguments, NextGroup, CallText;
  }

  lemma ItemOpens(c: Context, prev: Token, trees: seq<Tree>, after: Token)
    requires trees != []
    ensures var o := EmitItem(c, prev, trees, after);
            o.Emits? ==> o.value.out != [] && (o.value.out[0] == Text("(") <==> Opens(c, trees[0]))
  {
    hide Emit, EmitName, Int3, Listed;
    if trees[0].Leaf? && trees[0].t.Name? {
      NameOpens(c, prev, trees[0].t.name, trees[1..], after);
    }
  }

  /** The first name of a region that is emitted as `int3` is `int3` itself. */
  lemma ItemIsInt3(c: Context, trees: seq<Tree>, after: Token)
    requires trees != []
    ensures var o := EmitItem(c, OpenParen, trees, after);
            o.Emits? ==>
              && o.value.out != []
              && (o.value.out[0] == Ident(INT3) <==>
                   && trees[0] == Leaf(Name(INT3)) && INT3 !in c.sh.words && INT3 !in c.sh.order && INT3 !in c.sh.paired
                   && !(if |trees| == 1 then after else Head(trees[1])).Compare?)
              && (o.value.out[0] == Ident(INT3) ==> o.value.out == [Ident(INT3)] && o.value.rest == trees[1..])
  {
    hide Emit, EmitName, Int3, Listed;
    if trees[0].Leaf? && trees[0].t.Name? {
      NameIsInt3(c, trees[0].t.name, trees[1..], after);
    }
  }

  lemma NameIsInt3(c: Context, n: Symbol, rest: seq<Tree>, after: Token)
    ensures var o := EmitName(c, OpenParen, n, rest, after);
            o.Emits? ==>
              && o.value.out != []
              && (o.value.out[0] == Ident(INT3) <==>
                   && n == INT3 && INT3 !in c.sh.words && INT3 !in c.sh.order && INT3 !in c.sh.paired
                   && !(if rest == [] then after else Head(rest[0])).Compare?)
              && (o.value.out[0] == Ident(INT3) ==> o.value.out == [Ident(INT3)] && o.value.rest == rest)
  {
    hide Emit, EmitArguments, NextGroup, EmitSampler, Ahead;
    SamplerOpens(c, n, rest);
  }

  /** The argument of `Load` has the text of an `int3` exactly if it is one. */
  lemma EmitStartsInt3(c: Context, trees: seq<Tree>, after: Token)
    ensures var o := Emit(c, OpenParen, trees, after); o.Emits? ==> (TextStartsInt3(o.value) <==> StartsInt3(c, trees))
  {
    hide Emit, EmitItem, Opens;
    if trees == [] {
      EmitNothing(c, OpenParen, after);
    } else {
      EmitStep(c, OpenParen, trees, after);
      ItemIsInt3(c, trees, after);
      var o := EmitItem(c, OpenParen, trees, after);
      if o.Emits? && o.value.out[0] == Ident(INT3) {
        EmitOpens(c, o.value.last, o.value.rest, after);
      }
    }
  }

  lemma EmitOpens(c: Context, prev: Token, trees: seq<Tree>, after: Token)
    ensures var o := Emit(c, prev, trees, after);
            o.Emits? ==> (o.value != [] && o.value[0] == Text("(") <==> trees != [] && Opens(c, trees[0]))
  {
    hide EmitItem, Emit, Opens;
    if trees == [] {
      EmitNothing(c, prev, after);
    } else {
      EmitStep(c, prev, trees, after);
      ItemOpens(c, prev, trees, after);
    }
  }

  // ---------- The argument of `Load` ----------

  predicate IsLoad(sh: Shader, t: Token) {
    t.Name? && t.name in sh.methods && sh.methods[t.name].Load?
  }

  /** The argument of a texture's `Load`. */
  function LoadKids(c: Context, rest: seq<Tree>): Option<seq<Tree>> {
    var dot := DropSpace(rest);
    if dot == [] || dot[0] != Leaf(Dot) then None
    else
      var m := DropSpace(dot[1..]);
      if m == [] || !m[0].Leaf? || !IsLoad(c.sh, m[0].t) then None
      else
        match NextGroup(m[1..])
        case None => None
        case Some(g) => Some(g.kids)
  }

  /** The argument of `Load` is found before the comma or not at all. */
  lemma LoadKidsCut(c: Context, a: seq<Tree>, b: seq<Tree>)
    ensures LoadKids(c, a + [Leaf(Comma)] + b) == LoadKids(c, a)
  {
    hide DropSpace, NextGroup;
    DropCut(a, b);
    var dot := DropSpace(a);
    if dot != [] && dot[0] == Leaf(Dot) {
      DropCut(dot[1..], b);
      assert (dot + [Leaf(Comma)] + b)[1..] == dot[1..] + [Leaf(Comma)] + b;
      var m := DropSpace(dot[1..]);
      if m != [] {
        GroupCut(m[1..], b);
        assert (m + [Leaf(Comma)] + b)[0] == m[0];
        assert (m + [Leaf(Comma)] + b)[1..] == m[1..] + [Leaf(Comma)] + b;
      }
    }
  }

  lemma AheadCut(a: seq<Tree>, b: seq<Tree>, after: Token)
    ensures Ahead(a + [Leaf(Comma)] + b, after) == Ahead(a, Comma)
    decreases a
  {
    var all := a + [Leaf(Comma)] + b;
    if a != [] && IsSpace(a[0]) {
      assert all[1..] == a[1..] + [Leaf(Comma)] + b;
      AheadCut(a[1..], b, after);
    } else if a == [] {
      assert all[0] == Leaf(Comma);
    } else {
      assert all[0] == a[0];
    }
  }

  lemma GroupCut(a: seq<Tree>, b: seq<Tree>)
    ensures var g, h := NextGroup(a + [Leaf(Comma)] + b), NextGroup(a);
            (g.Some? <==> h.Some?) && (h.Some? ==> g.value.kids == h.value.kids)
  {
    hide DropSpace;
    DropCut(a, b);
  }

  lemma {:induction false} DropCut(a: seq<Tree>, b: seq<Tree>)
    ensures DropSpace(a + [Leaf(Comma)] + b) == DropSpace(a) + [Leaf(Comma)] + b
    decreases a
  {
    var all := a + [Leaf(Comma)] + b;
    if a != [] && IsSpace(a[0]) {
      assert all[0] == a[0] && all[1..] == a[1..] + [Leaf(Comma)] + b;
      DropCut(a[1..], b);
    } else if a != [] {
      assert all[0] == a[0];
    } else {
      assert all[0] == Leaf(Comma) && all == [Leaf(Comma)] + b;
    }
  }

  lemma ShortLoad(first: seq<Piece>)
    requires |first| == 2 && TextStartsInt3(first)
    ensures LoadText(first).None?
  {
    assert first[2..] == [];
  }

  // ---------- Tokens with text ----------

  /** No token is empty, as a lexer makes them. */
  ghost predicate Tidy(trees: seq<Tree>) {
    forall tree | tree in trees :: TidyTree(tree)
  }

  ghost predicate TidyTree(tree: Tree) {
    match tree
    case Leaf(t) => Str(t) != ""
    case Paren(kids) => forall k | k in kids :: TidyTree(k)
    case Brace(kids) => forall k | k in kids :: TidyTree(k)
  }

  /** No name is rewritten to nothing. */
  predicate Spelled(c: Context) {
    forall n | n in c.sh.words && c.sh.words[n].Rewritten? :: c.sh.words[n].text != ""
  }

  lemma TidyHead(trees: seq<Tree>)
    requires Tidy(trees) && trees != []
    ensures TidyTree(trees[0]) && Tidy(trees[1..])
    ensures !trees[0].Leaf? ==> Tidy(trees[0].kids) && SizeTree(trees[0]) == 2 + Size(trees[0].kids)
  {
    assert TidyTree(trees[0]);
  }

  lemma TidyDrop(trees: seq<Tree>)
    requires Tidy(trees)
    ensures Tidy(DropSpace(trees)) && (DropSpace(trees) != [] ==> Tidy(DropSpace(trees)[1..]))
  {
    DropSpaceWithin(trees);
  }

  lemma TidyGroup(trees: seq<Tree>)
    requires Tidy(trees) && NextGroup(trees).Some?
    ensures Tidy(NextGroup(trees).value.kids) && Tidy(NextGroup(trees).value.rest)
  {
    hide Tidy;
    TidyDrop(trees);
    TidyHead(DropSpace(trees));
  }

  lemma TidyParts(kids: seq<Tree>)
    requires Tidy(kids) && TopCommas(kids) > 0
    ensures Tidy(BeforeComma(kids)) && Tidy(AfterComma(kids))
  {
    assert Within(BeforeComma(kids), kids);
    assert Within(AfterComma(kids), kids);
  }
}
