/** The characters of the emitted text: what is written for a name, a bracket and each kind of call. */
module ShaderText {
  import opened ShaderAnalysis
  import opened ShaderEmit
  import opened ShaderEnds
  import opened ShaderScan
  import opened ShaderSyntax
  import opened Wrappers

  /** The text of an emission. */
  function Written(o: Outcome<seq<Piece>>): string {
    if o.Emits? then Render(o.value) else ""
  }

  lemma {:induction false} RenderAppend(a: seq<Piece>, b: seq<Piece>)
    ensures Render(a + b) == Render(a) + Render(b)
    decreases a
  {
    if a == [] {
      assert a + b == b;
    } else {
      assert (a + b)[0] == a[0] && (a + b)[1..] == a[1..] + b;
      RenderAppend(a[1..], b);
    }
  }

  lemma RenderConcat()
    ensures forall a: seq<Piece>, b: seq<Piece> {:trigger Render(a + b)} :: Render(a + b) == Render(a) + Render(b)
  {
    forall a: seq<Piece>, b: seq<Piece>
      ensures Render(a + b) == Render(a) + Render(b)
    {
      RenderAppend(a, b);
    }
  }

  lemma RenderOne()
    ensures forall piece {:trigger Render([piece])} :: Render([piece]) == PieceText(piece)
    ensures Render([]) == "" && Render(SEP) == ", "
  {
    forall piece
      ensures Render([piece]) == PieceText(piece)
    {
      assert [piece][1..] == [];
    }
    assert SEP == [Text(",")] + [Text(" ")];
    RenderAppend([Text(",")], [Text(" ")]);
  }

  // ---------- Regions, names and brackets ----------

  /** The text of a region is that of its first item and of the rest. */
  lemma RegionIsWritten(c: Context, prev: Token, trees: seq<Tree>, after: Token)
    ensures trees == [] ==> Emit(c, prev, trees, after) == Emits([])
    ensures trees != [] && Emit(c, prev, trees, after).Emits? ==>
              && EmitItem(c, prev, trees, after).Emits?
              && var item := EmitItem(c, prev, trees, after).value;
                 && Emit(c, item.last, item.rest, after).Emits?
                 && Written(Emit(c, prev, trees, after))
                    == Render(item.out) + Written(Emit(c, item.last, item.rest, after))
  {
    hide EmitItem, Render;
    if trees != [] {
      EmitStep(c, prev, trees, after);
      RenderConcat();
    }
  }

  /** A name that is no call: a member of the uniform block, a struct, a comparison, or the name as it is. */
  lemma NameIsWritten(c: Context, prev: Token, n: Symbol, rest: seq<Tree>, after: Token)
    requires Closing(after) && n !in c.sh.words && !c.sh.IsTexture(n)
    ensures var o, compared := EmitName(c, prev, n, rest, after), rest != [] && Head(rest[0]).Compare?;
            && o.Emits? && o.value.last == Name(n) && o.value.rest == rest
            && Render(o.value.out)
               == if n in c.sh.order && !prev.Dot? then "uniforms." + n.text
                  else if n in c.sh.paired then n.text + "_Out"
                  else if compared
                  then "all(" + n.text + " " + Head(rest[0]).op + " " + Str(Ahead(rest[1..], after)) + ")"
                  else n.text
  {
    hide Ahead, Render;
    RenderOne();
  }

  /** Tokens that are no names are written as they are, words as the language wants them, and calls are rewritten. */
  lemma LeafIsWritten(c: Context, prev: Token, trees: seq<Tree>, after: Token)
    requires trees != [] && trees[0].Leaf?
    ensures var o, t, rest := EmitItem(c, prev, trees, after), trees[0].t, trees[1..];
            if !t.Name? then o.Emits? && o.value.rest == rest && Render(o.value.out) == Str(t)
            else if t.name in c.sh.words then
              match c.sh.words[t.name]
              case Unsupported => o.Throws?
              case Rewritten(text) => o.Emits? && o.value.rest == rest && Render(o.value.out) == text
              case Multiply => o == EmitProduct(c, rest)
              case MultiplyAdd => o == EmitProductSum(c, rest)
            else if c.sh.IsTexture(t.name) then o == EmitSampler(c, t.name, rest)
            else o == EmitName(c, prev, t.name, rest, after)
  {
    hide Render, EmitProduct, EmitProductSum, EmitSampler;
    RenderOne();
  }

  /** A texture is followed by a dot and one of the methods, and the call is that method's. */
  lemma SamplerIsWritten(c: Context, n: Symbol, rest: seq<Tree>, space: seq<Tree>, gap: seq<Tree>, m: Symbol,
                         call: seq<Tree>)
    requires (forall t | t in space + gap :: IsSpace(t)) && m in c.sh.methods
    requires rest == space + [Leaf(Dot)] + gap + [Leaf(Name(m))] + call
    ensures EmitSampler(c, n, rest) == EmitTextureCall(c, n, c.sh.methods[m], call)
  {
    hide EmitTextureCall;
    var inner := gap + [Leaf(Name(m))] + call;
    assert rest == space + ([Leaf(Dot)] + inner);
    DropSpaces(space, [Leaf(Dot)] + inner);
    assert ([Leaf(Dot)] + inner)[1..] == inner == gap + ([Leaf(Name(m))] + call);
    DropSpaces(gap, [Leaf(Name(m))] + call);
    assert ([Leaf(Name(m))] + call)[1..] == call;
  }

  lemma {:induction false} DropSpaces(space: seq<Tree>, trees: seq<Tree>)
    requires (forall t | t in space :: IsSpace(t)) && trees != [] && !IsSpace(trees[0])
    ensures DropSpace(space + trees) == trees
    decreases space
  {
    if space == [] {
      assert space + trees == trees;
    } else {
      assert (space + trees)[0] == space[0] && (space + trees)[1..] == space[1..] + trees;
      DropSpaces(space[1..], trees);
    }
  }

  /** The names of added arguments. */
  function Joined(params: seq<Param>): string {
    if params == [] then ""
    else if |params| == 1 then ParamText(params[0])
    else ParamText(params[0]) + ", " + Joined(params[1..])
  }

  lemma {:induction false} ListedIsWritten(params: seq<Param>)
    ensures Render(Listed(params)) == Joined(params)
    ensures Listed(params) == [] <==> params == []
    decreases params
  {
    hide Render;
    RenderConcat();
    RenderOne();
    if |params| > 1 {
      ListedIsWritten(params[1..]);
    }
  }

  /** References are written by the names of the parameters that they refer to. */
  lemma ReferencesUseParameters(n: Symbol)
    ensures PieceText(Extra(UniformBlock)) + "." + n.text == PieceText(Uniform(n))
    ensures PieceText(Extra(TextureParam(n))) == PieceText(Texture(n))
    ensures PieceText(Extra(SamplerParam(n))) == PieceText(Ident(n)) == n.text
  {
    assert "uniforms" + "." == "uniforms.";
  }

  /** A brace encloses its content. */
  lemma BraceIsWritten(c: Context, prev: Token, trees: seq<Tree>, after: Token)
    requires trees != [] && trees[0].Brace? && EmitItem(c, prev, trees, after).Emits?
    ensures var item, inner := EmitItem(c, prev, trees, after).value, Emit(c, OpenBrace, trees[0].kids, CloseBrace);
            inner.Emits? && item.rest == trees[1..] && Render(item.out) == "{" + Written(inner) + "}"
  {
    hide Emit, Render;
    RenderConcat();
    RenderOne();
  }

  /** What follows the content of a parenthesis. */
  function Tail(c: Context, prev: Token): string {
    if c.Added(prev) == [] then "" else ", " + Joined(c.Added(prev))
  }

  /** A parenthesis encloses its content and the arguments added for the function before it. */
  lemma ParenIsWritten(c: Context, prev: Token, trees: seq<Tree>, after: Token)
    requires trees != [] && trees[0].Paren? && EmitItem(c, prev, trees, after).Emits? && prev != Name(INT3)
    ensures var item, inner := EmitItem(c, prev, trees, after).value, Emit(c, OpenParen, trees[0].kids, CloseParen);
            inner.Emits? && item.rest == trees[1..] && Render(item.out) == "(" + Written(inner) + Tail(c, prev) + ")"
  {
    hide Emit, Render, Listed, Tail;
    EnclosedText(c, prev, Emit(c, OpenParen, trees[0].kids, CloseParen).value);
  }

  lemma EnclosedText(c: Context, prev: Token, inner: seq<Piece>)
    ensures var added := Listed(c.Added(prev));
            Render([Text("(")] + inner + (if added == [] then [] else SEP + added) + [Text(")")])
            == "(" + Render(inner) + Tail(c, prev) + ")"
  {
    hide Render, Listed;
    RenderConcat();
    RenderOne();
    ListedIsWritten(c.Added(prev));
    var added := Listed(c.Added(prev));
    assert Render(if added == [] then [] else SEP + added) == Tail(c, prev);
  }

  // ---------- Splitting at commas ----------

  predicate CommaFree(text: string) {
    ',' !in text
  }

  /** Commas are pieces of their own. */
  predicate Commaless(ps: seq<Piece>) {
    forall piece | piece in ps :: piece == Text(",") || CommaFree(PieceText(piece))
  }

  lemma {:induction false} FirstCommaText(ps: seq<Piece>)
    requires Commaless(ps)
    ensures CommaFree(Render(ps[..FirstComma(ps)]))
    ensures FirstComma(ps) < |ps| ==>
              && Render(ps) == Render(ps[..FirstComma(ps)]) + "," + Render(ps[FirstComma(ps) + 1..])
              && Commaless(ps[FirstComma(ps) + 1..])
    decreases ps
  {
    hide Render;
    RenderConcat();
    RenderOne();
    var k := FirstComma(ps);
    FirstCommaIsComma(ps);
    NoCommaBefore(ps);
    if k < |ps| {
      assert ps == ps[..k] + [Text(",")] + ps[k + 1..];
    }
  }

  lemma {:induction false} NoCommaBefore(ps: seq<Piece>)
    requires Commaless(ps)
    ensures CommaFree(Render(ps[..FirstComma(ps)]))
    decreases ps
  {
    var k := FirstComma(ps);
    if k > 0 {
      NoCommaBefore(ps[1..]);
      assert ps[..k][0] == ps[0] && ps[..k][1..] == ps[1..][..k - 1];
      assert ps[0] in ps;
    }
  }

  lemma CommaComesFirst(a: string, s: string, b: string, t: string)
    requires CommaFree(b) && a + "," + s == b + "," + t
    ensures |b| <= |a|
  {
    assert (a + "," + s)[|a|] == ',';
  }

  /** The text before the first comma is unique. */
  lemma SameHead(a: string, s: string, b: string, t: string)
    requires CommaFree(a) && CommaFree(b) && a + "," + s == b + "," + t
    ensures a == b && s == t
  {
    var text := a + "," + s;
    CommaComesFirst(a, s, b, t);
    CommaComesFirst(b, t, a, s);
    assert text[..|a|] == a && text[|a| + 1..] == s;
    assert text[..|b|] == b && text[|b| + 1..] == t;
  }

  /** A part that is not the last one. */
  lemma SplitCut(ps: seq<Piece>, left: nat, a: string, t: string) returns (part: seq<Piece>, rest: seq<Piece>)
    requires Commaless(ps) && left > 1 && CommaFree(a) && a != "" && Render(ps) == a + "," + t
    ensures Split(ps, left) == [part] + Split(rest, left - 1)
    ensures Render(part) == a && Render(rest) == t && Commaless(rest)
  {
    hide Render, FirstComma;
    var k := FirstComma(ps);
    FirstCommaText(ps);
    assert (a + "," + t)[|a|] == ',';
    assert ps[..|ps|] == ps;
    part, rest := ps[..k], ps[k + 1..];
    SameHead(a, t, Render(part), Render(rest));
  }

  /** The last part. */
  lemma SplitEnd(ps: seq<Piece>, left: nat, a: string)
    requires Commaless(ps) && CommaFree(a) && a != "" && Render(ps) == a
    ensures Split(ps, left) == [ps]
  {
    hide Render, FirstComma;
    NoComma(ps);
    assert ps[..|ps|] == ps;
  }

  lemma {:induction false} NoComma(ps: seq<Piece>)
    requires CommaFree(Render(ps))
    ensures FirstComma(ps) == |ps|
    decreases ps
  {
    if ps != [] {
      var head, tail := PieceText(ps[0]), Render(ps[1..]);
      assert forall i | 0 <= i < |tail| :: tail[i] == (head + tail)[|head| + i];
      assert forall i | 0 <= i < |head| :: head[i] == (head + tail)[i];
      NoComma(ps[1..]);
    }
  }

  lemma SplitOne(ps: seq<Piece>, a: string)
    requires Commaless(ps) && CommaFree(a) && a != "" && Render(ps) == a
    ensures |Split(ps, 3)| == 1 && Render(Split(ps, 3)[0]) == a
  {
    SplitEnd(ps, 3, a);
  }

  lemma SplitTwo(ps: seq<Piece>, a: string, b: string)
    requires Commaless(ps) && CommaFree(a) && a != "" && CommaFree(b) && b != "" && Render(ps) == a + "," + b
    ensures |Split(ps, 3)| == 2 && Render(Split(ps, 3)[0]) == a && Render(Split(ps, 3)[1]) == b
  {
    hide Render, Split;
    var part, rest := SplitCut(ps, 3, a, b);
    SplitEnd(rest, 2, b);
  }

  lemma SplitThree(ps: seq<Piece>, a: string, b: string, d: string)
    requires Commaless(ps) && CommaFree(a) && a != "" && CommaFree(b) && b != "" && CommaFree(d) && d != ""
    requires Render(ps) == a + "," + b + "," + d
    ensures |Split(ps, 3)| == 3
    ensures Render(Split(ps, 3)[0]) == a && Render(Split(ps, 3)[1]) == b && Render(Split(ps, 3)[2]) == d
  {
    hide Render, Split;
    assert a + "," + b + "," + d == a + "," + (b + "," + d);
    var part, rest := SplitCut(ps, 3, a, b + "," + d);
    var part', rest' := SplitCut(rest, 2, b, d);
    SplitEnd(rest', 1, d);
  }

  // ---------- The constructor `int3` ----------

  /** The arguments of `int3` are converted one by one; two of them are taken for a vector and a number. */
  lemma Int3IsWritten(c: Context, trees: seq<Tree>, after: Token, a: string, b: string, d: string)
    requires trees != [] && trees[0].Paren?
    requires var inner := Emit(c, OpenParen, trees[0].kids, CloseParen); inner.Emits? && Commaless(inner.value)
    requires CommaFree(a) && a != "" && CommaFree(b) && b != "" && CommaFree(d) && d != ""
    ensures var o := EmitItem(c, Name(INT3), trees, after);
            var text := Written(Emit(c, OpenParen, trees[0].kids, CloseParen));
            var tail := Tail(c, Name(INT3));
            && (text == a + "," + b + "," + d ==>
                  && o.Emits? && o.value.rest == trees[1..]
                  && Render(o.value.out) == "(int(" + a + "), int(" + b + "), int(" + d + ")" + tail + ")")
            && (text == a + "," + b ==>
                  && o.Emits? && o.value.rest == trees[1..]
                  && Render(o.value.out) == "(int2(" + a + "), int(" + b + ")" + tail + ")")
            && (text == a ==>
                  o.Emits? && o.value.rest == trees[1..] && Render(o.value.out) == "([\"" + a + "\"]" + tail + ")")
            && (text == "" ==> o.Throws?)
  {
    hide Emit, Render, Int3, EmitItem, Tail;
    Int3Item(c, trees, after);
    var content := Emit(c, OpenParen, trees[0].kids, CloseParen).value;
    var text := Render(content);
    if text == a + "," + b + "," + d {
      ThreeInts(content, a, b, d);
      assert "(" + ("int(" + a + "), int(" + b + "), int(" + d + ")")
          == "(int(" + a + "), int(" + b + "), int(" + d + ")";
    }
    if text == a + "," + b {
      TwoInts(content, a, b);
      assert "(" + ("int2(" + a + "), int(" + b + ")") == "(int2(" + a + "), int(" + b + ")";
    }
    if text == a {
      OneInt(content, a);
      assert "(" + ("[\"" + a + "\"]") == "([\"" + a + "\"]";
    }
    if text == "" {
      NoInt(content);
    }
  }

  /** The parenthesis of an `int3` around its converted parts. */
  lemma Int3Item(c: Context, trees: seq<Tree>, after: Token)
    requires trees != [] && trees[0].Paren? && Emit(c, OpenParen, trees[0].kids, CloseParen).Emits?
    ensures var o := EmitItem(c, Name(INT3), trees, after);
            var parts := Int3(Emit(c, OpenParen, trees[0].kids, CloseParen).value);
            if parts.None? then o.Throws?
            else o.Emits? && o.value.rest == trees[1..]
                 && Render(o.value.out) == "(" + Render(parts.value) + Tail(c, Name(INT3)) + ")"
  {
    hide Emit, Render, Listed, Int3, Tail;
    var parts := Int3(Emit(c, OpenParen, trees[0].kids, CloseParen).value);
    if parts.Some? {
      EnclosedText(c, Name(INT3), parts.value);
    }
  }

  /** With more than three parts an `int3` fails. */
  lemma FourIntsFail(c: Context, trees: seq<Tree>, after: Token, a: string, b: string, d: string, e: string)
    requires trees != [] && trees[0].Paren?
    requires var inner := Emit(c, OpenParen, trees[0].kids, CloseParen); inner.Emits? && Commaless(inner.value)
    requires CommaFree(a) && a != "" && CommaFree(b) && b != "" && CommaFree(d) && d != "" && e != ""
    requires Written(Emit(c, OpenParen, trees[0].kids, CloseParen)) == a + "," + b + "," + d + "," + e
    ensures EmitItem(c, Name(INT3), trees, after).Throws?
  {
    hide Emit, Render, Split, Listed;
    var content := Emit(c, OpenParen, trees[0].kids, CloseParen).value;
    assert a + "," + b + "," + d + "," + e == a + "," + (b + "," + (d + "," + e));
    var part, rest := SplitCut(content, 3, a, b + "," + (d + "," + e));
    var part', rest' := SplitCut(rest, 2, b, d + "," + e);
    SplitRest(rest', d, e);
  }

  lemma SplitRest(ps: seq<Piece>, a: string, t: string)
    requires Commaless(ps) && CommaFree(a) && a != "" && t != "" && Render(ps) == a + "," + t
    ensures |Split(ps, 1)| == 2
  {
    hide Render, FirstComma;
    var k := FirstComma(ps);
    FirstCommaText(ps);
    assert (a + "," + t)[|a|] == ',';
    assert ps[..|ps|] == ps;
    SameHead(a, t, Render(ps[..k]), Render(ps[k + 1..]));
  }

  lemma ThreeInts(content: seq<Piece>, a: string, b: string, d: string)
    requires Commaless(content) && CommaFree(a) && a != "" && CommaFree(b) && b != "" && CommaFree(d) && d != ""
    requires Render(content) == a + "," + b + "," + d
    ensures Int3(content).Some? && Render(Int3(content).value) == "int(" + a + "), int(" + b + "), int(" + d + ")"
  {
    hide Render, Split;
    RenderConcat();
    RenderOne();
    SplitThree(content, a, b, d);
    assert "int(" + a + ")" + ", " + "int(" + b + ")" + ", " + "int(" + d + ")"
        == "int(" + a + "), int(" + b + "), int(" + d + ")";
  }

  lemma TwoInts(content: seq<Piece>, a: string, b: string)
    requires Commaless(content) && CommaFree(a) && a != "" && CommaFree(b) && b != "" && Render(content) == a + "," + b
    ensures Int3(content).Some? && Render(Int3(content).value) == "int2(" + a + "), int(" + b + ")"
  {
    hide Render, Split;
    RenderConcat();
    RenderOne();
    SplitTwo(content, a, b);
    assert "int2(" + a + ")" + ", " + "int(" + b + ")" == "int2(" + a + "), int(" + b + ")";
  }

  lemma OneInt(content: seq<Piece>, a: string)
    requires Commaless(content) && CommaFree(a) && a != "" && Render(content) == a
    ensures Int3(content).Some? && Render(Int3(content).value) == "[\"" + a + "\"]"
  {
    hide Render, Split;
    RenderConcat();
    RenderOne();
    SplitOne(content, a);
  }

  lemma {:induction false} NoInt(content: seq<Piece>)
    requires Commaless(content) && Render(content) == ""
    ensures Int3(content).None?
  {
    BlankSplits(content, 3);
  }

  lemma BlankSplits(ps: seq<Piece>, left: nat)
    requires Commaless(ps) && Render(ps) == ""
    ensures Split(ps, left) == []
  {
    hide Render, FirstComma;
    FirstCommaText(ps);
    if FirstComma(ps) == |ps| {
      assert ps[..|ps|] == ps;
    }
  }

  // ---------- Calls ----------

  /** The trees behind the first `i` top-level commas. */
  function Behind(kids: seq<Tree>, i: nat): (rest: seq<Tree>)
    requires i <= TopCommas(kids)
    ensures TopCommas(rest) == TopCommas(kids) - i
    decreases i
  {
    if i == 0 then kids else Behind(AfterComma(kids), i - 1)
  }

  /** The emission of argument `i` of `n`; the last one reaches to the end. */
  function Part(c: Context, prev: Token, kids: seq<Tree>, i: nat, n: nat): Outcome<seq<Piece>>
    requires i < n <= TopCommas(kids) + 1
  {
    if i == n - 1 then Emit(c, if i == 0 then prev else Comma, Behind(kids, i), CloseParen)
    else Emit(c, if i == 0 then prev else Comma, BeforeComma(Behind(kids, i)), Comma)
  }

  lemma {:induction false} ArgumentsAre(c: Context, prev: Token, kids: seq<Tree>, n: nat)
    requires n > 0 && EmitArguments(c, prev, kids, n).Emits?
    ensures TopCommas(kids) + 1 >= n
    ensures forall i | 0 <= i < n :: Part(c, prev, kids, i, n) == Emits(EmitArguments(c, prev, kids, n).value[i])
    decreases n
  {
    hide Emit, BeforeComma, AfterComma, TopCommas;
    if n > 1 {
      ArgumentsAre(c, Comma, AfterComma(kids), n - 1);
      forall i | 0 < i < n
        ensures Part(c, prev, kids, i, n) == Part(c, Comma, AfterComma(kids), i - 1, n - 1)
      {
      }
    }
  }

  /** The text of argument `i` of `n` of the call's parenthesis. */
  function Argument(c: Context, kids: seq<Tree>, i: nat, n: nat): string
    requires i < n <= TopCommas(kids) + 1
  {
    Written(Part(c, OpenParen, kids, i, n))
  }

  /** `mul(a, b)` becomes a product of its parts. */
  lemma ProductIsWritten(c: Context, rest: seq<Tree>)
    requires EmitProduct(c, rest).Emits?
    ensures NextGroup(rest).Some? && TopCommas(NextGroup(rest).value.kids) >= 1
    ensures var item, kids := EmitProduct(c, rest).value, NextGroup(rest).value.kids;
            var a := Emit(c, OpenParen, BeforeComma(kids), Comma);
            var b := Emit(c, Comma, DropSpace(AfterComma(kids)), CloseParen);
            && a.Emits? && b.Emits? && item.rest == NextGroup(rest).value.rest
            && Render(item.out) == "(" + Written(a) + ") * (" + Written(b) + ")"
  {
    hide Emit, Render, BeforeComma, AfterComma, TopCommas, DropSpace;
    RenderConcat();
    RenderOne();
  }

  /** `mad(a, b, d)` becomes a product and a sum of its parts. */
  lemma ProductSumIsWritten(c: Context, rest: seq<Tree>)
    requires EmitProductSum(c, rest).Emits?
    ensures NextGroup(rest).Some? && TopCommas(NextGroup(rest).value.kids) >= 2
    ensures var item, kids := EmitProductSum(c, rest).value, NextGroup(rest).value.kids;
            && (forall i | 0 <= i < 3 :: Part(c, OpenParen, kids, i, 3).Emits?)
            && item.rest == NextGroup(rest).value.rest
            && Render(item.out)
               == "((" + Argument(c, kids, 0, 3) + ") * (" + Argument(c, kids, 1, 3) + ")) + ("
                  + Argument(c, kids, 2, 3) + ")"
  {
    hide EmitArguments, Part, Render, TopCommas;
    RenderConcat();
    RenderOne();
    ArgumentsAre(c, OpenParen, NextGroup(rest).value.kids, 3);
  }

  /** The methods that sample a texture. */
  lemma SamplingIsWritten(c: Context, n: Symbol, v: Sampling, rest: seq<Tree>)
    requires !v.Load? && EmitTextureCall(c, n, v, rest).Emits?
    ensures NextGroup(rest).Some? && TopCommas(NextGroup(rest).value.kids) + 1 >= Arity(v)
    ensures var item, kids := EmitTextureCall(c, n, v, rest).value, NextGroup(rest).value.kids;
            && (forall i | 0 <= i < Arity(v) :: Part(c, OpenParen, kids, i, Arity(v)).Emits?)
            && item.rest == NextGroup(rest).value.rest
            && var a, b := Argument(c, kids, 0, Arity(v)), Argument(c, kids, 1, Arity(v));
               var front := n.text + ".sample(" + a + ", " + b;
               Render(item.out)
               == match v
                  case Sample => front + ")"
                  case SampleBias => front + ", bias(" + Argument(c, kids, 2, 3) + "))"
                  case SampleLevel => front + ", level(" + Argument(c, kids, 2, 3) + "))"
                  case SampleGrad =>
                    front + ", gradient2d(" + Argument(c, kids, 2, 4) + ", " + Argument(c, kids, 3, 4) + "))"
                  case Load => ""
  {
    hide EmitArguments, Part, Render, TopCommas, LoadText;
    RenderConcat();
    RenderOne();
    var kids := NextGroup(rest).value.kids;
    ArgumentsAre(c, OpenParen, kids, Arity(v));
    var args := EmitArguments(c, OpenParen, kids, Arity(v)).value;
    SamplingText(n, v, args);
  }

  lemma SamplingText(n: Symbol, v: Sampling, args: seq<seq<Piece>>)
    requires !v.Load? && |args| == Arity(v)
    ensures CallText(v, args).Some?
    ensures var front := n.text + ".sample(" + Render(args[0]) + ", " + Render(args[1]);
            Render([Texture(n), Text(".")] + CallText(v, args).value)
            == match v
               case Sample => front + ")"
               case SampleBias => front + ", bias(" + Render(args[2]) + "))"
               case SampleLevel => front + ", level(" + Render(args[2]) + "))"
               case SampleGrad => front + ", gradient2d(" + Render(args[2]) + ", " + Render(args[3]) + "))"
               case Load => ""
  {
    hide Render;
    Dotted(n, CallText(v, args).value);
    var a, b := Render(args[0]), Render(args[1]);
    CallIsWritten(v, args);
    match v
    case Sample =>
      JoinText(n.text, a, b, ")", ")");
    case SampleBias =>
      WordText(n.text, a, b, "bias(", ", bias(", Render(args[2]), "))", "", "");
    case SampleLevel =>
      WordText(n.text, a, b, "level(", ", level(", Render(args[2]), "))", "", "");
    case SampleGrad =>
      WordText(n.text, a, b, "gradient2d(", ", gradient2d(", Render(args[2]), ", ", Render(args[3]), "))");
  }

  lemma CallIsWritten(v: Sampling, args: seq<seq<Piece>>)
    requires !v.Load? && |args| == Arity(v)
    ensures CallText(v, args).Some?
    ensures var front := "sample(" + Render(args[0]) + ", " + Render(args[1]);
            Render(CallText(v, args).value)
            == match v
               case Sample => front + ")"
               case SampleBias => front + ", " + "bias(" + Render(args[2]) + "))" + "" + ""
               case SampleLevel => front + ", " + "level(" + Render(args[2]) + "))" + "" + ""
               case SampleGrad => front + ", " + "gradient2d(" + Render(args[2]) + ", " + Render(args[3]) + "))"
               case Load => ""
  {
    hide Render;
    RenderConcat();
    RenderOne();
    assert forall text: string {:trigger text + ""} :: text + "" == text;
  }

  /** The texture and the dot in front of a call. */
  lemma Dotted(n: Symbol, out: seq<Piece>)
    ensures Render([Texture(n), Text(".")] + out) == n.text + "." + Render(out)
  {
    hide Render;
    RenderConcat();
    RenderOne();
    assert [Texture(n), Text(".")] == [Texture(n)] + [Text(".")];
  }

  lemma JoinText(n: string, a: string, b: string, gap: string, rest: string)
    requires gap == rest
    ensures n + "." + ("sample(" + a + ", " + b + gap) == n + ".sample(" + a + ", " + b + rest
  {
    assert "." + "sample(" == ".sample(";
    assert "sample(" + a + ", " + b + gap == "sample(" + (a + ", " + b + gap);
    assert n + ".sample(" + a + ", " + b + rest == n + ".sample(" + (a + ", " + b + gap);
  }

  lemma WordText(n: string, a: string, b: string, word: string, gap: string, d: string, x: string, e: string, z: string)
    requires ", " + word == gap
    ensures n + "." + ("sample(" + a + ", " + b + ", " + word + d + x + e + z)
         == n + ".sample(" + a + ", " + b + gap + d + x + e + z
    ensures forall text: string {:trigger text + ""} :: text + "" == text
  {
    assert "." + "sample(" == ".sample(";
    var rest := d + x + e + z;
    assert "sample(" + a + ", " + b + ", " + word + d + x + e + z == "sample(" + (a + ", " + b + gap + rest);
    assert n + ".sample(" + a + ", " + b + gap + d + x + e + z == n + ".sample(" + (a + ", " + b + gap + rest);
  }

  /** All but the last character. */
  lemma {:induction false} DropLastText(ps: seq<Piece>)
    requires Render(ps) != ""
    ensures Render(DropLast(ps)) == Render(ps)[..|Render(ps)| - 1]
    decreases ps
  {
    hide Render, PieceText;
    RenderConcat();
    RenderOne();
    var front, last := ps[..|ps| - 1], ps[|ps| - 1];
    assert ps == front + [last];
    if PieceText(last) == "" {
      DropLastText(front);
    } else {
      CutText(last);
    }
  }

  lemma CutText(piece: Piece)
    requires PieceText(piece) != ""
    ensures PieceText(Cut(piece)) == PieceText(piece)[..|PieceText(piece)| - 1]
  {
  }

  /** A `Load` whose argument is no `int3`: the coordinates, and level 0. */
  lemma LoadIsWritten(c: Context, n: Symbol, rest: seq<Tree>)
    requires EmitTextureCall(c, n, Load, rest).Emits?
    ensures NextGroup(rest).Some?
    ensures var item, kids := EmitTextureCall(c, n, Load, rest).value, NextGroup(rest).value.kids;
            && Emit(c, OpenParen, kids, CloseParen).Emits? && item.rest == NextGroup(rest).value.rest
            && (!StartsInt3(c, kids) ==>
                  Render(item.out)
                  == n.text + ".read(uint2(" + Written(Emit(c, OpenParen, kids, CloseParen)) + ".xy), 0)")
  {
    hide Emit, Render, StartsInt3, LoadText;
    var kids := NextGroup(rest).value.kids;
    OneArgument(c, kids);
    EmitStartsInt3(c, kids, CloseParen);
    var first := Emit(c, OpenParen, kids, CloseParen).value;
    Dotted(n, LoadText(first).value);
    if !StartsInt3(c, kids) {
      PlainRead(first);
      ReadText(n.text, Render(first) + ".xy), 0)");
      assert ("read(uint2(" + Render(first)) + ".xy), 0)" == "read(uint2(" + (Render(first) + ".xy), 0)");
    }
  }

  lemma PlainRead(first: seq<Piece>)
    requires !TextStartsInt3(first)
    ensures LoadText(first).Some? && Render(LoadText(first).value) == "read(uint2(" + Render(first) + ".xy), 0)"
  {
    hide Render;
    RenderConcat();
    RenderOne();
    assert "read(uint2(" + Render(first) + ".xy)" + ", " + "0)" == "read(uint2(" + Render(first) + ".xy), 0)";
  }

  lemma ReadText(n: string, rest: string)
    ensures n + "." + ("read(uint2(" + rest) == n + ".read(uint2(" + rest
  {
    assert "." + "read(uint2(" == ".read(uint2(";
  }

  /**
    A `Load` with an `int3`: its text without `int3(` and without the last character is split, the parts before the
    last one are coordinates and the last one is the level, which is 0 if there is only one part.
   */
  lemma LoadInt3IsWritten(c: Context, n: Symbol, rest: seq<Tree>, a: string, b: string, d: string, last: char)
    requires EmitTextureCall(c, n, Load, rest).Emits? && StartsInt3(c, NextGroup(rest).value.kids)
    requires var inner := Emit(c, OpenParen, NextGroup(rest).value.kids, CloseParen);
             inner.Emits? && Commaless(inner.value)
    requires CommaFree(a) && a != "" && CommaFree(b) && b != "" && CommaFree(d) && d != ""
    ensures var text := Written(Emit(c, OpenParen, NextGroup(rest).value.kids, CloseParen));
            var out := Render(EmitTextureCall(c, n, Load, rest).value.out);
            && (text == "int3(" + (a + "," + b + "," + d) + [last] ==>
                  out == n.text + ".read(uint2(" + a + ", " + b + "), uint(" + d + "))")
            && (text == "int3(" + (a + "," + b) + [last] ==> out == n.text + ".read(uint2(" + a + "), uint(" + b + "))")
            && (text == "int3(" + a + [last] ==> out == n.text + ".read(uint2(" + a + ".xy), 0)")
  {
    hide Emit, Render, StartsInt3, LoadText, Commaless;
    var kids := NextGroup(rest).value.kids;
    OneArgument(c, kids);
    EmitStartsInt3(c, kids, CloseParen);
    var first := Emit(c, OpenParen, kids, CloseParen).value;
    Dotted(n, LoadText(first).value);
    if Render(first) == "int3(" + (a + "," + b + "," + d) + [last] {
      LoadInner(first, a + "," + b + "," + d, last);
      ReadThree(first, a, b, d);
      ReadText(n.text, a + ", " + b + "), uint(" + d + "))");
      Spread(n.text, a, ", ", b, "), uint(", d, "))");
    }
    if Render(first) == "int3(" + (a + "," + b) + [last] {
      LoadInner(first, a + "," + b, last);
      ReadTwo(first, a, b);
      ReadText(n.text, a + "), uint(" + b + "))" + "" + "");
      Spread(n.text, a, "), uint(", b, "))", "", "");
    }
    if Render(first) == "int3(" + a + [last] {
      LoadInner(first, a, last);
      ReadOne(first, a);
      ReadText(n.text, a + ".xy), 0)" + "" + "" + "" + "");
      Spread(n.text, a, ".xy), 0)", "", "", "", "");
    }
  }

  lemma Spread(n: string, a: string, x: string, b: string, y: string, d: string, z: string)
    ensures "read(uint2(" + (a + x + b + y + d + z) == "read(uint2(" + a + x + b + y + d + z
    ensures n + ".read(uint2(" + (a + x + b + y + d + z) == n + ".read(uint2(" + a + x + b + y + d + z
    ensures forall text: string {:trigger text + ""} :: text + "" == text
  {
  }

  lemma LoadInner(first: seq<Piece>, inner: string, last: char)
    requires TextStartsInt3(first) && Render(first) == "int3(" + inner + [last]
    ensures Render(DropLast(first[2..])) == inner
    ensures Commaless(first) ==> Commaless(DropLast(first[2..]))
  {
    hide Render;
    RenderConcat();
    RenderOne();
    assert first == [first[0]] + [first[1]] + first[2..];
    assert "int3" + "(" == "int3(";
    var text := Render(first[2..]);
    assert Render(first) == "int3(" + text;
    assert Render(first)[5..] == text && ("int3(" + inner + [last])[5..] == inner + [last];
    DropLastText(first[2..]);
    if Commaless(first) {
      DropLastCommaless(first[2..]);
    }
  }

  lemma {:induction false} DropLastCommaless(ps: seq<Piece>)
    requires Commaless(ps)
    ensures Commaless(DropLast(ps))
    decreases ps
  {
    if ps != [] {
      var front, last := ps[..|ps| - 1], ps[|ps| - 1];
      assert last in ps;
      if PieceText(last) == "" {
        DropLastCommaless(front);
      } else {
        CutText(last);
        assert last == Text(",") ==> PieceText(Cut(last)) == "";
      }
    }
  }

  lemma ReadThree(first: seq<Piece>, a: string, b: string, d: string)
    requires TextStartsInt3(first) && Commaless(DropLast(first[2..]))
    requires CommaFree(a) && a != "" && CommaFree(b) && b != "" && CommaFree(d) && d != ""
    requires Render(DropLast(first[2..])) == a + "," + b + "," + d
    ensures LoadText(first).Some?
    ensures Render(LoadText(first).value) == "read(uint2(" + a + ", " + b + "), uint(" + d + "))"
  {
    hide Render, Split, DropLast;
    RenderConcat();
    RenderOne();
    SplitThree(DropLast(first[2..]), a, b, d);
    assert "read(uint2(" + a + ", " + b + ")" + ", " + "uint(" + d + "))"
        == "read(uint2(" + a + ", " + b + "), uint(" + d + "))";
  }

  lemma ReadTwo(first: seq<Piece>, a: string, b: string)
    requires TextStartsInt3(first) && Commaless(DropLast(first[2..]))
    requires CommaFree(a) && a != "" && CommaFree(b) && b != "" && Render(DropLast(first[2..])) == a + "," + b
    ensures LoadText(first).Some? && Render(LoadText(first).value) == "read(uint2(" + a + "), uint(" + b + "))"
  {
    hide Render, Split, DropLast;
    RenderConcat();
    RenderOne();
    SplitTwo(DropLast(first[2..]), a, b);
    assert "read(uint2(" + a + ")" + ", " + "uint(" + b + "))" == "read(uint2(" + a + "), uint(" + b + "))";
  }

  lemma ReadOne(first: seq<Piece>, a: string)
    requires TextStartsInt3(first) && Commaless(DropLast(first[2..]))
    requires CommaFree(a) && a != "" && Render(DropLast(first[2..])) == a
    ensures LoadText(first).Some? && Render(LoadText(first).value) == "read(uint2(" + a + ".xy), 0)"
  {
    hide Render, Split, DropLast;
    RenderConcat();
    RenderOne();
    SplitOne(DropLast(first[2..]), a);
    assert "read(uint2(" + a + ".xy)" + ", " + "0)" == "read(uint2(" + a + ".xy), 0)";
  }

  // ---------- An example ----------

  const MAD := Symbol("mad")
  const P := Symbol("p")
  const Q := Symbol("q")
  const R := Symbol("r")

  /** `mad(p,q,r)` is emitted as `((p) * (q)) + (r)`. */
  lemma MadExample(c: Context)
    requires c.sh.words == map[MAD := MultiplyAdd] && c.sh.order == [] && c.sh.paired == {} && c.fs == map[]
    ensures var kids := [Leaf(Name(P)), Leaf(Comma), Leaf(Name(Q)), Leaf(Comma), Leaf(Name(R))];
            var call := [Leaf(Name(MAD)), Paren(kids)];
            var o := EmitItem(c, OpenBrace, call, CloseBrace);
            o.Emits? && Render(o.value.out) == "((p) * (q)) + (r)"
  {
    hide EmitArguments, Render;
    var kids := [Leaf(Name(P)), Leaf(Comma), Leaf(Name(Q)), Leaf(Comma), Leaf(Name(R))];
    assert [Leaf(Name(MAD)), Paren(kids)][1..] == [Paren(kids)] && [Paren(kids)][1..] == [];
    MadArguments(c, kids);
    assert NextGroup([Paren(kids)]) == Some(Group(kids, []));
    MadText();
    assert MAD in c.sh.words && c.sh.words[MAD] == MultiplyAdd;
    assert EmitProductSum(c, [Paren(kids)])
        == Emits(Item(MultiplyAddText([[Ident(P)], [Ident(Q)], [Ident(R)]]), CloseParen, []));
  }

  lemma MadText()
    ensures Render(MultiplyAddText([[Ident(P)], [Ident(Q)], [Ident(R)]])) == "((p) * (q)) + (r)"
  {
    hide Render;
    RenderConcat();
    RenderOne();
    assert "((" + "p" + ") * (" + "q" + ")) + (" + "r" + ")" == "((p) * (q)) + (r)";
  }

  lemma MadArguments(c: Context, kids: seq<Tree>)
    requires c.sh.words == map[MAD := MultiplyAdd] && c.sh.order == [] && c.sh.paired == {}
    requires kids == [Leaf(Name(P)), Leaf(Comma), Leaf(Name(Q)), Leaf(Comma), Leaf(Name(R))]
    ensures EmitArguments(c, OpenParen, kids, 3) == Emits([[Ident(P)], [Ident(Q)], [Ident(R)]])
  {
    hide Emit, BeforeComma, AfterComma, TopCommas;
    var p, q, r := Leaf(Name(P)), Leaf(Name(Q)), Leaf(Name(R));
    assert |P.text| == |Q.text| == |R.text| == 1 && |MAD.text| == 3;
    CutOnce(p, [q, Leaf(Comma), r]);
    CutOnce(q, [r]);
    assert [p, Leaf(Comma)] + [q, Leaf(Comma), r] == kids && [q, Leaf(Comma)] + [r] == [q, Leaf(Comma), r];
    SingleName(c, OpenParen, P, Comma);
    SingleName(c, Comma, Q, Comma);
    SingleName(c, Comma, R, CloseParen);
    assert EmitArguments(c, Comma, [r], 1) == Emits([[Ident(R)]]);
    assert EmitArguments(c, Comma, [q, Leaf(Comma), r], 2) == Emits([[Ident(Q)]] + [[Ident(R)]]);
    assert [[Ident(P)]] + ([[Ident(Q)]] + [[Ident(R)]]) == [[Ident(P)], [Ident(Q)], [Ident(R)]];
  }

  lemma CutOnce(p: Tree, rest: seq<Tree>)
    requires !IsComma(p)
    ensures var all := [p, Leaf(Comma)] + rest;
            TopCommas(all) == 1 + TopCommas(rest) && BeforeComma(all) == [p] && AfterComma(all) == rest
  {
    var all := [p, Leaf(Comma)] + rest;
    assert all[1..][1..] == rest && all[1..][0] == Leaf(Comma);
  }

  lemma SingleName(c: Context, prev: Token, n: Symbol, after: Token)
    requires n !in c.sh.words && c.sh.order == [] && c.sh.paired == {} && Closing(after) && !prev.Dot?
    ensures Emit(c, prev, [Leaf(Name(n))], after) == Emits([Ident(n)])
  {
    hide Emit, EmitItem;
    var trees := [Leaf(Name(n))];
    assert trees[1..] == [];
    SingleItem(c, prev, n, trees, after);
    EmitStep(c, prev, trees, after);
    EmitNothing(c, Name(n), after);
    assert [Ident(n)] + [] == [Ident(n)];
  }

  lemma SingleItem(c: Context, prev: Token, n: Symbol, trees: seq<Tree>, after: Token)
    requires n !in c.sh.words && c.sh.order == [] && c.sh.paired == {} && Closing(after) && !prev.Dot?
    requires trees != [] && trees[0] == Leaf(Name(n)) && trees[1..] == []
    ensures EmitItem(c, prev, trees, after) == Emits(Item([Ident(n)], Name(n), []))
  {
    hide Emit;
  }
}
