/**
  Rewriting moves nothing: the names of a region come out in their order, whatever calls are rewritten around them. They
  come out once each, but for those that a `Load` cuts and those that a comparison repeats.
 */
module ShaderOrder {
  import opened ShaderAnalysis
  import opened ShaderCalls
  import opened ShaderEmit
  import opened ShaderEnds
  import opened ShaderScan
  import opened ShaderSyntax
  import opened ShaderTallies
  import opened Wrappers

  function Trail(c: Context, ps: seq<Piece>): seq<Symbol> {
    if ps == [] then [] else PieceTrail(c, ps[0]) + Trail(c, ps[1..])
  }

  /** The names of a stretch of tokens. */
  function SourceTrail(c: Context, toks: seq<Token>): seq<Symbol> {
    if toks == [] then []
    else Named(c, toks[0]) + SourceTrail(c, toks[1..])
  }

  lemma {:induction false} TrailAppend(c: Context, a: seq<Piece>, b: seq<Piece>)
    ensures Trail(c, a + b) == Trail(c, a) + Trail(c, b)
  {
    if a == [] {
      assert a + b == b;
    } else {
      assert (a + b)[1..] == a[1..] + b;
      TrailAppend(c, a[1..], b);
    }
  }

  lemma TrailConcat(c: Context)
    ensures forall a: seq<Piece>, b: seq<Piece> {:trigger Trail(c, a + b)} ::
              Trail(c, a + b) == Trail(c, a) + Trail(c, b)
  {
    forall a: seq<Piece>, b: seq<Piece>
      ensures Trail(c, a + b) == Trail(c, a) + Trail(c, b)
    {
      TrailAppend(c, a, b);
    }
  }

  lemma TrailOne(c: Context)
    ensures forall piece {:trigger Trail(c, [piece])} :: Trail(c, [piece]) == PieceTrail(c, piece)
    ensures Trail(c, SEP) == [] && Trail(c, []) == []
  {
    forall piece
      ensures Trail(c, [piece]) == PieceTrail(c, piece)
    {
      assert [piece][1..] == [];
    }
    assert SEP == [Text(",")] + [Text(" ")];
    TrailAppend(c, [Text(",")], [Text(" ")]);
  }

  lemma {:induction false} SourceAppend(c: Context, a: seq<Token>, b: seq<Token>)
    ensures SourceTrail(c, a + b) == SourceTrail(c, a) + SourceTrail(c, b)
  {
    if a == [] {
      assert a + b == b;
    } else {
      assert (a + b)[1..] == a[1..] + b;
      SourceAppend(c, a[1..], b);
    }
  }

  lemma SourceOne(c: Context, t: Token)
    ensures SourceTrail(c, [t]) == Named(c, t)
  {
    assert [t][1..] == [];
  }

  // ---------- Splitting and cutting ----------

  lemma {:induction false} BlankHasNoTrail(c: Context, ps: seq<Piece>)
    requires Render(ps) == ""
    ensures Trail(c, ps) == []
  {
    if ps != [] {
      BlankHasNoTrail(c, ps[1..]);
    }
  }

  lemma {:induction false} SplitTrail(c: Context, ps: seq<Piece>, left: nat)
    ensures Trail(c, Join(Split(ps, left))) == Trail(c, ps)
    decreases |ps|
  {
    hide Render, FirstComma, Trail, Join;
    var k := FirstComma(ps);
    PartTrail(c, ps[..k]);
    var part := if Render(ps[..k]) == "" then [] else [ps[..k]];
    if k == |ps| {
      assert ps[..k] == ps;
    } else {
      FirstCommaIsComma(ps);
      var rest, more := ps[k + 1..], if part == [] then left else if left == 0 then 0 else left - 1;
      assert ps == ps[..k] + [Text(",")] + rest;
      CommaTrail(c, ps, ps[..k], rest);
      PartTrail(c, rest);
      SplitTrail(c, rest, more);
      if part != [] && left <= 1 {
        JoinTrail(c, part, if Render(rest) == "" then [] else [rest]);
      } else {
        JoinTrail(c, part, Split(rest, more));
      }
    }
  }

  lemma CommaTrail(c: Context, ps: seq<Piece>, a: seq<Piece>, b: seq<Piece>)
    requires ps == a + [Text(",")] + b
    ensures Trail(c, ps) == Trail(c, a) + Trail(c, b)
  {
    hide Trail;
    var comma := [Text(",")];
    TrailOne(c);
    TrailAppend(c, a + comma, b);
    TrailAppend(c, a, comma);
  }

  lemma PartTrail(c: Context, ps: seq<Piece>)
    ensures Trail(c, Join(if Render(ps) == "" then [] else [ps])) == Trail(c, ps)
  {
    if Render(ps) == "" {
      BlankHasNoTrail(c, ps);
    } else {
      assert [ps][1..] == [] && ps + [] == ps;
    }
  }

  lemma {:induction false} JoinTrail(c: Context, s: seq<seq<Piece>>, t: seq<seq<Piece>>)
    ensures Trail(c, Join(s + t)) == Trail(c, Join(s)) + Trail(c, Join(t))
  {
    hide Trail;
    TrailOne(c);
    if s == [] {
      assert s + t == t;
    } else {
      assert (s + t)[1..] == s[1..] + t;
      JoinTrail(c, s[1..], t);
      TrailAppend(c, s[0], Join(s[1..] + t));
      TrailAppend(c, s[0], Join(s[1..]));
    }
  }

  lemma {:induction false} JoinedTrail(c: Context, s: seq<seq<Piece>>)
    ensures |s| == 4 ==> Trail(c, Join(s)) == Trail(c, s[0]) + Trail(c, s[1]) + Trail(c, s[2]) + Trail(c, s[3])
    ensures |s| == 3 ==> Trail(c, Join(s)) == Trail(c, s[0]) + Trail(c, s[1]) + Trail(c, s[2])
    ensures |s| == 2 ==> Trail(c, Join(s)) == Trail(c, s[0]) + Trail(c, s[1])
    ensures |s| == 1 ==> Trail(c, Join(s)) == Trail(c, s[0])
    decreases |s|
  {
    hide Trail;
    TrailOne(c);
    if 1 <= |s| <= 4 {
      JoinedTrail(c, s[1..]);
      TrailAppend(c, s[0], Join(s[1..]));
      assert |s| == 1 ==> s[1..] == [];
    }
  }

  lemma Int3Trail(c: Context, content: seq<Piece>)
    ensures Int3(content).Some? ==> Trail(c, Int3(content).value) == Trail(c, content)
  {
    hide Split, Trail, Join;
    SplitTrail(c, content, 3);
    var s := Split(content, 3);
    JoinedTrail(c, s);
    var open, mid, close := [Text("int(")], [Text(")")] + SEP + [Text("int(")], [Text(")")];
    TrailOne(c);
    if |s| == 3 {
      assert Int3(content).value == open + s[0] + mid + s[1] + mid + s[2] + close;
      ThreeTrail(c, open, s[0], mid, s[1], mid, s[2], close);
    } else if |s| == 2 {
      open := [Text("int2(")];
      assert Int3(content).value == open + s[0] + mid + s[1] + close + [] + [];
      ThreeTrail(c, open, s[0], mid, s[1], close, [], []);
    } else if |s| == 1 {
      open, close := [Text("[\"")], [Text("\"]")];
      assert Int3(content).value == open + s[0] + close + [] + [] + [] + [];
      ThreeTrail(c, open, s[0], close, [], [], [], []);
    }
  }

  lemma {:induction false} TextTrail(c: Context, ps: seq<Piece>)
    requires OnlyText(ps)
    ensures Trail(c, ps) == []
  {
    if ps != [] {
      TextTrail(c, ps[1..]);
    }
  }

  /** Text around three parts adds nothing. */
  lemma ThreeTrail(c: Context, t: seq<Piece>, a: seq<Piece>, u: seq<Piece>, b: seq<Piece>, v: seq<Piece>, d: seq<Piece>,
                   w: seq<Piece>)
    requires OnlyText(t) && OnlyText(u) && OnlyText(v) && OnlyText(w)
    ensures Trail(c, t + a + u + b + v + d + w) == Trail(c, a) + Trail(c, b) + Trail(c, d)
  {
    hide Trail, OnlyText;
    TextTrail(c, t);
    TextTrail(c, u);
    TextTrail(c, v);
    TextTrail(c, w);
    TrailAppend(c, t + a + u + b + v + d, w);
    TrailAppend(c, t + a + u + b + v, d);
    TrailAppend(c, t + a + u + b, v);
    TrailAppend(c, t + a + u, b);
    TrailAppend(c, t + a, u);
    TrailAppend(c, t, a);
  }

  // ---------- Texture calls ----------

  /** All names but the lost ones, of which there are `n`; without a loss their order stays. */
  predicate Loses(trail: seq<Symbol>, source: seq<Symbol>, n: nat) {
    |trail| + n == |source| && (n == 0 ==> trail == source)
  }

  predicate HasText(ps: seq<Piece>) {
    ps != [] && PieceText(ps[|ps| - 1]) != ""
  }

  lemma DropLastTrail(c: Context, ps: seq<Piece>)
    requires HasText(ps)
    ensures Trail(c, DropLast(ps)) == Trail(c, ps[..|ps| - 1])
  {
    hide Trail;
    TrailConcat(c);
    TrailOne(c);
    var last := |ps| - 1;
    assert DropLast(ps) == ps[..last] + [Cut(ps[last])];
  }

  /** A `Load` with an `int3` loses the name of the last piece. */
  lemma LoadTrail(c: Context, first: seq<Piece>)
    requires |first| > 2 && TextStartsInt3(first) && HasText(first)
    ensures LoadText(first).Some? ==>
              Loses(Trail(c, LoadText(first).value), Trail(c, first), |PieceTrail(c, first[|first| - 1])|)
  {
    hide DropLast, Split, Trail, Join, PieceText;
    var front, last := first[2..|first| - 1], first[|first| - 1];
    assert first == [first[0]] + [first[1]] + front + [last];
    assert first[2..] == front + [last] && first[2..][..|front|] == front;
    TrailOne(c);
    TrailAppend(c, [first[0]] + [first[1]] + front, [last]);
    TrailAppend(c, [first[0]] + [first[1]], front);
    TrailAppend(c, [first[0]], [first[1]]);
    DropLastTrail(c, first[2..]);
    SplitTrail(c, DropLast(first[2..]), 3);
    if LoadText(first).Some? {
      ReadTrail(c, first);
    }
  }

  lemma ReadTrail(c: Context, first: seq<Piece>)
    requires |first| > 2 && TextStartsInt3(first) && LoadText(first).Some?
    ensures Trail(c, LoadText(first).value) == Trail(c, Join(Split(DropLast(first[2..]), 3)))
  {
    hide DropLast, Split, Trail, Join;
    var s := Split(DropLast(first[2..]), 3);
    JoinedTrail(c, s);
    TrailOne(c);
    var open, mid, close := [Text("read(uint2(")], [Text(")")] + SEP + [Text("uint(")], [Text("))")];
    if |s| == 3 {
      assert LoadText(first).value == open + s[0] + SEP + s[1] + mid + s[2] + close;
      ThreeTrail(c, open, s[0], SEP, s[1], mid, s[2], close);
    } else if |s| == 2 {
      assert LoadText(first).value == open + s[0] + mid + s[1] + close + [] + [];
      ThreeTrail(c, open, s[0], mid, s[1], close, [], []);
    } else if |s| == 1 {
      close := [Text(".xy)")] + SEP + [Text("0)")];
      assert LoadText(first).value == open + s[0] + close + [] + [] + [] + [];
      ThreeTrail(c, open, s[0], close, [], [], [], []);
    }
  }

  lemma PlainLoadTrail(c: Context, first: seq<Piece>)
    requires !TextStartsInt3(first)
    ensures LoadText(first).Some? && Trail(c, LoadText(first).value) == Trail(c, first)
  {
    hide Trail;
    TrailConcat(c);
    TrailOne(c);
  }

  lemma CallTrail(c: Context, v: Sampling, args: seq<seq<Piece>>)
    requires |args| == Arity(v) && !v.Load?
    ensures CallText(v, args).Some? && Trail(c, CallText(v, args).value) == Trail(c, Join(args))
  {
    hide Trail, Join;
    JoinedTrail(c, args);
    TrailOne(c);
    var open, close := [Text("sample(")], [Text("))")];
    match v
    case Sample =>
      close := [Text(")")];
      assert CallText(v, args).value == open + args[0] + SEP + args[1] + close + [] + [];
      ThreeTrail(c, open, args[0], SEP, args[1], close, [], []);
    case SampleBias =>
      assert CallText(v, args).value == open + args[0] + SEP + args[1] + (SEP + [Text("bias(")]) + args[2] + close;
      ThreeTrail(c, open, args[0], SEP, args[1], SEP + [Text("bias(")], args[2], close);
    case SampleLevel =>
      assert CallText(v, args).value == open + args[0] + SEP + args[1] + (SEP + [Text("level(")]) + args[2] + close;
      ThreeTrail(c, open, args[0], SEP, args[1], SEP + [Text("level(")], args[2], close);
    case SampleGrad =>
      GradientTrail(c, args);
  }

  lemma GradientTrail(c: Context, args: seq<seq<Piece>>)
    requires |args| == 4
    ensures Trail(c, CallText(SampleGrad, args).value) == Trail(c, Join(args))
  {
    hide Trail, Join;
    JoinedTrail(c, args);
    TrailOne(c);
    var open, mid, close := [Text("sample(")], SEP + [Text("gradient2d(")], [Text("))")];
    var front := open + args[0] + SEP + args[1] + mid + args[2] + SEP;
    assert CallText(SampleGrad, args).value == front + args[3] + close;
    ThreeTrail(c, open, args[0], SEP, args[1], mid, args[2], SEP);
    TrailAppend(c, front + args[3], close);
    TrailAppend(c, front, args[3]);
  }

  lemma {:induction false} ListedTrail(c: Context, added: seq<Param>)
    ensures Trail(c, Listed(added)) == []
  {
    hide Trail;
    TrailConcat(c);
    TrailOne(c);
    if |added| > 1 {
      ListedTrail(c, added[1..]);
    }
  }

  lemma ParenthesisTrail(c: Context, prev: Token, content: seq<Piece>)
    ensures var r := Parenthesis(c, prev, content); r.Some? ==> Trail(c, r.value) == Trail(c, content)
  {
    hide Int3, Listed, Trail;
    TrailConcat(c);
    TrailOne(c);
    ListedTrail(c, c.Added(prev));
    Int3Trail(c, content);
    var added := Listed(c.Added(prev));
    var tail := if added == [] then [] else SEP + added;
    assert Trail(c, tail) == [];
  }

  // ---------- The induction ----------

  /** The names of a region. */
  function Source(c: Context, trees: seq<Tree>): seq<Symbol> {
    SourceTrail(c, Flat(trees))
  }

  lemma SourceStep(c: Context, trees: seq<Tree>)
    requires trees != []
    ensures Source(c, trees) == SourceTrail(c, FlatTree(trees[0])) + Source(c, trees[1..])
    ensures trees[0].Leaf? ==> SourceTrail(c, FlatTree(trees[0])) == Named(c, trees[0].t)
    ensures !trees[0].Leaf? ==> SourceTrail(c, FlatTree(trees[0])) == Source(c, trees[0].kids)
  {
    hide SourceTrail;
    SourceAppend(c, FlatTree(trees[0]), Flat(trees[1..]));
    if trees[0].Leaf? {
      SourceOne(c, trees[0].t);
    } else {
      var open, close := Head(trees[0]), if trees[0].Paren? then CloseParen else CloseBrace;
      SourceAppend(c, [open] + Flat(trees[0].kids), [close]);
      SourceAppend(c, [open], Flat(trees[0].kids));
      SourceOne(c, open);
      SourceOne(c, close);
    }
  }

  lemma SourceNothing(c: Context)
    ensures Source(c, []) == []
  {
  }

  lemma SourceIs(c: Context, trees: seq<Tree>)
    ensures Source(c, trees) == SourceTrail(c, Flat(trees))
  {
  }

  /** What an item keeps and loses of its own names, and the names that remain. */
  ghost predicate Takes(c: Context, item: Item, after: Token, told: seq<Symbol>, cuts: nat, own: seq<Symbol>,
                        lost: nat) {
    && told == own + Told(c, item.last, item.rest, after) && cuts == lost + Cuts(c, item.rest)
    && Loses(Trail(c, item.out), own, lost) && Tidy(item.rest)
  }

  /** The names of a region are emitted in their order, those that are cut excepted. */
  lemma {:induction false} EmitLoses(c: Context, prev: Token, trees: seq<Tree>, after: Token)
    requires Spelled(c) && Tidy(trees)
    ensures var o := Emit(c, prev, trees, after);
            o.Emits? ==> Loses(Trail(c, o.value), Told(c, prev, trees, after), Cuts(c, trees))
    decreases Size(trees), 4
  {
    hide Emit, EmitItem, Trail, Told, Cuts, Tidy, Size;
    if trees == [] {
      EmitNothing(c, prev, after);
      NothingTold(c, prev, after);
      NoCuts(c);
      TrailOne(c);
    } else {
      EmitStep(c, prev, trees, after);
      var o := EmitItem(c, prev, trees, after);
      if o.Emits? {
        var own, lost := ItemLoses(c, prev, trees, after);
        EmitLoses(c, o.value.last, o.value.rest, after);
        var e := Emit(c, o.value.last, o.value.rest, after);
        if e.Emits? {
          TrailAppend(c, o.value.out, e.value);
        }
      }
    }
  }

  lemma {:induction false} ItemLoses(c: Context, prev: Token, trees: seq<Tree>, after: Token)
    returns (own: seq<Symbol>, lost: nat)
    requires Spelled(c) && Tidy(trees) && trees != [] && EmitItem(c, prev, trees, after).Emits?
    ensures Takes(c, EmitItem(c, prev, trees, after).value, after, Told(c, prev, trees, after), Cuts(c, trees), own,
                  lost)
    decreases Size(trees), 3
  {
    hide Emit, EmitName, Parenthesis, Trail, Told, Cuts, NameCuts, NameEcho, Tidy;
    TrailConcat(c);
    TrailOne(c);
    ToldStep(c, prev, trees, after);
    CutsStep(c, trees);
    TidyHead(trees);
    match trees[0]
    case Leaf(t) =>
      if t.Name? {
        own, lost := NameLoses(c, prev, t, trees[1..], after);
      } else {
        own, lost := [], 0;
      }
    case Brace(kids) =>
      EmitLoses(c, OpenBrace, kids, CloseBrace);
      own, lost := Told(c, OpenBrace, kids, CloseBrace), Cuts(c, kids);
    case Paren(kids) =>
      EmitLoses(c, OpenParen, kids, CloseParen);
      ParenthesisTrail(c, prev, Emit(c, OpenParen, kids, CloseParen).value);
      own, lost := Told(c, OpenParen, kids, CloseParen), Cuts(c, kids);
  }

  lemma {:induction false} NameLoses(c: Context, prev: Token, t: Token, rest: seq<Tree>, after: Token)
    returns (own: seq<Symbol>, lost: nat)
    requires Spelled(c) && Tidy(rest) && t.Name? && EmitName(c, prev, t.name, rest, after).Emits?
    ensures Takes(c, EmitName(c, prev, t.name, rest, after).value, after,
                  One(c, t.name) + NameEcho(c, prev, t.name, rest, after) + Told(c, t, rest, after),
                  NameCuts(c, t.name, rest) + Cuts(c, rest), own, lost)
    decreases Size(rest), 9
  {
    hide EmitName, EmitProduct, EmitProductSum, EmitSampler, Told, Cuts, NameCuts, NameEcho, One, Tidy, Takes;
    var n := t.name;
    OwnShare(c, prev, n, rest, after);
    SayNothing(Told(c, t, rest, after));
    NameIsCall(c, prev, n, rest, after);
    if n in c.sh.words && c.sh.words[n].Multiply? {
      own, lost := ProductLoses(c, t, rest, after);
    } else if n in c.sh.words && c.sh.words[n].MultiplyAdd? {
      own, lost := ProductSumLoses(c, t, rest, after);
    } else if n !in c.sh.words && c.sh.IsTexture(n) {
      own, lost := SamplerLoses(c, t, rest, after);
    } else {
      own, lost := One(c, n) + NameEcho(c, prev, n, rest, after), 0;
      NameTrail(c, prev, n, rest, after);
      TakesAll(c, EmitName(c, prev, n, rest, after).value, after, own);
    }
  }

  lemma SayNothing(s: seq<Symbol>)
    ensures forall a: seq<Symbol> {:trigger a + [] + s} :: a + [] + s == a + s
    ensures [] + s == s
  {
    assert forall a: seq<Symbol> {:trigger a + []} :: a + [] == a;
  }

  lemma TakesAll(c: Context, item: Item, after: Token, own: seq<Symbol>)
    requires Trail(c, item.out) == own && Tidy(item.rest)
    ensures Takes(c, item, after, own + Told(c, item.last, item.rest, after), Cuts(c, item.rest), own, 0)
  {
    hide Trail, Told, Cuts, Tidy;
  }

  /** Words tell nothing, only comparisons repeat a name, and only textures cut one. */
  lemma OwnShare(c: Context, prev: Token, n: Symbol, rest: seq<Tree>, after: Token)
    ensures n in c.sh.words ==> One(c, n) == []
    ensures n in c.sh.words || c.sh.IsTexture(n) ==> NameEcho(c, prev, n, rest, after) == []
    ensures n in c.sh.words || !c.sh.IsTexture(n) ==> NameCuts(c, n, rest) == 0
  {
    hide LoadKids, CutsName, LooksAhead, Ahead;
  }

  /** A name that is no call. */
  lemma NameTrail(c: Context, prev: Token, n: Symbol, rest: seq<Tree>, after: Token)
    requires if n in c.sh.words then c.sh.words[n].Rewritten? else !c.sh.IsTexture(n)
    ensures var o := EmitName(c, prev, n, rest, after);
            && o.Emits? && o.value.last == Name(n) && o.value.rest == rest
            && Trail(c, o.value.out) == One(c, n) + NameEcho(c, prev, n, rest, after)
  {
    hide Trail, Ahead;
    TrailOne(c);
  }

  lemma {:induction false} ProductLoses(c: Context, prev: Token, rest: seq<Tree>, after: Token)
    returns (own: seq<Symbol>, lost: nat)
    requires Spelled(c) && Tidy(rest) && EmitProduct(c, rest).Emits?
    ensures Takes(c, EmitProduct(c, rest).value, after, Told(c, prev, rest, after), Cuts(c, rest), own, lost)
    decreases Size(rest), 8
  {
    hide Emit, Trail, Told, Cuts, Tidy, NextGroup, BeforeComma, AfterComma, TopCommas, DropSpace, Size;
    var kids := NextGroup(rest).value.kids;
    var first, second := BeforeComma(kids), AfterComma(kids);
    TidyGroup(rest);
    TidyParts(kids);
    TidyDrop(second);
    ToldGroup(c, prev, rest, after);
    CutsGroup(c, rest);
    ToldParts(c, OpenParen, kids, CloseParen);
    CutsParts(c, kids);
    ToldDrop(c, Comma, second, CloseParen);
    CutsDrop(c, second);
    assert Size(first) + 1 + Size(second) == Size(kids);
    EmitLoses(c, OpenParen, first, Comma);
    EmitLoses(c, Comma, DropSpace(second), CloseParen);
    ProductTrail(c, Emit(c, OpenParen, first, Comma).value, Emit(c, Comma, DropSpace(second), CloseParen).value);
    own, lost := Told(c, OpenParen, kids, CloseParen), Cuts(c, kids);
  }

  lemma ProductTrail(c: Context, lhs: seq<Piece>, rhs: seq<Piece>)
    ensures Trail(c, ProductText(lhs, rhs)) == Trail(c, lhs) + Trail(c, rhs)
  {
    hide Trail;
    TrailOne(c);
    var open, times, close := [Text("(")], [Text(") * (")], [Text(")")];
    TrailAppend(c, open + lhs + times + rhs, close);
    TrailAppend(c, open + lhs + times, rhs);
    TrailAppend(c, open + lhs, times);
    TrailAppend(c, open, lhs);
  }

  lemma {:induction false} ProductSumLoses(c: Context, prev: Token, rest: seq<Tree>, after: Token)
    returns (own: seq<Symbol>, lost: nat)
    requires Spelled(c) && Tidy(rest) && EmitProductSum(c, rest).Emits?
    ensures Takes(c, EmitProductSum(c, rest).value, after, Told(c, prev, rest, after), Cuts(c, rest), own, lost)
    decreases Size(rest), 8
  {
    hide EmitArguments, Trail, Told, Cuts, Tidy, NextGroup, Size, MultiplyAddText;
    var kids := NextGroup(rest).value.kids;
    TidyGroup(rest);
    ToldGroup(c, prev, rest, after);
    CutsGroup(c, rest);
    ArgumentsLose(c, OpenParen, kids, 3);
    MultiplyAddTrail(c, EmitArguments(c, OpenParen, kids, 3).value);
    own, lost := Told(c, OpenParen, kids, CloseParen), Cuts(c, kids);
  }

  lemma MultiplyAddTrail(c: Context, args: seq<seq<Piece>>)
    requires |args| == 3
    ensures Trail(c, MultiplyAddText(args)) == Trail(c, Join(args))
  {
    hide Trail, Join;
    TrailConcat(c);
    TrailOne(c);
    JoinedTrail(c, args);
  }

  lemma {:induction false} ArgumentsLose(c: Context, prev: Token, kids: seq<Tree>, n: nat)
    requires Spelled(c) && Tidy(kids) && n > 0 && EmitArguments(c, prev, kids, n).Emits?
    ensures Loses(Trail(c, Join(EmitArguments(c, prev, kids, n).value)), Told(c, prev, kids, CloseParen), Cuts(c, kids))
    decreases Size(kids), 5, n
  {
    hide Emit, Trail, Told, Cuts, Tidy, BeforeComma, AfterComma, TopCommas, Size, Join;
    if n == 1 {
      EmitLoses(c, prev, kids, CloseParen);
      JoinedTrail(c, [Emit(c, prev, kids, CloseParen).value]);
    } else {
      var first, second := BeforeComma(kids), AfterComma(kids);
      assert Size(first) + 1 + Size(second) == Size(kids);
      TidyParts(kids);
      ToldParts(c, prev, kids, CloseParen);
      CutsParts(c, kids);
      EmitLoses(c, prev, first, Comma);
      ArgumentsLose(c, Comma, second, n - 1);
      var out := Emit(c, prev, first, Comma).value;
      JoinTrail(c, [out], EmitArguments(c, Comma, second, n - 1).value);
      JoinedTrail(c, [out]);
    }
  }

  lemma {:induction false} SamplerLoses(c: Context, t: Token, rest: seq<Tree>, after: Token)
    returns (own: seq<Symbol>, lost: nat)
    requires t.Name? && t.name !in c.sh.words && c.sh.IsTexture(t.name)
    requires Spelled(c) && Tidy(rest) && EmitSampler(c, t.name, rest).Emits?
    ensures Takes(c, EmitSampler(c, t.name, rest).value, after, One(c, t.name) + Told(c, t, rest, after),
                  NameCuts(c, t.name, rest) + Cuts(c, rest), own, lost)
    decreases Size(rest), 8
  {
    hide Trail, Told, Cuts, CutsName, Tidy, DropSpace, NextGroup, EmitTextureCall;
    var dot := DropSpace(rest);
    var m := DropSpace(dot[1..]);
    TidyDrop(rest);
    TidyDrop(dot[1..]);
    CutsDrop(c, rest);
    CutsStep(c, dot);
    CutsDrop(c, dot[1..]);
    CutsStep(c, m);
    CallHasGroup(c, t.name, c.sh.methods[m[0].t.name], m[1..]);
    MethodCutsNothing(c, m[0].t.name, m[1..]);
    ToldPass(c, t, rest, after);
    ToldPass(c, Dot, dot[1..], after);
    assert Named(c, dot[0].t) == [] && Named(c, m[0].t) == [];
    own, lost := TextureCallLoses(c, t.name, c.sh.methods[m[0].t.name], m[0].t, m[1..], after);
  }

  lemma CallHasGroup(c: Context, n: Symbol, v: Sampling, rest: seq<Tree>)
    requires EmitTextureCall(c, n, v, rest).Emits?
    ensures NextGroup(rest).Some? && rest != [] && !Head(rest[0]).Compare?
  {
  }

  /** A name before a parenthesis is not a texture whose method is called. */
  lemma MethodCutsNothing(c: Context, m: Symbol, rest: seq<Tree>)
    requires NextGroup(rest).Some?
    ensures NameCuts(c, m, rest) == 0
  {
    hide CutsName;
  }

  lemma {:induction false} TextureCallLoses(c: Context, n: Symbol, v: Sampling, prev: Token, rest: seq<Tree>,
                                            after: Token) returns (own: seq<Symbol>, lost: nat)
    requires Spelled(c) && Tidy(rest) && EmitTextureCall(c, n, v, rest).Emits?
    ensures var cut := if v.Load? && CutsName(c, NextGroup(rest).value.kids) then 1 else 0;
            Takes(c, EmitTextureCall(c, n, v, rest).value, after, One(c, n) + Told(c, prev, rest, after),
                  cut + Cuts(c, rest), own, lost)
    decreases Size(rest), 8
  {
    hide EmitArguments, Trail, Told, Cuts, CutsName, Tidy, NextGroup, Size, CallText;
    var kids := NextGroup(rest).value.kids;
    TidyGroup(rest);
    ToldGroup(c, prev, rest, after);
    CutsGroup(c, rest);
    lost := ArgumentsOfCall(c, v, kids);
    own := One(c, n) + Told(c, OpenParen, kids, CloseParen);
    TextureTrail(c, n, CallText(v, EmitArguments(c, OpenParen, kids, Arity(v)).value).value);
  }

  /** The arguments of a texture call as they are emitted. */
  lemma {:induction false} ArgumentsOfCall(c: Context, v: Sampling, kids: seq<Tree>) returns (lost: nat)
    requires Spelled(c) && Tidy(kids) && EmitArguments(c, OpenParen, kids, Arity(v)).Emits?
    requires CallText(v, EmitArguments(c, OpenParen, kids, Arity(v)).value).Some?
    ensures lost == Cuts(c, kids) + if v.Load? && CutsName(c, kids) then 1 else 0
    ensures Loses(Trail(c, CallText(v, EmitArguments(c, OpenParen, kids, Arity(v)).value).value),
                  Told(c, OpenParen, kids, CloseParen), lost)
    decreases Size(kids), 6
  {
    hide Emit, Trail, Told, Cuts, CutsName, Tidy, Size, LoadText, Join;
    lost := Cuts(c, kids) + if v.Load? && CutsName(c, kids) then 1 else 0;
    if v.Load? {
      EmitLoses(c, OpenParen, kids, CloseParen);
      OneArgument(c, kids);
      LoadLoses(c, kids, Emit(c, OpenParen, kids, CloseParen).value);
    } else {
      ArgumentsLose(c, OpenParen, kids, Arity(v));
      CallTrail(c, v, EmitArguments(c, OpenParen, kids, Arity(v)).value);
    }
  }

  /** A `Load` loses the name that it cuts, and no other. */
  lemma LoadLoses(c: Context, kids: seq<Tree>, first: seq<Piece>)
    requires Spelled(c) && Tidy(kids) && Emit(c, OpenParen, kids, CloseParen) == Emits(first)
    ensures LoadText(first).Some? ==>
              Loses(Trail(c, LoadText(first).value), Trail(c, first), if CutsName(c, kids) then 1 else 0)
  {
    hide Emit, Trail, Tidy, LoadText, LeafPiece, StartsInt3, Prior, PieceTrail, PieceText;
    EmitStartsInt3(c, kids, CloseParen);
    StartsWithTrees(c, kids);
    if !TextStartsInt3(first) {
      PlainLoadTrail(c, first);
    } else {
      EmitEndsAs(c, OpenParen, kids, CloseParen);
      if kids[|kids| - 1].Leaf? {
        LastHasText(c, kids);
        TrailOfOne(c, Prior(OpenParen, kids), kids[|kids| - 1].t);
      }
      PlainHasNoTrail(c, first);
      if |first| == 2 {
        ShortLoad(first);
      } else {
        LoadTrail(c, first);
      }
    }
  }

  lemma PlainHasNoTrail(c: Context, first: seq<Piece>)
    ensures EndsIn(first, ')') || EndsIn(first, '}') ==>
              PieceTrail(c, first[|first| - 1]) == [] && PieceText(first[|first| - 1]) != ""
  {
  }

  /** The last token of a parenthesis is no comparison. */
  lemma TrailOfOne(c: Context, prev: Token, t: Token)
    ensures |PieceTrail(c, LeafPiece(c, prev, t, CloseParen))| <= 1
  {
  }

  lemma LastHasText(c: Context, kids: seq<Tree>)
    requires Spelled(c) && Tidy(kids) && kids != [] && kids[|kids| - 1].Leaf?
    ensures PieceText(LeafPiece(c, Prior(OpenParen, kids), kids[|kids| - 1].t, CloseParen)) != ""
  {
    hide Prior;
    assert TidyTree(kids[|kids| - 1]);
  }

  lemma TextureTrail(c: Context, n: Symbol, out: seq<Piece>)
    ensures Trail(c, [Texture(n), Text(".")] + out) == One(c, n) + Trail(c, out)
  {
    hide Trail;
    TrailConcat(c);
    TrailOne(c);
    assert [Texture(n), Text(".")] == [Texture(n)] + [Text(".")];
  }

  // ---------- Whole bodies ----------

  /** What is told is what is written, but for the echoes. */
  lemma {:induction false} ToldIsSource(c: Context, prev: Token, trees: seq<Tree>, after: Token)
    ensures |Told(c, prev, trees, after)| == |Source(c, trees)| + Echoes(c, prev, trees, after)
    ensures Echoes(c, prev, trees, after) == 0 ==> Told(c, prev, trees, after) == Source(c, trees)
    decreases trees
  {
    hide Told, Echoes, Source, NameEcho, SourceTrail;
    if trees == [] {
      NothingTold(c, prev, after);
      NoEchoes(c, prev, after);
      SourceNothing(c);
    } else {
      ToldStep(c, prev, trees, after);
      EchoesStep(c, prev, trees, after);
      SourceStep(c, trees);
      ToldIsSource(c, Last(trees[0]), trees[1..], after);
      match trees[0]
      case Leaf(t) =>
      case Paren(kids) => ToldIsSource(c, OpenParen, kids, CloseParen);
      case Brace(kids) => ToldIsSource(c, OpenBrace, kids, CloseBrace);
    }
  }

  /**
    The names of emitted text are those of its region, less the ones that a `Load` cuts and plus the ones that a
    comparison repeats. Where nothing is cut they come in the order of the source, each compared name followed by the
    repeated one, and then they are the source's own names exactly if no comparison repeats one.
   */
  ghost predicate Accounts(c: Context, prev: Token, trees: seq<Tree>, after: Token, out: seq<Piece>) {
    var cuts, echoes := Cuts(c, trees), Echoes(c, prev, trees, after);
    && |Trail(c, out)| + cuts == |SourceTrail(c, Flat(trees))| + echoes
    && (cuts == 0 ==>
          && Trail(c, out) == Told(c, prev, trees, after)
          && (Trail(c, out) == SourceTrail(c, Flat(trees)) <==> echoes == 0))
  }

  lemma EmitKeepsOrder(c: Context, prev: Token, trees: seq<Tree>, after: Token)
    requires Spelled(c) && Tidy(trees)
    ensures var o := Emit(c, prev, trees, after); o.Emits? ==> Accounts(c, prev, trees, after, o.value)
  {
    hide Emit, Trail, Told, Cuts, Echoes, Source, SourceTrail;
    EmitLoses(c, prev, trees, after);
    ToldIsSource(c, prev, trees, after);
    SourceIs(c, trees);
  }

  /** A function body whose calls have enough arguments is scanned to its own closing brace, its names so emitted. */
  lemma BodyKeepsOrder(c: Context, ts: seq<Token>, p: nat, body: seq<Tree>, s: Scan)
    requires Stream(ts) && Proper(body) && RegionTree(ts, p, Brace(body)) && CallsFit(c.sh, body)
    requires Spelled(c) && Tidy(body) && Content(c, ts, p, CloseBrace) == Some(s)
    ensures s.pos == p + 1 + Size(body)
    ensures Accounts(c, OpenBrace, body, CloseBrace, s.out)
  {
    hide Content, Emit, Accounts, CallsFit, Tidy;
    ScanConsumesBody(c, ts, p, body);
    EmitStays(c, OpenBrace, body, CloseBrace);
    EmitKeepsOrder(c, OpenBrace, body, CloseBrace);
  }
}
