/**
  The text of a function body in the Metal language. A recursive scanner moves a cursor over the tokens; what it
  leaves is the emission of the body's bracket structure, which is defined without a cursor.
 */
module ShaderEmit {
  import opened ShaderAnalysis
  import opened ShaderSyntax
  import opened Wrappers

  /** A piece of emitted text. A comma is a piece of its own. */
  datatype Piece =
    | Text(text: string)
    | Uniform(name: Symbol)                              // a member of the uniform block
    | Texture(name: Symbol)                              // a texture whose method is called
    | Ident(name: Symbol)                                // a name as it was
    | Member(name: Symbol)                               // a name as it was, after a dot
    | Compared(left: Symbol, op: string, right: Token)   // a comparison made safe for vectors
    | Extra(param: Param)                                // an argument added to a call
    | Cut(piece: Piece)                                  // a piece without its last character

  function PieceText(piece: Piece): string {
    match piece
    case Text(text) => text
    case Uniform(name) => "uniforms." + name.text
    case Texture(name) => name.text
    case Ident(name) => name.text
    case Member(name) => name.text
    case Compared(left, op, right) => "all(" + left.text + " " + op + " " + Str(right) + ")"
    case Extra(param) => ParamText(param)
    case Cut(piece) => var text := PieceText(piece); if text == "" then "" else text[..|text| - 1]
  }

  function ParamText(p: Param): string {
    match p
    case UniformBlock => "uniforms"
    case TextureParam(name) => name.text
    case SamplerParam(name) => name.text
  }

  function Render(ps: seq<Piece>): string {
    if ps == [] then "" else PieceText(ps[0]) + Render(ps[1..])
  }

  predicate OnlyText(ps: seq<Piece>) {
    forall piece | piece in ps :: piece.Text?
  }

  const SEP := [Text(","), Text(" ")]

  const INT3 := Symbol("int3")

  // ---------- Pieces put together ----------

  function FirstComma(ps: seq<Piece>): (k: nat)
    ensures k <= |ps|
  {
    if ps == [] || ps[0] == Text(",") then 0 else 1 + FirstComma(ps[1..])
  }

  lemma {:induction false} FirstCommaIsComma(ps: seq<Piece>)
    ensures FirstComma(ps) < |ps| ==> ps[FirstComma(ps)] == Text(",")
  {
    if ps != [] && ps[0] != Text(",") {
      FirstCommaIsComma(ps[1..]);
    }
  }

  /** `split(separator: ",", maxSplits: left)`, which leaves out empty parts. */
  function Split(ps: seq<Piece>, left: nat): seq<seq<Piece>>
    decreases |ps|
  {
    var k := FirstComma(ps);
    var part := if Render(ps[..k]) == "" then [] else [ps[..k]];
    if k == |ps| then part
    else if part != [] && left <= 1 then part + (if Render(ps[k + 1..]) == "" then [] else [ps[k + 1..]])
    else part + Split(ps[k + 1..], if part == [] then left else left - 1)
  }

  /** The parts put together again. */
  function Join(parts: seq<seq<Piece>>): seq<Piece> {
    if parts == [] then [] else parts[0] + Join(parts[1..])
  }

  /** The text without its last character. */
  function DropLast(ps: seq<Piece>): seq<Piece> {
    if ps == [] then []
    else if PieceText(ps[|ps| - 1]) == "" then DropLast(ps[..|ps| - 1])
    else ps[..|ps| - 1] + [Cut(ps[|ps| - 1])]
  }

  /** The arguments of an `int3` constructor, each with a conversion of its own. */
  function Int3(params: seq<Piece>): Option<seq<Piece>> {
    var s := Split(params, 3);
    if |s| == 3 then
      Some([Text("int(")] + s[0] + [Text(")")] + SEP + [Text("int(")] + s[1] + [Text(")")] + SEP
           + [Text("int(")] + s[2] + [Text(")")])
    else if |s| == 2 then Some([Text("int2(")] + s[0] + [Text(")")] + SEP + [Text("int(")] + s[1] + [Text(")")])
    else if |s| == 1 then Some([Text("[\"")] + s[0] + [Text("\"]")])
    else None
  }

  /** `Load` takes two-dimensional coordinates and a level apart. */
  function LoadText(first: seq<Piece>): Option<seq<Piece>> {
    if |first| >= 2 && first[0] == Ident(INT3) && first[1] == Text("(") then
      var s := Split(DropLast(first[2..]), 3);
      if |s| == 3 then
        Some([Text("read(uint2(")] + s[0] + SEP + s[1] + [Text(")")] + SEP + [Text("uint(")] + s[2] + [Text("))")])
      else if |s| == 2 then
        Some([Text("read(uint2(")] + s[0] + [Text(")")] + SEP + [Text("uint(")] + s[1] + [Text("))")])
      else if |s| == 1 then Some([Text("read(uint2(")] + s[0] + [Text(".xy)")] + SEP + [Text("0)")])
      else None
    else Some([Text("read(uint2(")] + first + [Text(".xy)")] + SEP + [Text("0)")])
  }

  function Arity(v: Sampling): nat {
    match v
    case Sample => 2
    case SampleBias => 3
    case SampleGrad => 4
    case SampleLevel => 3
    case Load => 1
  }

  /** A texture call from the text of its arguments. */
  function CallText(v: Sampling, args: seq<seq<Piece>>): Option<seq<Piece>>
    requires |args| == Arity(v)
  {
    match v
    case Sample => Some([Text("sample(")] + args[0] + SEP + args[1] + [Text(")")])
    case SampleBias =>
      Some([Text("sample(")] + args[0] + SEP + args[1] + SEP + [Text("bias(")] + args[2] + [Text("))")])
    case SampleGrad =>
      Some([Text("sample(")] + args[0] + SEP + args[1] + SEP
           + [Text("gradient2d(")] + args[2] + SEP + args[3] + [Text("))")])
    case SampleLevel =>
      Some([Text("sample(")] + args[0] + SEP + args[1] + SEP + [Text("level(")] + args[2] + [Text("))")])
    case Load => LoadText(args[0])
  }

  function ProductText(lhs: seq<Piece>, rhs: seq<Piece>): seq<Piece> {
    [Text("(")] + lhs + [Text(") * (")] + rhs + [Text(")")]
  }

  function MultiplyAddText(args: seq<seq<Piece>>): seq<Piece>
    requires |args| == 3
  {
    [Text("((")] + args[0] + [Text(") * (")] + args[1] + [Text(")) + (")] + args[2] + [Text(")")]
  }

  // ---------- Added arguments ----------

  function TextureArgs(sh: Shader, names: seq<Symbol>): seq<Param> {
    if names == [] then []
    else
      var n := names[|names| - 1];
      TextureArgs(sh, names[..|names| - 1]) + if sh.IsTexture(n) then [TextureParam(n)] else []
  }

  function SamplerParams(names: seq<Symbol>): seq<Param> {
    if names == [] then [] else SamplerParams(names[..|names| - 1]) + [SamplerParam(names[|names| - 1])]
  }

  function SamplerArgs(sh: Shader, names: seq<Symbol>): seq<Param> {
    if names == [] then []
    else SamplerArgs(sh, names[..|names| - 1]) + SamplerParams(Filter(sh.samplers, {names[|names| - 1]}))
  }

  /** `generateAdditionalArguments`: the block, then textures and samplers in the order they were recorded. */
  function ExtraArgs(sh: Shader, d: Needs): seq<Param> {
    (if d.uniforms then [UniformBlock] else []) + TextureArgs(sh, d.textures) + SamplerArgs(sh, d.samplers)
  }

  /** The shader's declarations and the finished analysis. */
  datatype Context = Context(sh: Shader, fs: map<Symbol, Needs>) {
    /** The arguments added inside a parenthesis that follows this token directly. */
    function Added(prev: Token): seq<Param> {
      if prev.Name? && prev.name in fs then ExtraArgs(sh, fs[prev.name]) else []
    }
  }

  function Listed(params: seq<Param>): seq<Piece> {
    if params == [] then []
    else if |params| == 1 then [Extra(params[0])]
    else [Extra(params[0])] + SEP + Listed(params[1..])
  }

  /** A parenthesis with its content, after the token `prev`. */
  function Parenthesis(c: Context, prev: Token, content: seq<Piece>): Option<seq<Piece>> {
    var inner := if prev == Name(INT3) then Int3(content) else Some(content);
    var added := Listed(c.Added(prev));
    if inner.None? then None
    else Some([Text("(")] + inner.value + (if added == [] then [] else SEP + added) + [Text(")")])
  }

  /** A name that is neither rewritten nor a texture, between the tokens before and after it. */
  function NameText(c: Context, prev: Token, n: Symbol, next: Token, right: Token): Piece {
    if c.sh.IsPlain(n) && !prev.Dot? then Uniform(n)
    else if n in c.sh.paired then Text(n.text + "_Out")
    else if next.Compare? then Compared(n, next.op, right)
    else if prev.Dot? then Member(n)
    else Ident(n)
  }

  /** Whether the name is emitted with a look at the tokens after it. */
  predicate LooksAhead(c: Context, prev: Token, n: Symbol, next: Token) {
    !(c.sh.IsPlain(n) && !prev.Dot?) && n !in c.sh.paired && next.Compare?
  }

  // ---------- The scanner ----------

  /** Emitted text and the position where the cursor rests. No value is an error thrown. */
  datatype Scan = Scan(out: seq<Piece>, pos: nat)

  datatype ArgScan = ArgScan(args: seq<seq<Piece>>, pos: nat)

  function Then(out: seq<Piece>, r: Option<Scan>): Option<Scan> {
    if r.None? then None else Some(Scan(out + r.value.out, r.value.pos))
  }

  /** `hasNextToken` */
  predicate HasNext(ts: seq<Token>, p: nat)
    requires Stream(ts) && p < |ts|
  {
    !ts[NextToken(ts, p)].End?
  }

  /** `transpileFunctionContent`: everything after `p` up to the first `end` outside of nested brackets and calls. */
  function Content(c: Context, ts: seq<Token>, p: nat, end: Token): (r: Option<Scan>)
    requires Stream(ts) && p < |ts| && Closing(end)
    ensures r.Some? ==> p <= r.value.pos < |ts| && (ts[r.value.pos].End? || ts[r.value.pos] == end)
    decreases |ts| - p, 0
  {
    if ts[p].End? then Some(Scan([], p))
    else if ts[p + 1] == end then Some(Scan([], p + 1))
    else
      var s := Step(c, ts, p + 1);
      if s.None? then None else Then(s.value.out, Content(c, ts, s.value.pos, end))
  }

  lemma ThenThen(a: seq<Piece>, b: seq<Piece>, r: Option<Scan>)
    ensures Then(a, Then(b, r)) == Then(a + b, r)
  {
    if r.Some? {
      assert a + (b + r.value.out) == (a + b) + r.value.out;
    }
  }

  lemma ThenNothing(r: Option<Scan>)
    ensures Then([], r) == r
  {
    if r.Some? {
      assert [] + r.value.out == r.value.out;
    }
  }

  lemma ContentStep(c: Context, ts: seq<Token>, p: nat, end: Token)
    requires Stream(ts) && p < |ts| && Closing(end) && !ts[p].End? && ts[p + 1] != end
    ensures var s := Step(c, ts, p + 1);
            Content(c, ts, p, end) == if s.None? then None else Then(s.value.out, Content(c, ts, s.value.pos, end))
  {
    hide Step, Then;
  }

  /** One token of the loop, with everything that is consumed along with it. */
  function Step(c: Context, ts: seq<Token>, q: nat): (r: Option<Scan>)
    requires Stream(ts) && 0 < q < |ts|
    ensures r.Some? ==> q <= r.value.pos < |ts|
    decreases |ts| - q, 4
  {
    match ts[q]
    case Name(n) => StepName(c, ts, q)
    case OpenBrace =>
      var s := Content(c, ts, q, CloseBrace);
      if s.None? then None else Some(Scan([Text("{")] + s.value.out + [Text("}")], s.value.pos))
    case OpenParen =>
      var s := Content(c, ts, q, CloseParen);
      if s.None? then None
      else
        var out := Parenthesis(c, ts[q - 1], s.value.out);
        if out.None? then None else Some(Scan(out.value, s.value.pos))
    case t => Some(Scan([Text(Str(t))], q))
  }

  function StepName(c: Context, ts: seq<Token>, q: nat): (r: Option<Scan>)
    requires Stream(ts) && 0 < q < |ts| && ts[q].Name?
    ensures r.Some? ==> q <= r.value.pos < |ts|
    decreases |ts| - q, 3
  {
    var n := ts[q].name;
    if n in c.sh.words then
      match c.sh.words[n]
      case Unsupported => None
      case Rewritten(text) => Some(Scan([Text(text)], q))
      case Multiply => Product(c, ts, q)
      case MultiplyAdd => ProductSum(c, ts, q)
    else if c.sh.IsTexture(n) then Sampler(c, ts, q)
    else if LooksAhead(c, ts[q - 1], n, ts[q + 1]) then
      var right := ts[NextToken(ts, q + 1)];
      if right.End? then None else Some(Scan([NameText(c, ts[q - 1], n, ts[q + 1], right)], q))
    else Some(Scan([NameText(c, ts[q - 1], n, ts[q + 1], End)], q))
  }

  /** `convertToMTLMultiplication`, which drops the space before the second factor. */
  function Product(c: Context, ts: seq<Token>, q: nat): (r: Option<Scan>)
    requires Stream(ts) && 0 < q < |ts| && ts[q].Name?
    ensures r.Some? ==> q <= r.value.pos < |ts|
    decreases |ts| - q, 2
  {
    var a := NextToken(ts, q);
    if ts[a] != OpenParen || !HasNext(ts, a) then None
    else
      var lhs := Content(c, ts, a, Comma);
      if lhs.None? || !HasNext(ts, lhs.value.pos) then None
      else
        var rhs := Content(c, ts, NextToken(ts, lhs.value.pos) - 1, CloseParen);
        if rhs.None? then None else Some(Scan(ProductText(lhs.value.out, rhs.value.out), rhs.value.pos))
  }

  /** `convertToMTLMultiplyAdd` */
  function ProductSum(c: Context, ts: seq<Token>, q: nat): (r: Option<Scan>)
    requires Stream(ts) && 0 < q < |ts| && ts[q].Name?
    ensures r.Some? ==> q <= r.value.pos < |ts|
    decreases |ts| - q, 2
  {
    var a := NextToken(ts, q);
    if ts[a] != OpenParen then None
    else
      var s := Arguments(c, ts, a, 3);
      if s.None? then None else Some(Scan(MultiplyAddText(s.value.args), s.value.pos))
  }

  /** From the parenthesis or comma at `a`: arguments that end on commas, and a last one that ends on a parenthesis. */
  function Arguments(c: Context, ts: seq<Token>, a: nat, n: nat): (r: Option<ArgScan>)
    requires Stream(ts) && a < |ts| && n > 0
    ensures r.Some? ==> a <= r.value.pos < |ts| && |r.value.args| == n
    decreases |ts| - a, 1, n
  {
    if !HasNext(ts, a) then None
    else
      var s := Content(c, ts, a, if n == 1 then CloseParen else Comma);
      if s.None? then None
      else if n == 1 then Some(ArgScan([s.value.out], s.value.pos))
      else
        var rest := Arguments(c, ts, s.value.pos, n - 1);
        if rest.None? then None else Some(ArgScan([s.value.out] + rest.value.args, rest.value.pos))
  }

  /** `createSampler` */
  function Sampler(c: Context, ts: seq<Token>, q: nat): (r: Option<Scan>)
    requires Stream(ts) && 0 < q < |ts| && ts[q].Name?
    ensures r.Some? ==> q <= r.value.pos < |ts|
    decreases |ts| - q, 2
  {
    var dot := NextToken(ts, q);
    if ts[dot] != Dot then None
    else
      var m := NextToken(ts, dot);
      if !ts[m].Name? || ts[m].name !in c.sh.methods then None
      else Then([Texture(ts[q].name), Text(".")], TextureCall(c, ts, m, c.sh.methods[ts[m].name]))
  }

  /** `createTextureCall` */
  function TextureCall(c: Context, ts: seq<Token>, m: nat, v: Sampling): (r: Option<Scan>)
    requires Stream(ts) && m < |ts| && ts[m].Name?
    ensures r.Some? ==> m <= r.value.pos < |ts|
    decreases |ts| - m, 2
  {
    var a := NextToken(ts, m);
    if ts[a] != OpenParen then None
    else
      var s := Arguments(c, ts, a, Arity(v));
      if s.None? then None
      else
        var out := CallText(v, s.value.args);
        if out.None? then None else Some(Scan(out.value, s.value.pos))
  }

  // ---------- The emission of bracketed code ----------

  /** The emission of a region: text, an error, or a call with too few arguments, which the scanner runs past. */
  datatype Outcome<T> = Emits(value: T) | Throws | Overruns

  /** The text of the first item of a region, its last token, and the rest of the region. */
  datatype Item = Item(out: seq<Piece>, last: Token, rest: seq<Tree>)

  /** The emission of a region between the tokens `prev` and `after`. */
  function Emit(c: Context, prev: Token, trees: seq<Tree>, after: Token): Outcome<seq<Piece>>
    decreases Size(trees), 4
  {
    if trees == [] then Emits([])
    else
      match EmitItem(c, prev, trees, after)
      case Throws => Throws
      case Overruns => Overruns
      case Emits(item) =>
        match Emit(c, item.last, item.rest, after)
        case Throws => Throws
        case Overruns => Overruns
        case Emits(out) => Emits(item.out + out)
  }

  function EmitItem(c: Context, prev: Token, trees: seq<Tree>, after: Token): (r: Outcome<Item>)
    requires trees != []
    ensures r.Emits? ==> Size(r.value.rest) < Size(trees)
    decreases Size(trees), 3
  {
    var rest := trees[1..];
    match trees[0]
    case Leaf(t) => if t.Name? then EmitName(c, prev, t.name, rest, after) else Emits(Item([Text(Str(t))], t, rest))
    case Brace(kids) => (
      assert SizeTree(trees[0]) == 2 + Size(kids);
      match Emit(c, OpenBrace, kids, CloseBrace)
      case Throws => Throws
      case Overruns => Overruns
      case Emits(out) => Emits(Item([Text("{")] + out + [Text("}")], CloseBrace, rest)))
    case Paren(kids) => (
      assert SizeTree(trees[0]) == 2 + Size(kids);
      match Emit(c, OpenParen, kids, CloseParen)
      case Throws => Throws
      case Overruns => Overruns
      case Emits(out) =>
        var out := Parenthesis(c, prev, out);
        if out.None? then Throws else Emits(Item(out.value, CloseParen, rest)))
  }

  function EmitName(c: Context, prev: Token, n: Symbol, rest: seq<Tree>, after: Token): (r: Outcome<Item>)
    ensures r.Emits? ==> Size(r.value.rest) <= Size(rest)
    decreases Size(rest), 3
  {
    if n in c.sh.words then
      match c.sh.words[n]
      case Unsupported => Throws
      case Rewritten(text) => Emits(Item([Text(text)], Name(n), rest))
      case Multiply => EmitProduct(c, rest)
      case MultiplyAdd => EmitProductSum(c, rest)
    else if c.sh.IsTexture(n) then EmitSampler(c, n, rest)
    else
      var next := if rest == [] then after else Head(rest[0]);
      var right := if rest != [] && LooksAhead(c, prev, n, next) then Ahead(rest[1..], after) else End;
      Emits(Item([NameText(c, prev, n, next, right)], Name(n), rest))
  }

  /** A product of what comes before and after the first comma of the parenthesis. */
  function EmitProduct(c: Context, rest: seq<Tree>): (r: Outcome<Item>)
    ensures r.Emits? ==> Size(r.value.rest) < Size(rest)
    decreases Size(rest), 2
  {
    match NextGroup(rest)
    case None => Throws
    case Some(group) =>
      if TopCommas(group.kids) == 0 then Overruns
      else
        assert Size(BeforeComma(group.kids)) + 1 + Size(AfterComma(group.kids)) == Size(group.kids);
        match Emit(c, OpenParen, BeforeComma(group.kids), Comma)
        case Throws => Throws
        case Overruns => Overruns
        case Emits(lhs) =>
          match Emit(c, Comma, DropSpace(AfterComma(group.kids)), CloseParen)
          case Throws => Throws
          case Overruns => Overruns
          case Emits(rhs) => Emits(Item(ProductText(lhs, rhs), CloseParen, group.rest))
  }

  function EmitProductSum(c: Context, rest: seq<Tree>): (r: Outcome<Item>)
    ensures r.Emits? ==> Size(r.value.rest) < Size(rest)
    decreases Size(rest), 2
  {
    match NextGroup(rest)
    case None => Throws
    case Some(group) =>
      match EmitArguments(c, OpenParen, group.kids, 3)
      case Throws => Throws
      case Overruns => Overruns
      case Emits(args) => Emits(Item(MultiplyAddText(args), CloseParen, group.rest))
  }

  /** The region cut at its first `n - 1` top-level commas. */
  function EmitArguments(c: Context, prev: Token, kids: seq<Tree>, n: nat): (r: Outcome<seq<seq<Piece>>>)
    requires n > 0
    ensures r.Emits? ==> |r.value| == n
    decreases Size(kids), 5, n
  {
    if n == 1 then
      match Emit(c, prev, kids, CloseParen)
      case Throws => Throws
      case Overruns => Overruns
      case Emits(out) => Emits([out])
    else if TopCommas(kids) == 0 then Overruns
    else
      assert Size(BeforeComma(kids)) + 1 + Size(AfterComma(kids)) == Size(kids);
      match Emit(c, prev, BeforeComma(kids), Comma)
      case Throws => Throws
      case Overruns => Overruns
      case Emits(out) =>
        match EmitArguments(c, Comma, AfterComma(kids), n - 1)
        case Throws => Throws
        case Overruns => Overruns
        case Emits(args) => Emits([out] + args)
  }

  function EmitSampler(c: Context, n: Symbol, rest: seq<Tree>): (r: Outcome<Item>)
    ensures r.Emits? ==> Size(r.value.rest) < Size(rest)
    decreases Size(rest), 2
  {
    var dot := DropSpace(rest);
    if dot == [] || dot[0] != Leaf(Dot) then Throws
    else
      var m := DropSpace(dot[1..]);
      if m == [] || !m[0].Leaf? || !m[0].t.Name? || m[0].t.name !in c.sh.methods then Throws
      else EmitTextureCall(c, n, c.sh.methods[m[0].t.name], m[1..])
  }

  function EmitTextureCall(c: Context, n: Symbol, v: Sampling, rest: seq<Tree>): (r: Outcome<Item>)
    ensures r.Emits? ==> Size(r.value.rest) < Size(rest)
    decreases Size(rest), 2
  {
    match NextGroup(rest)
    case None => Throws
    case Some(group) =>
      match EmitArguments(c, OpenParen, group.kids, Arity(v))
      case Throws => Throws
      case Overruns => Overruns
      case Emits(args) =>
        var out := CallText(v, args);
        if out.None? then Throws else Emits(Item([Texture(n), Text(".")] + out.value, CloseParen, group.rest))
  }
}
