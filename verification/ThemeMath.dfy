/**
  Theme expressions: nested `calc`, `max` and `min` are flattened while parsing into variables with
  anonymous names, and evaluated later by looking the names up again.
 */
module ThemeMath {
  import opened Wrappers

  datatype Key = Key(text: string)

  datatype MathOp = Calc | Max | Min

  /** An entry of an argument list: text that starts with a digit is a number, anything else a key or operator. */
  datatype Arg = Num(value: real, suffix: string) | Name(key: Key)

  datatype Token =
    | Open | Close | Semicolon
    | MathTok(op: MathOp)  // calc, max or min
    | VarTok               // var
    | Dash
    | Word(key: Key)       // a name
    | Other(arg: Arg)      // a number, an operator or any other text

  /** The text of a token. */
  function TextOf(t: Token): Arg {
    match t
    case Open => Name(Key("("))
    case Close => Name(Key(")"))
    case Semicolon => Name(Key(";"))
    case MathTok(op) => Name(Key(match op case Calc => "calc" case Max => "max" case Min => "min"))
    case VarTok => Name(Key("var"))
    case Dash => Name(Key("-"))
    case Word(key) => Name(key)
    case Other(arg) => arg
  }

  datatype VarType = Color | Size | Number | Text | Alias | Math(op: MathOp)

  /** A theme variable; which of the value fields counts depends on the type. */
  datatype Variable = Variable(ty: VarType, number: real, suffix: string, target: Key, args: seq<Arg>,
                               userValue: Option<real>)

  /** A default-constructed variable has the first type. */
  const DEFAULT := Variable(Color, 0.0, "", Key(""), [], None)

  function MathVariable(op: MathOp, args: seq<Arg>): Variable {
    DEFAULT.(ty := Math(op), args := args)
  }

  function NumberVariable(value: real, suffix: string): Variable {
    DEFAULT.(ty := if suffix == "" then Number else Size, number := value, suffix := suffix)
  }

  // ---------- Parsing ----------

  /** A variable pushed while parsing, under its name. */
  datatype Named = Named(name: Key, v: Variable)

  /** What a successful parse leaves: the values, the variables pushed, the cursor, and how many names were drawn. */
  datatype Parsed = Parsed(values: seq<Arg>, vars: seq<Named>, pos: nat, drawn: nat)

  /** `ParseVarName` with the cursor on `var`: `(--name)`, ending on the closing parenthesis. */
  function ParseVarName(tokens: seq<Token>, pos: nat): Option<Arg> {
    if pos + 5 < |tokens| && tokens[pos + 1] == Open && tokens[pos + 2] == Dash && tokens[pos + 3] == Dash
       && tokens[pos + 5] == Close
    then Some(TextOf(tokens[pos + 4])) else None
  }

  /** `ParseMath` with the cursor on the function name; `names` are the random names in the order they are drawn. */
  function MathAt(tokens: seq<Token>, names: nat -> Key, pos: nat, drawn: nat): (p: Option<Parsed>)
    ensures p.Some? ==> pos < p.value.pos < |tokens|
    decreases |tokens| - pos, 0
  {
    if pos + 1 >= |tokens| || tokens[pos + 1] != Open || pos + 2 >= |tokens| then None
    else ParseArgs(tokens, names, Parsed([], [], pos + 2, drawn))
  }

  /** The loop of `ParseMath`, which also ends at a semicolon. */
  function ParseArgs(tokens: seq<Token>, names: nat -> Key, p: Parsed): (q: Option<Parsed>)
    requires p.pos < |tokens|
    ensures q.Some? ==> p.pos <= q.value.pos < |tokens|
    decreases |tokens| - p.pos, 2
  {
    var t := tokens[p.pos];
    if t.Close? || t.Semicolon? then
      if p.values == [] then None else Some(p)
    else
      match ParseArg(tokens, names, p)
      case None => None
      case Some(q) => if q.pos + 1 >= |tokens| then None else ParseArgs(tokens, names, q.(pos := q.pos + 1))
  }

  /** One turn of the loop, up to moving past the argument's last token. */
  function ParseArg(tokens: seq<Token>, names: nat -> Key, p: Parsed): (q: Option<Parsed>)
    requires p.pos < |tokens| && !tokens[p.pos].Close? && !tokens[p.pos].Semicolon?
    ensures q.Some? ==> p.pos <= q.value.pos < |tokens|
    decreases |tokens| - p.pos, 1
  {
    var t := tokens[p.pos];
    if t.MathTok? then
      match MathAt(tokens, names, p.pos, p.drawn + 1)
      case None => None
      case Some(sub) =>
        var name := names(p.drawn);
        Some(Parsed(p.values + [Name(name)], p.vars + sub.vars + [Named(name, MathVariable(t.op, sub.values))],
                    sub.pos, sub.drawn))
    else if t.VarTok? then
      match ParseVarName(tokens, p.pos)
      case None => None
      case Some(arg) => Some(p.(values := p.values + [arg], pos := p.pos + 5))
    else Some(p.(values := p.values + [TextOf(t)]))
  }

  /** Only a parenthesis that is opened, has an argument and is closed is parsed; a semicolon closes it, too. */
  lemma ParsedIsClosed(tokens: seq<Token>, names: nat -> Key, pos: nat, drawn: nat)
    requires MathAt(tokens, names, pos, drawn).Some?
    ensures var p := MathAt(tokens, names, pos, drawn).value;
            && pos + 2 < p.pos && tokens[pos + 1] == Open && p.values != []
            && (tokens[p.pos].Close? || tokens[p.pos].Semicolon?)
  {
    ArgsAreClosed(tokens, names, Parsed([], [], pos + 2, drawn));
  }

  lemma {:induction false} ArgsAreClosed(tokens: seq<Token>, names: nat -> Key, p: Parsed)
    requires p.pos < |tokens| && ParseArgs(tokens, names, p).Some?
    ensures var q := ParseArgs(tokens, names, p).value;
            && q.values != [] && (tokens[q.pos].Close? || tokens[q.pos].Semicolon?)
            && (p.values == [] ==> p.pos < q.pos)
    decreases |tokens| - p.pos
  {
    var t := tokens[p.pos];
    if !t.Close? && !t.Semicolon? {
      var q := ParseArg(tokens, names, p).value;
      ArgsAreClosed(tokens, names, q.(pos := q.pos + 1));
    }
  }

  // ---------- Expressions ----------

  /** An argument of a nested expression as it is written. */
  datatype Item = Leaf(t: Token) | Ref(key: Key) | Nested(op: MathOp, items: seq<Item>)

  /** A token that is an argument by itself: it neither ends the arguments nor begins a function or a reference. */
  predicate IsLeaf(t: Token) {
    !t.Close? && !t.Semicolon? && !t.MathTok? && !t.VarTok?
  }

  /** No parentheses are empty, and leaves are leaves. */
  ghost predicate WellFormed(items: seq<Item>) {
    items != [] && forall item | item in items :: Written(item)
  }

  ghost predicate Written(item: Item) {
    match item
    case Leaf(t) => IsLeaf(t)
    case Ref(_) => true
    case Nested(_, items) => WellFormed(items)
  }

  function Tokens(items: seq<Item>): seq<Token> {
    if items == [] then [] else TokensOf(items[0]) + Tokens(items[1..])
  }

  function TokensOf(item: Item): (ts: seq<Token>)
    ensures ts != []
    ensures (item.Leaf? ==> IsLeaf(item.t)) ==> ts[0] != Close && ts[0] != Semicolon
  {
    match item
    case Leaf(t) => [t]
    case Ref(key) => [VarTok, Open, Dash, Dash, Word(key), Close]
    case Nested(op, items) => [MathTok(op), Open] + Tokens(items) + [Close]
  }

  /** The flat form of a list of arguments: its values, the variables they need, and how many names were drawn. */
  datatype Flat = Flat(values: seq<Arg>, vars: seq<Named>, drawn: nat)

  function Flatten(items: seq<Item>, names: nat -> Key, drawn: nat): Flat {
    if items == [] then Flat([], [], drawn)
    else
      var head := FlattenOne(items[0], names, drawn);
      var tail := Flatten(items[1..], names, head.drawn);
      Flat(head.values + tail.values, head.vars + tail.vars, tail.drawn)
  }

  function FlattenOne(item: Item, names: nat -> Key, drawn: nat): (f: Flat)
    ensures |f.values| == 1
  {
    match item
    case Leaf(t) => Flat([TextOf(t)], [], drawn)
    case Ref(key) => Flat([Name(key)], [], drawn)
    case Nested(op, items) =>
      var sub := Flatten(items, names, drawn + 1);
      Flat([Name(names(drawn))], sub.vars + [Named(names(drawn), MathVariable(op, sub.values))], sub.drawn)
  }

  /** The tokens from the cursor on are these. */
  ghost predicate Spells(tokens: seq<Token>, pos: nat, ts: seq<Token>) {
    pos + |ts| <= |tokens| && forall k | 0 <= k < |ts| :: tokens[pos + k] == ts[k]
  }

  lemma SpellsSplit(tokens: seq<Token>, pos: nat, a: seq<Token>, b: seq<Token>)
    requires Spells(tokens, pos, a + b)
    ensures Spells(tokens, pos, a) && Spells(tokens, pos + |a|, b)
  {
    assert forall k | 0 <= k < |a| :: (a + b)[k] == a[k];
    assert forall k | 0 <= k < |b| :: (a + b)[|a| + k] == b[k];
  }

  /** Appending flat forms to what was parsed before. */
  function Plus(p: Parsed, f: Flat, length: nat): Parsed {
    Parsed(p.values + f.values, p.vars + f.vars, p.pos + length, f.drawn)
  }

  lemma PlusPlus(p: Parsed, f: Flat, m: nat, g: Flat, n: nat)
    ensures Plus(Plus(p, f, m), g, n) == Plus(p, Flat(f.values + g.values, f.vars + g.vars, g.drawn), m + n)
  {
    assert p.values + f.values + g.values == p.values + (f.values + g.values);
    assert p.vars + f.vars + g.vars == p.vars + (f.vars + g.vars);
  }

  /** Parsing the written form of any arguments gives their flat form and stops on the closing parenthesis. */
  lemma {:induction false} ParsesToFlat(tokens: seq<Token>, names: nat -> Key, p: Parsed, items: seq<Item>)
    requires Spells(tokens, p.pos, Tokens(items) + [Close])
    requires forall item | item in items :: Written(item)
    requires p.values != [] || items != []
    ensures ParseArgs(tokens, names, p) == Some(Plus(p, Flatten(items, names, p.drawn), |Tokens(items)|))
    decreases items
  {
    if items == [] {
      NothingToFlat(tokens, names, p);
    } else {
      hide ParseArg, ParseArgs, Plus, Tokens, Flatten, FlattenOne, Spells;
      var n, f := |TokensOf(items[0])|, FlattenOne(items[0], names, p.drawn);
      FirstSpelled(tokens, p.pos, items);
      ParsesOne(tokens, names, p, items[0]);
      OneMore(tokens, names, p, items);
      var q := Plus(p, f, n);
      PlusFields(p, f, n);
      ParsesToFlat(tokens, names, q, items[1..]);
      PlusPlus(p, f, n, Flatten(items[1..], names, f.drawn), |Tokens(items[1..])|);
      FlattenStep(items, names, p.drawn);
    }
  }

  lemma NothingToFlat(tokens: seq<Token>, names: nat -> Key, p: Parsed)
    requires Spells(tokens, p.pos, Tokens([]) + [Close]) && p.values != []
    ensures ParseArgs(tokens, names, p) == Some(Plus(p, Flatten([], names, p.drawn), |Tokens([])|))
  {
    SpellsSplit(tokens, p.pos, Tokens([]), [Close]);
    assert tokens[p.pos + 0] == [Close][0];
    assert p.values + [] == p.values && p.vars + [] == p.vars;
  }

  /** The tokens of the first argument come first. */
  lemma FirstSpelled(tokens: seq<Token>, pos: nat, items: seq<Item>)
    requires items != [] && Spells(tokens, pos, Tokens(items) + [Close])
    ensures Spells(tokens, pos, TokensOf(items[0])) && pos < |tokens| && tokens[pos] == TokensOf(items[0])[0]
    ensures Spells(tokens, pos + |TokensOf(items[0])|, Tokens(items[1..]) + [Close])
    ensures pos + |TokensOf(items[0])| < |tokens|
  {
    var ts, rest := TokensOf(items[0]), Tokens(items[1..]);
    assert Tokens(items) + [Close] == ts + (rest + [Close]);
    SpellsSplit(tokens, pos, ts, rest + [Close]);
    assert tokens[pos + 0] == ts[0];
  }

  lemma PlusFields(p: Parsed, f: Flat, n: nat)
    requires |f.values| == 1
    ensures var q := Plus(p, f, n); q.pos == p.pos + n && q.drawn == f.drawn && q.values != []
  {
  }

  /** One turn of the loop. */
  lemma OneMore(tokens: seq<Token>, names: nat -> Key, p: Parsed, items: seq<Item>)
    requires items != [] && p.pos + |TokensOf(items[0])| < |tokens| && tokens[p.pos] == TokensOf(items[0])[0]
    requires Written(items[0])
    requires ParseArg(tokens, names, p)
          == Some(Plus(p, FlattenOne(items[0], names, p.drawn), |TokensOf(items[0])| - 1))
    ensures ParseArgs(tokens, names, p)
         == ParseArgs(tokens, names, Plus(p, FlattenOne(items[0], names, p.drawn), |TokensOf(items[0])|))
  {
    hide ParseArg, FlattenOne, TokensOf;
  }

  lemma FlattenStep(items: seq<Item>, names: nat -> Key, drawn: nat)
    requires items != []
    ensures var f := FlattenOne(items[0], names, drawn);
            var g := Flatten(items[1..], names, f.drawn);
            && Flatten(items, names, drawn) == Flat(f.values + g.values, f.vars + g.vars, g.drawn)
            && |Tokens(items)| == |TokensOf(items[0])| + |Tokens(items[1..])|
  {
    hide FlattenOne, TokensOf;
  }

  lemma {:induction false} ParsesOne(tokens: seq<Token>, names: nat -> Key, p: Parsed, item: Item)
    requires Spells(tokens, p.pos, TokensOf(item))
    requires Written(item)
    ensures ParseArg(tokens, names, p) == Some(Plus(p, FlattenOne(item, names, p.drawn), |TokensOf(item)| - 1))
    decreases item
  {
    var ts := TokensOf(item);
    assert tokens[p.pos + 0] == ts[0];
    assert p.vars + [] == p.vars;
    match item {
      case Leaf(_) =>
      case Ref(_) =>
        assert tokens[p.pos + 1] == ts[1] && tokens[p.pos + 2] == ts[2] && tokens[p.pos + 3] == ts[3];
        assert tokens[p.pos + 4] == ts[4] && tokens[p.pos + 5] == ts[5];
      case Nested(op, items) =>
        var start := Parsed([], [], p.pos + 2, p.drawn + 1);
        var inner := Tokens(items);
        assert ts == [MathTok(op), Open] + (inner + [Close]);
        SpellsSplit(tokens, p.pos, [MathTok(op), Open], inner + [Close]);
        assert tokens[p.pos + 1] == ts[1];
        ParsesToFlat(tokens, names, start, items);
        var sub := Flatten(items, names, p.drawn + 1);
        assert [] + sub.values == sub.values && [] + sub.vars == sub.vars;
        var v := Named(names(p.drawn), MathVariable(op, sub.values));
        assert p.vars + sub.vars + [v] == p.vars + (sub.vars + [v]);
    }
  }

  class Parser {
    const tokens: seq<Token>
    const names: nat -> Key
    var pos: nat
    var drawn: nat
    var vars: seq<Named>

    constructor (tokens: seq<Token>, names: nat -> Key, pos: nat)
      ensures this.tokens == tokens && this.names == names && this.pos == pos && drawn == 0 && vars == []
    {
      this.tokens, this.names, this.pos := tokens, names, pos;
      drawn, vars := 0, [];
    }

    method NextToken() returns (ok: bool)
      requires pos < |tokens|
      modifies this`pos
      ensures ok <==> old(pos) + 1 < |tokens|
      ensures pos == if ok then old(pos) + 1 else old(pos)
    {
      ok := pos + 1 < |tokens|;
      if ok {
        pos := pos + 1;
      }
    }

    method NextTokenShouldBe(t: Token) returns (ok: bool)
      requires pos < |tokens|
      modifies this`pos
      ensures ok <==> old(pos) + 1 < |tokens| && tokens[old(pos) + 1] == t
      ensures ok ==> pos == old(pos) + 1
    {
      ok := pos + 1 < |tokens| && tokens[pos + 1] == t;
      if ok {
        pos := pos + 1;
      }
    }

    /** Result, pushed variables and cursor are those of the parse; after a failure the whole variable is dropped. */
    method ParseMath() returns (ok: bool, values: seq<Arg>)
      requires pos < |tokens|
      modifies this
      ensures var p := MathAt(tokens, names, old(pos), old(drawn));
              && (ok <==> p.Some?)
              && (ok ==> old(vars) <= vars && p.value == Parsed(values, vars[|old(vars)|..], pos, drawn))
      decreases |tokens| - pos, 0
    {
      hide ParseArg;
      values := [];
      ok := NextTokenShouldBe(Open);
      if ok {
        ok := NextToken();
      }
      if !ok {
        return false, values;
      }
      ghost var start := |vars|;
      ghost var result := MathAt(tokens, names, old(pos), old(drawn));
      assert vars[start..] == [];
      while tokens[pos] != Close
        invariant old(pos) + 2 <= pos < |tokens| && start == |old(vars)| && old(vars) <= vars
        invariant result == ParseArgs(tokens, names, Parsed(values, vars[start..], pos, drawn))
        decreases |tokens| - pos
      {
        if tokens[pos] == Semicolon {
          break;
        }
        ok, values := ParseOperand(values, start);
        if !ok {
          return false, values;
        }
        var more := NextToken();
        if !more {
          return false, values;
        }
      }
      ok := values != [];
    }

    /** The body of the loop, up to moving past the operand's last token. */
    method ParseOperand(values: seq<Arg>, ghost start: nat) returns (ok: bool, longer: seq<Arg>)
      requires pos < |tokens| && tokens[pos] != Close && tokens[pos] != Semicolon && start <= |vars|
      modifies this
      ensures var p := ParseArg(tokens, names, Parsed(values, old(vars)[start..], old(pos), old(drawn)));
              && (ok <==> p.Some?)
              && (ok ==> && old(vars) <= vars && old(pos) <= pos < |tokens|
                         && p.value == Parsed(longer, vars[start..], pos, drawn))
      decreases |tokens| - pos, 1
    {
      hide ParseArgs;
      ok, longer := true, values;
      if tokens[pos].MathTok? {
        var op := tokens[pos].op;
        var name := names(drawn);
        drawn := drawn + 1;
        ghost var before := vars;
        var subOk, subvalues := ParseMath();
        if !subOk {
          return false, values;
        }
        longer := values + [Name(name)];
        ghost var inner := vars;
        vars := vars + [Named(name, MathVariable(op, subvalues))];
        assert vars[start..] == before[start..] + inner[|before|..] + [Named(name, MathVariable(op, subvalues))];
      } else if tokens[pos].VarTok? {
        if pos + 5 >= |tokens| || tokens[pos + 1] != Open || tokens[pos + 2] != Dash || tokens[pos + 3] != Dash
           || tokens[pos + 5] != Close {
          return false, values;
        }
        longer := values + [TextOf(tokens[pos + 4])];
        pos := pos + 5;
      } else {
        longer := values + [TextOf(tokens[pos])];
      }
    }
  }

  // ---------- Evaluation ----------

  type Vars = map<Key, Variable>

  function Lookup(vars: Vars, key: Key): Variable {
    if key in vars then vars[key] else DEFAULT
  }

  /** Diverges stands for a run that does not end within the given number of steps. */
  datatype Resolution = Found(v: Variable) | Missing | Unending

  /** `ResolveVariable` for an alias of `key`. */
  function Resolve(vars: Vars, key: Key, fuel: nat): Resolution
    decreases fuel
  {
    var v := Lookup(vars, key);
    if v.ty != Alias then Found(v)
    else if fuel == 0 then Unending
    else if v.target !in vars then Missing
    else Resolve(vars, v.target, fuel - 1)
  }

  /** What becomes of an operand: a number or size, the thrown error, or no end; OutOfRange reads a missing operator. */
  datatype Operand = Value(v: Variable) | Thrown | OutOfRange | Endless

  /** The text `EvalMath` returns: a printed number with its suffix or the invalid marker. */
  datatype Result = Printed(value: real, suffix: string) | Invalid | NoOperator | NoEnd

  /** Reading a printed result again; text that does not start with a digit is an unknown key. */
  function Reparse(r: Result): Operand {
    match r
    case Printed(value, suffix) => if value >= 0.0 then Value(NumberVariable(value, suffix)) else Thrown
    case Invalid => Thrown
    case NoOperator => OutOfRange
    case NoEnd => Endless
  }

  predicate IsNumeric(v: Variable) {
    v.ty == Number || v.ty == Size
  }

  /** `ParseMathVariable`. */
  function ParseMathVariable(vars: Vars, arg: Arg, recursion: nat, fuel: nat): Operand
    decreases fuel, 0
  {
    match arg
    case Num(value, suffix) => Value(NumberVariable(value, suffix))
    case Name(key) =>
      match Resolve(vars, key, fuel)
      case Unending => Endless
      case Missing => Thrown
      case Found(v) =>
        if v.ty.Math? then
          if fuel == 0 then Endless else Reparse(EvalMath(vars, v, recursion + 1, fuel - 1))
        else if IsNumeric(v) then Value(v) else Thrown
  }

  predicate ValidOperator(op: MathOp, arg: Arg) {
    if op == Calc then arg in [Name(Key("*")), Name(Key("+")), Name(Key("-")), Name(Key("/"))]
    else arg == Name(Key(","))
  }

  /** `EvalMath`. */
  function EvalMath(vars: Vars, v: Variable, recursion: nat, fuel: nat): Result
    decreases fuel, 1
  {
    if recursion >= 10 then Invalid
    else if !v.ty.Math? then Invalid
    else if |v.args| < 2 then NoOperator
    else if !ValidOperator(v.ty.op, v.args[1]) then Invalid
    else if |v.args| != 3 then Invalid
    else
      var first := ParseMathVariable(vars, v.args[0], 0, fuel);
      if !first.Value? then Failed(first)
      else
        var second := ParseMathVariable(vars, v.args[2], 0, fuel);
        if !second.Value? then Failed(second) else Compute(v.ty.op, v.args[1], first.v, second.v)
  }

  function Failed(o: Operand): Result
    requires !o.Value?
  {
    match o
    case Thrown => Invalid
    case OutOfRange => NoOperator
    case Endless => NoEnd
  }

  function Amount(v: Variable): real {
    if v.userValue.Some? then v.userValue.value else v.number
  }

  /** The arithmetic on two operands; a `calc` that gives zero or divides by zero is refused. */
  function Compute(op: MathOp, operator: Arg, a: Variable, b: Variable): Result {
    if a.suffix != "" && b.suffix != "" && a.suffix != b.suffix then Invalid
    else
      var x, y := Amount(a), Amount(b);
      var suffix := if a.suffix != "" then a.suffix else b.suffix;
      match op
      case Max => Printed(if x > y then x else y, suffix)
      case Min => Printed(if x < y then x else y, suffix)
      case Calc =>
        if operator == Name(Key("/")) && y == 0.0 then Invalid
        else
          var z := if operator == Name(Key("+")) then x + y
                   else if operator == Name(Key("-")) then x - y
                   else if operator == Name(Key("*")) then x * y
                   else if y != 0.0 then x / y else 0.0;
          if z == 0.0 then Invalid else Printed(z, suffix)
  }

  // ---------- Arithmetic ----------

  /** What counts of an operand: the user's value if there is one. */
  predicate Counts(v: Variable, x: real) {
    if v.userValue.Some? then v.userValue == Some(x) else v.number == x
  }

  /** What an operator makes of two amounts, if anything. */
  ghost predicate Makes(op: MathOp, symbol: string, x: real, y: real, z: real) {
    match op
    case Max => z >= x && z >= y && z in {x, y}
    case Min => z <= x && z <= y && z in {x, y}
    case Calc =>
      && z != 0.0
      && match symbol {
           case "+" => z - y == x
           case "-" => z + y == x
           case "*" => z == x * y
           case _ => y != 0.0 && z * y == x
         }
  }

  /** At most one unit, or the same. */
  predicate Fit(s: string, t: string) {
    s == "" || t == "" || s == t
  }

  /** The unit that is present. */
  ghost predicate UnitOf(t: string, u: string, s: string) {
    {t, u} - {""} == {s} - {""}
  }

  const SYMBOLS := ["+", "-", "*", "/"]

  /**
    A binary expression over operands with values: refused exactly if the suffixes differ or the operator makes nothing
    of the amounts, else what it makes of them with the suffix that is present.
   */
  lemma MathValue(vars: Vars, v: Variable, recursion: nat, fuel: nat, symbol: string, a: Variable, b: Variable,
                  x: real, y: real)
    requires recursion < 10 && v.ty.Math? && |v.args| == 3 && v.args[1] == Name(Key(symbol))
    requires symbol in if v.ty.op == Calc then SYMBOLS else [","]
    requires ParseMathVariable(vars, v.args[0], 0, fuel) == Value(a) && Counts(a, x)
    requires ParseMathVariable(vars, v.args[2], 0, fuel) == Value(b) && Counts(b, y)
    ensures var r, clash := EvalMath(vars, v, recursion, fuel), !Fit(a.suffix, b.suffix);
            && (r.Invalid? <==> clash || forall z :: !Makes(v.ty.op, symbol, x, y, z))
            && (r.Invalid? || (r.Printed? && Makes(v.ty.op, symbol, x, y, r.value)
                               && UnitOf(a.suffix, b.suffix, r.suffix)))
  {
    hide ParseMathVariable;
    var r := EvalMath(vars, v, recursion, fuel);
    assert r == Compute(v.ty.op, v.args[1], a, b);
    ComputeMakes(v.ty.op, symbol, a, b, x, y);
  }

  lemma ComputeMakes(op: MathOp, symbol: string, a: Variable, b: Variable, x: real, y: real)
    requires symbol in (if op == Calc then SYMBOLS else [","]) && Counts(a, x) && Counts(b, y)
    ensures var r, clash := Compute(op, Name(Key(symbol)), a, b), !Fit(a.suffix, b.suffix);
            && (r.Invalid? <==> clash || forall z :: !Makes(op, symbol, x, y, z))
            && (r.Invalid? || (r.Printed? && Makes(op, symbol, x, y, r.value)
                               && UnitOf(a.suffix, b.suffix, r.suffix)))
  {
    hide Makes;
    if op == Calc && symbol == "/" && y == 0.0 {
      NoQuotient(x);
    } else {
      var z := Outcome(op, symbol, x, y);
      MakesOf(op, symbol, x, y, z);
      assert Makes(op, symbol, x, y, z) <==> (op == Calc ==> z != 0.0);
    }
  }

  lemma OnlyOne(op: MathOp, symbol: string, x: real, y: real)
    requires symbol in (if op == Calc then SYMBOLS else [","])
    ensures forall v, w :: Makes(op, symbol, x, y, v) && Makes(op, symbol, x, y, w) ==> v == w
  {
    hide Makes;
    if op == Calc && symbol == "/" && y == 0.0 {
      NoQuotient(x);
    } else {
      var z := Outcome(op, symbol, x, y);
      MakesOf(op, symbol, x, y, z);
    }
  }

  function Outcome(op: MathOp, symbol: string, x: real, y: real): real
    requires op == Calc ==> symbol in SYMBOLS && (symbol == "/" ==> y != 0.0)
  {
    match op
    case Max => if x > y then x else y
    case Min => if x < y then x else y
    case Calc =>
      if symbol == "+" then x + y else if symbol == "-" then x - y else if symbol == "*" then x * y else x / y
  }

  /** There is at most one such number. */
  lemma MakesOf(op: MathOp, symbol: string, x: real, y: real, z: real)
    requires symbol in (if op == Calc then SYMBOLS else [","]) && (op == Calc && symbol == "/" ==> y != 0.0)
    requires z == Outcome(op, symbol, x, y)
    ensures forall w :: Makes(op, symbol, x, y, w) <==> w == z && (op == Calc ==> z != 0.0)
  {
    forall w ensures Makes(op, symbol, x, y, w) <==> w == z && (op == Calc ==> z != 0.0) {
      if op == Calc && symbol == "/" {
        Quotient(x, y, w);
      }
    }
  }

  lemma NoQuotient(x: real)
    ensures forall z :: !Makes(Calc, "/", x, 0.0, z)
  {
  }

  lemma Quotient(x: real, y: real, w: real)
    requires y != 0.0
    ensures w * y == x <==> w == x / y
  {
  }

  /** The guard on the recursion depth never acts: operands are read at depth 0, so nested ones are at depth 1. */
  lemma GuardIsDead(vars: Vars, v: Variable, recursion: nat, fuel: nat)
    requires recursion < 10
    ensures EvalMath(vars, v, recursion, fuel) == EvalMath(vars, v, 0, fuel)
  {
  }

  /** The argument stands for this amount and unit; a nested result is read again, which works if it is not negative. */
  ghost predicate Worth(vars: Vars, arg: Arg, x: real, s: string, fuel: nat)
    decreases fuel, 0
  {
    match arg
    case Num(value, suffix) => x == value && s == suffix
    case Name(key) =>
      var r := Resolve(vars, key, fuel);
      r.Found? && if r.v.ty.Math? then x >= 0.0 && fuel > 0 && Gives(vars, r.v, x, s, fuel - 1)
                  else r.v.ty in {Number, Size} && Counts(r.v, x) && s == r.v.suffix
  }

  /** The expression makes this amount out of those of its operands, with their unit. */
  ghost predicate Gives(vars: Vars, v: Variable, x: real, s: string, fuel: nat)
    requires v.ty.Math?
    decreases fuel, 1
  {
    && |v.args| == 3 && v.args[1].Name?
    && v.args[1].key.text in (if v.ty.op == Calc then SYMBOLS else [","])
    && exists y, t, z, u :: Worth(vars, v.args[0], y, t, fuel) && Worth(vars, v.args[2], z, u, fuel)
                            && Makes(v.ty.op, v.args[1].key.text, y, z, x) && Fit(t, u) && UnitOf(t, u, s)
  }

  lemma OneUnit(t: string, u: string, s: string)
    requires Fit(t, u)
    ensures UnitOf(t, u, s) <==> s == if t == "" then u else t
  {
    if UnitOf(t, u, s) {
      assert t in {t, u} && u in {t, u} && s in {s};
      assert t != "" ==> t in {t, u} - {""};
      assert u != "" ==> u in {t, u} - {""};
      assert s != "" ==> s in {s} - {""};
    }
  }

  /** Operands evaluate to what they are worth, and to nothing else. */
  lemma {:induction false} OperandIsWorth(vars: Vars, arg: Arg, fuel: nat, x: real, s: string)
    ensures var o := ParseMathVariable(vars, arg, 0, fuel);
            Worth(vars, arg, x, s, fuel) <==> o.Value? && Counts(o.v, x) && s == o.v.suffix
    decreases fuel, 0
  {
    hide EvalMath, Gives;
    if arg.Name? {
      var r := Resolve(vars, arg.key, fuel);
      if r.Found? && r.v.ty.Math? && fuel > 0 {
        MathIsGiven(vars, r.v, fuel - 1, x, s);
        GuardIsDead(vars, r.v, 1, fuel - 1);
      }
    }
  }

  /** Expressions evaluate to what they give. */
  lemma {:induction false} MathIsGiven(vars: Vars, v: Variable, fuel: nat, x: real, s: string)
    requires v.ty.Math?
    ensures Gives(vars, v, x, s, fuel) <==> EvalMath(vars, v, 0, fuel) == Printed(x, s)
    decreases fuel, 1
  {
    hide ParseMathVariable, Worth, Makes, UnitOf, Fit, Compute;
    if |v.args| == 3 && v.args[1].Name? {
      var symbol := v.args[1].key.text;
      var o, p := ParseMathVariable(vars, v.args[0], 0, fuel), ParseMathVariable(vars, v.args[2], 0, fuel);
      forall y, t ensures Worth(vars, v.args[0], y, t, fuel) <==> o.Value? && Counts(o.v, y) && t == o.v.suffix {
        OperandIsWorth(vars, v.args[0], fuel, y, t);
      }
      forall z, u ensures Worth(vars, v.args[2], z, u, fuel) <==> p.Value? && Counts(p.v, z) && u == p.v.suffix {
        OperandIsWorth(vars, v.args[2], fuel, z, u);
      }
      if symbol in (if v.ty.op == Calc then SYMBOLS else [","]) && o.Value? && p.Value? {
        var y, z := Amount(o.v), Amount(p.v);
        assert Worth(vars, v.args[0], y, o.v.suffix, fuel) && Worth(vars, v.args[2], z, p.v.suffix, fuel);
        MathValue(vars, v, 0, fuel, symbol, o.v, p.v, y, z);
        ComputeGives(v.ty.op, symbol, o.v, p.v, y, z, x, s);
      }
    }
  }

  lemma ComputeGives(op: MathOp, symbol: string, a: Variable, b: Variable, y: real, z: real, x: real, s: string)
    requires symbol in (if op == Calc then SYMBOLS else [","]) && Counts(a, y) && Counts(b, z)
    ensures Compute(op, Name(Key(symbol)), a, b) == Printed(x, s)
       <==> Makes(op, symbol, y, z, x) && Fit(a.suffix, b.suffix) && UnitOf(a.suffix, b.suffix, s)
  {
    hide Makes, Compute, UnitOf;
    ComputeMakes(op, symbol, a, b, y, z);
    OnlyOne(op, symbol, y, z);
    if Fit(a.suffix, b.suffix) {
      OneUnit(a.suffix, b.suffix, s);
      var r := Compute(op, Name(Key(symbol)), a, b);
      if r.Printed? {
        OneUnit(a.suffix, b.suffix, r.suffix);
      }
    }
  }

  // ---------- Termination ----------

  /** Every alias and every operand of a math variable refers to variables of lower rank. */
  ghost predicate Ranked(vars: Vars, rank: Key -> nat) {
    forall k | k in vars ::
      && (vars[k].ty == Alias ==> rank(vars[k].target) < rank(k))
      && (vars[k].ty.Math? ==> forall arg | arg in vars[k].args && arg.Name? :: rank(arg.key) < rank(k))
  }

  lemma {:induction false} ResolveEnds(vars: Vars, rank: Key -> nat, key: Key, fuel: nat)
    requires Ranked(vars, rank) && rank(key) <= fuel
    ensures var r := Resolve(vars, key, fuel);
            && !r.Unending?
            && (r.Found? ==> r.v.ty != Alias)
            && (r.Found? && r.v.ty.Math? ==> forall arg | arg in r.v.args && arg.Name? :: rank(arg.key) < rank(key))
    decreases fuel
  {
    if Lookup(vars, key).ty == Alias && vars[key].target in vars {
      ResolveEnds(vars, rank, vars[key].target, fuel - 1);
    }
  }

  /** On ranked variables evaluation ends, after at most as many steps as the rank. */
  lemma {:induction false} OperandEnds(vars: Vars, rank: Key -> nat, arg: Arg, recursion: nat, fuel: nat)
    requires Ranked(vars, rank) && (arg.Name? ==> rank(arg.key) < fuel)
    ensures !ParseMathVariable(vars, arg, recursion, fuel).Endless?
    decreases fuel, 0
  {
    if arg.Name? {
      ResolveEnds(vars, rank, arg.key, fuel);
      var r := Resolve(vars, arg.key, fuel);
      if r.Found? && r.v.ty.Math? {
        MathEnds(vars, rank, r.v, recursion + 1, fuel - 1);
      }
    }
  }

  lemma {:induction false} MathEnds(vars: Vars, rank: Key -> nat, v: Variable, recursion: nat, fuel: nat)
    requires Ranked(vars, rank) && forall arg | arg in v.args && arg.Name? :: rank(arg.key) < fuel
    ensures !EvalMath(vars, v, recursion, fuel).NoEnd?
    decreases fuel, 1
  {
    if |v.args| == 3 {
      OperandEnds(vars, rank, v.args[0], 0, fuel);
      OperandEnds(vars, rank, v.args[2], 0, fuel);
    }
  }

  // ---------- Cycles ----------

  /** More steps do not change a result. */
  lemma MoreSteps(vars: Vars, arg: Arg, fuel: nat, more: nat)
    requires fuel <= more && !ParseMathVariable(vars, arg, 0, fuel).Endless?
    ensures ParseMathVariable(vars, arg, 0, more) == ParseMathVariable(vars, arg, 0, fuel)
  {
    OperandStable(vars, vars, [], _ => false, arg, 0, fuel, more);
  }

  lemma MoreHops(vars: Vars, key: Key, fuel: nat, more: nat)
    requires fuel <= more && !Resolve(vars, key, fuel).Unending?
    ensures Resolve(vars, key, more) == Resolve(vars, key, fuel)
  {
    ResolveStable(vars, vars, [], _ => false, key, fuel, more);
  }

  /** The operand has a value, given enough steps. */
  ghost predicate HasValue(vars: Vars, arg: Arg) {
    exists fuel: nat :: ParseMathVariable(vars, arg, 0, fuel).Value?
  }

  /** An expression whose operands are read. */
  predicate IsBinary(v: Variable) {
    v.ty.Math? && |v.args| == 3 && ValidOperator(v.ty.op, v.args[1])
  }

  /** To look up `k` is to look up `m`: its target, its first operand, or its second if the first has a value. */
  ghost predicate Needs(vars: Vars, k: Key, m: Key) {
    && k in vars
    && var v := vars[k];
       || (v.ty == Alias && m == v.target && m in vars)
       || (IsBinary(v) && v.args[0] == Name(m))
       || (IsBinary(v) && v.args[2] == Name(m) && HasValue(vars, v.args[0]))
  }

  ghost predicate Chained(vars: Vars, path: seq<Key>) {
    forall i {:trigger path[i]} | 0 <= i < |path| - 1 :: Needs(vars, path[i], path[i + 1])
  }

  /** A chain of needs that comes back to where it has been. */
  ghost predicate Lasso(vars: Vars, path: seq<Key>) {
    |path| >= 2 && Chained(vars, path) && path[|path| - 1] in path[..|path| - 1]
  }

  ghost predicate NoLasso(vars: Vars, k: Key) {
    forall path | Lasso(vars, path) :: path[0] != k
  }

  /** Along a lasso no number of steps is enough, for evaluation or for following aliases. */
  lemma {:induction false} LassoIsEndless(vars: Vars, path: seq<Key>, i: nat, fuel: nat, hops: nat)
    requires Lasso(vars, path) && i < |path| - 1
    ensures ParseMathVariable(vars, Name(path[i]), 0, fuel).Endless? || Resolve(vars, path[i], hops).Unending?
    decreases fuel, hops
  {
    hide Lasso, NoLasso;
    var next := LassoGoesOn(vars, path, i);
    var k, m := path[i], path[next];
    var v := vars[k];
    if v.ty == Alias {
      if hops > 0 {
        LassoIsEndless(vars, path, next, fuel, hops - 1);
        if fuel > 0 && !Resolve(vars, m, fuel - 1).Unending? {
          MoreHops(vars, m, fuel - 1, fuel);
        }
      }
    } else if fuel > 0 {
      LassoIsEndless(vars, path, next, fuel - 1, fuel - 1);
      EndlessOperand(vars, v, m, fuel - 1);
    }
  }

  lemma LassoGoesOn(vars: Vars, path: seq<Key>, i: nat) returns (next: nat)
    requires Lasso(vars, path) && i < |path| - 1
    ensures next < |path| - 1 && Needs(vars, path[i], path[next])
  {
    if i + 1 < |path| - 1 {
      next := i + 1;
    } else {
      var j :| 0 <= j < |path| - 1 && path[j] == path[|path| - 1];
      next := j;
    }
    assert Needs(vars, path[i], path[i + 1]);
  }

  /** An expression does not end while an operand that it reads does not. */
  lemma EndlessOperand(vars: Vars, v: Variable, m: Key, fuel: nat)
    requires IsBinary(v) && ParseMathVariable(vars, Name(m), 0, fuel).Endless?
    requires v.args[0] == Name(m) || (v.args[2] == Name(m) && HasValue(vars, v.args[0]))
    ensures EvalMath(vars, v, 1, fuel).NoEnd?
  {
    hide ParseMathVariable;
    if v.args[0] != Name(m) && !ParseMathVariable(vars, v.args[0], 0, fuel).Endless? {
      var enough: nat :| ParseMathVariable(vars, v.args[0], 0, enough).Value?;
      if fuel <= enough {
        MoreSteps(vars, v.args[0], fuel, enough);
      } else {
        MoreSteps(vars, v.args[0], enough, fuel);
      }
    }
  }

  ghost predicate Distinct(path: seq<Key>) {
    forall i, j | 0 <= i < j < |path| :: path[i] != path[j]
  }

  /** At the end of a chain of different keys evaluation ends, if no lasso starts where the chain does. */
  lemma {:induction false} ChainEnds(vars: Vars, path: seq<Key>) returns (fuel: nat)
    requires path != [] && Chained(vars, path) && Distinct(path) && NoLasso(vars, path[0])
    ensures !ParseMathVariable(vars, Name(path[|path| - 1]), 0, fuel).Endless?
    decreases vars.Keys - (set k | k in path)
  {
    hide Chained, NoLasso, Distinct, ParseMathVariable, Resolve;
    var k := path[|path| - 1];
    if k !in vars {
      PlainEnds(vars, k);
      return 0;
    }
    var v := vars[k];
    if v.ty == Alias && v.target in vars {
      fuel := NeedEnds(vars, path, v.target);
      fuel := AliasEnds(vars, k, fuel);
    } else if IsBinary(v) {
      var first := OperandOf(vars, path, v.args[0]);
      if HasValue(vars, v.args[0]) {
        var second := OperandOf(vars, path, v.args[2]);
        fuel := BinaryEnds(vars, k, first, second);
      } else {
        fuel := FirstFails(vars, k, first);
      }
    } else {
      PlainEnds(vars, k);
      return 1;
    }
  }

  /** What the last key of the chain needs ends. */
  lemma {:induction false} NeedEnds(vars: Vars, path: seq<Key>, m: Key) returns (fuel: nat)
    requires path != [] && Chained(vars, path) && Distinct(path) && NoLasso(vars, path[0])
    requires Needs(vars, path[|path| - 1], m)
    ensures !ParseMathVariable(vars, Name(m), 0, fuel).Endless?
    decreases vars.Keys - (set k | k in path), 0
  {
    hide NoLasso, ParseMathVariable, Resolve;
    var longer := path + [m];
    if m !in vars {
      PlainEnds(vars, m);
      return 0;
    }
    ChainGrows(vars, path, m);
    assert m in vars.Keys - (set k | k in path);
    fuel := ChainEnds(vars, longer);
  }

  lemma ChainGrows(vars: Vars, path: seq<Key>, m: Key)
    requires path != [] && Chained(vars, path) && Distinct(path) && NoLasso(vars, path[0])
    requires Needs(vars, path[|path| - 1], m)
    ensures m !in path && Chained(vars, path + [m]) && Distinct(path + [m])
  {
    hide Needs;
    var longer := path + [m];
    assert Chained(vars, longer) by {
      forall i | 0 <= i < |longer| - 1 ensures Needs(vars, longer[i], longer[i + 1]) {
        assert i < |path| - 1 ==> Needs(vars, path[i], path[i + 1]);
      }
    }
    assert longer[..|path|] == path;
    assert Lasso(vars, longer) <==> m in path;
    assert longer[0] == path[0];
  }

  lemma {:induction false} OperandOf(vars: Vars, path: seq<Key>, arg: Arg) returns (fuel: nat)
    requires path != [] && Chained(vars, path) && Distinct(path) && NoLasso(vars, path[0])
    requires arg.Name? ==> Needs(vars, path[|path| - 1], arg.key)
    ensures !ParseMathVariable(vars, arg, 0, fuel).Endless?
    decreases vars.Keys - (set k | k in path), 1
  {
    hide Chained, NoLasso, Distinct;
    if arg.Name? {
      fuel := NeedEnds(vars, path, arg.key);
    } else {
      fuel := 0;
    }
  }

  /** A key that is not looked up any further. */
  lemma PlainEnds(vars: Vars, k: Key)
    ensures k !in vars ==> !ParseMathVariable(vars, Name(k), 0, 0).Endless?
    ensures k in vars && !(vars[k].ty == Alias && vars[k].target in vars) && !IsBinary(vars[k]) ==>
              !ParseMathVariable(vars, Name(k), 0, 1).Endless?
  {
  }

  lemma AliasEnds(vars: Vars, k: Key, fuel: nat) returns (more: nat)
    requires k in vars && vars[k].ty == Alias && vars[k].target in vars
    requires !ParseMathVariable(vars, Name(vars[k].target), 0, fuel).Endless?
    ensures !ParseMathVariable(vars, Name(k), 0, more).Endless?
  {
    var m := vars[k].target;
    more := fuel + 1;
    MoreSteps(vars, Name(m), fuel, more);
    MoreHops(vars, m, fuel, more);
    assert Resolve(vars, k, more) == Resolve(vars, m, fuel);
  }

  lemma BinaryEnds(vars: Vars, k: Key, first: nat, second: nat) returns (fuel: nat)
    requires k in vars && IsBinary(vars[k])
    requires !ParseMathVariable(vars, vars[k].args[0], 0, first).Endless?
    requires !ParseMathVariable(vars, vars[k].args[2], 0, second).Endless?
    ensures !ParseMathVariable(vars, Name(k), 0, fuel).Endless?
  {
    var both := first + second;
    MoreSteps(vars, vars[k].args[0], first, both);
    MoreSteps(vars, vars[k].args[2], second, both);
    fuel := both + 1;
    assert !EvalMath(vars, vars[k], 1, both).NoEnd?;
    assert Resolve(vars, k, fuel) == Found(vars[k]);
  }

  lemma FirstFails(vars: Vars, k: Key, first: nat) returns (fuel: nat)
    requires k in vars && IsBinary(vars[k]) && !HasValue(vars, vars[k].args[0])
    requires !ParseMathVariable(vars, vars[k].args[0], 0, first).Endless?
    ensures !ParseMathVariable(vars, Name(k), 0, fuel).Endless?
  {
    fuel := first + 1;
    assert !ParseMathVariable(vars, vars[k].args[0], 0, first).Value?;
    assert !EvalMath(vars, vars[k], 1, first).NoEnd?;
    assert Resolve(vars, k, fuel) == Found(vars[k]);
  }

  /** Evaluation of a key ends exactly if no chain of needs from it comes back to where it has been. */
  lemma EvaluationEndsIff(vars: Vars, k: Key)
    ensures (exists fuel: nat :: !ParseMathVariable(vars, Name(k), 0, fuel).Endless?) <==> NoLasso(vars, k)
  {
    if NoLasso(vars, k) {
      var fuel := ChainEnds(vars, [k]);
    } else {
      var path :| Lasso(vars, path) && path[0] == k;
      forall fuel: nat ensures ParseMathVariable(vars, Name(k), 0, fuel).Endless? {
        LassoIsEndless(vars, path, 0, fuel, fuel);
      }
    }
  }

  /** So a variable that is its own operand, or an alias of itself, is evaluated without end. */
  lemma OwnOperandIsEndless(vars: Vars, k: Key, fuel: nat)
    requires Needs(vars, k, k)
    ensures ParseMathVariable(vars, Name(k), 0, fuel).Endless?
  {
    assert [k, k][..1] == [k];
    assert Lasso(vars, [k, k]);
    LassoIsEndless(vars, [k, k], 0, fuel, fuel);
  }

  // ---------- Meaning ----------

  /** The direct value of a nested expression: variables are read from the map, inner expressions evaluated in place. */
  function DirectMath(vars: Vars, op: MathOp, items: seq<Item>, fuel: nat): Result
    decreases items
  {
    if |items| < 2 then NoOperator
    else if !items[1].Leaf? || !ValidOperator(op, TextOf(items[1].t)) || |items| != 3 then Invalid
    else
      var first := DirectOperand(vars, items[0], fuel);
      if !first.Value? then Failed(first)
      else
        var second := DirectOperand(vars, items[2], fuel);
        if !second.Value? then Failed(second) else Compute(op, TextOf(items[1].t), first.v, second.v)
  }

  function DirectOperand(vars: Vars, item: Item, fuel: nat): Operand
    decreases item
  {
    match item
    case Leaf(t) => ParseMathVariable(vars, TextOf(t), 0, fuel)
    case Ref(key) => ParseMathVariable(vars, Name(key), 0, fuel)
    case Nested(op, items) => Reparse(DirectMath(vars, op, items, fuel))
  }

  function Depth(items: seq<Item>): nat {
    if items == [] then 0
    else
      var d, e := DepthOf(items[0]), Depth(items[1..]);
      if d > e then d else e
  }

  function DepthOf(item: Item): nat {
    match item
    case Nested(_, items) => 1 + Depth(items)
    case _ => 0
  }

  lemma {:induction false} DepthCovers(items: seq<Item>, i: nat)
    requires i < |items|
    ensures DepthOf(items[i]) <= Depth(items)
  {
    if i > 0 {
      DepthCovers(items[1..], i - 1);
    }
  }

  predicate IsOperator(arg: Arg) {
    exists op :: ValidOperator(op, arg)
  }

  /** Nothing in the map mentions an anonymous name. */
  ghost predicate FreeOf(vars: Vars, anon: Key -> bool) {
    forall k | k in vars ::
      && !anon(k) && !anon(vars[k].target)
      && forall arg | arg in vars[k].args && arg.Name? :: !anon(arg.key)
  }

  /** The expression mentions no anonymous name, and refers to no variable by the text of an operator. */
  ghost predicate ItemFreeOf(item: Item, anon: Key -> bool) {
    match item
    case Leaf(t) => TextOf(t).Name? ==> !anon(TextOf(t).key)
    case Ref(key) => !anon(key) && !IsOperator(Name(key))
    case Nested(_, items) => forall i | i in items :: ItemFreeOf(i, anon)
  }

  /** Random names are anonymous, different, and no operators. */
  ghost predicate GoodNames(names: nat -> Key, anon: Key -> bool) {
    && (forall n :: anon(names(n)) && !IsOperator(Name(names(n))))
    && (forall m, n :: names(m) == names(n) ==> m == n)
  }

  /** `all` is the map `vars` with the pushed variables added. */
  ghost predicate Extends(all: Vars, vars: Vars, pushed: seq<Named>, anon: Key -> bool) {
    && (forall k | k in vars :: k in all && all[k] == vars[k])
    && (forall k | k in all && !anon(k) :: k in vars)
    && (forall p | p in pushed :: p.name in all && all[p.name] == p.v)
  }

  /** Anonymous variables do not change what other names mean, and more steps do not change a result. */
  lemma {:induction false} OperandStable(all: Vars, vars: Vars, pushed: seq<Named>, anon: Key -> bool, arg: Arg,
                                         recursion: nat, fuel: nat, more: nat)
    requires Extends(all, vars, pushed, anon) && FreeOf(vars, anon) && (arg.Name? ==> !anon(arg.key))
    requires fuel <= more && !ParseMathVariable(vars, arg, recursion, fuel).Endless?
    ensures ParseMathVariable(all, arg, recursion, more) == ParseMathVariable(vars, arg, recursion, fuel)
    decreases fuel, 0
  {
    hide Extends, FreeOf, EvalMath;
    if arg.Name? {
      ResolveStable(all, vars, pushed, anon, arg.key, fuel, more);
      var r := Resolve(vars, arg.key, fuel);
      if r.Found? && r.v.ty.Math? {
        MathStable(all, vars, pushed, anon, r.v, recursion + 1, fuel - 1, more - 1);
      }
    }
  }

  lemma {:induction false} MathStable(all: Vars, vars: Vars, pushed: seq<Named>, anon: Key -> bool, v: Variable,
                                      recursion: nat, fuel: nat, more: nat)
    requires Extends(all, vars, pushed, anon) && FreeOf(vars, anon)
    requires forall arg | arg in v.args && arg.Name? :: !anon(arg.key)
    requires fuel <= more && !EvalMath(vars, v, recursion, fuel).NoEnd?
    ensures EvalMath(all, v, recursion, more) == EvalMath(vars, v, recursion, fuel)
    decreases fuel, 1
  {
    if recursion < 10 && v.ty.Math? && |v.args| == 3 && ValidOperator(v.ty.op, v.args[1]) {
      OperandStable(all, vars, pushed, anon, v.args[0], 0, fuel, more);
      if ParseMathVariable(vars, v.args[0], 0, fuel).Value? {
        OperandStable(all, vars, pushed, anon, v.args[2], 0, fuel, more);
      }
    }
  }

  lemma {:induction false} ResolveStable(all: Vars, vars: Vars, pushed: seq<Named>, anon: Key -> bool, key: Key,
                                         fuel: nat, more: nat)
    requires Extends(all, vars, pushed, anon) && FreeOf(vars, anon) && !anon(key)
    requires fuel <= more && !Resolve(vars, key, fuel).Unending?
    ensures Resolve(all, key, more) == Resolve(vars, key, fuel)
    ensures var r := Resolve(vars, key, fuel);
            r.Found? ==> forall arg | arg in r.v.args && arg.Name? :: !anon(arg.key)
    decreases fuel
  {
    assert key in all <==> key in vars;
    if Lookup(vars, key).ty == Alias && vars[key].target in vars {
      ResolveStable(all, vars, pushed, anon, vars[key].target, fuel - 1, more - 1);
    }
  }

  lemma {:induction false} OperandMeaning(all: Vars, vars: Vars, anon: Key -> bool, names: nat -> Key, drawn: nat,
                                          item: Item, fuel: nat, more: nat)
    requires FreeOf(vars, anon) && GoodNames(names, anon) && ItemFreeOf(item, anon)
    requires Extends(all, vars, FlattenOne(item, names, drawn).vars, anon)
    requires fuel + DepthOf(item) <= more && !DirectOperand(vars, item, fuel).Endless?
    ensures ParseMathVariable(all, FlattenOne(item, names, drawn).values[0], 0, more) == DirectOperand(vars, item, fuel)
    decreases item
  {
    var value := FlattenOne(item, names, drawn).values[0];
    var pushed := FlattenOne(item, names, drawn).vars;
    match item {
      case Leaf(t) =>
        assert value == TextOf(t);
        OperandStable(all, vars, pushed, anon, value, 0, fuel, more);
      case Ref(key) =>
        assert value == Name(key);
        OperandStable(all, vars, pushed, anon, value, 0, fuel, more);
      case Nested(op, items) =>
        NestedMeaning(all, vars, anon, names, drawn, op, items, fuel, more);
    }
  }

  lemma {:induction false} NestedMeaning(all: Vars, vars: Vars, anon: Key -> bool, names: nat -> Key, drawn: nat,
                                         op: MathOp, items: seq<Item>, fuel: nat, more: nat)
    requires FreeOf(vars, anon) && GoodNames(names, anon) && forall i | i in items :: ItemFreeOf(i, anon)
    requires Extends(all, vars, FlattenOne(Nested(op, items), names, drawn).vars, anon)
    requires fuel + 1 + Depth(items) <= more && !DirectMath(vars, op, items, fuel).NoEnd?
    ensures ParseMathVariable(all, Name(names(drawn)), 0, more) == Reparse(DirectMath(vars, op, items, fuel))
    decreases items, 2
  {
    var pushed := FlattenOne(Nested(op, items), names, drawn).vars;
    var sub := Flatten(items, names, drawn + 1);
    var v := MathVariable(op, sub.values);
    assert Named(names(drawn), v) in pushed;
    assert forall p | p in sub.vars :: p in pushed;
    MathMeaning(all, vars, anon, names, drawn + 1, op, items, fuel, more - 1);
    ReadAnonymous(all, names(drawn), v, more);
  }

  lemma ReadAnonymous(all: Vars, name: Key, v: Variable, fuel: nat)
    requires name in all && all[name] == v && v.ty.Math? && fuel > 0
    ensures ParseMathVariable(all, Name(name), 0, fuel) == Reparse(EvalMath(all, v, 0, fuel - 1))
  {
    assert Resolve(all, name, fuel) == Found(v);
    GuardIsDead(all, v, 1, fuel - 1);
  }

  /** Evaluating the flat form over the extended map gives the direct value of the nested expression. */
  lemma {:induction false} MathMeaning(all: Vars, vars: Vars, anon: Key -> bool, names: nat -> Key, drawn: nat,
                                       op: MathOp, items: seq<Item>, fuel: nat, more: nat)
    requires FreeOf(vars, anon) && GoodNames(names, anon) && forall i | i in items :: ItemFreeOf(i, anon)
    requires Extends(all, vars, Flatten(items, names, drawn).vars, anon)
    requires fuel + Depth(items) <= more && !DirectMath(vars, op, items, fuel).NoEnd?
    ensures EvalMath(all, MathVariable(op, Flatten(items, names, drawn).values), 0, more)
         == DirectMath(vars, op, items, fuel)
    decreases items, 1
  {
    FlattenLength(items, names, drawn);
    if |items| >= 2 {
      OperatorMeaning(op, items, names, drawn, anon);
    }
    if |items| == 3 && items[1].Leaf? && ValidOperator(op, TextOf(items[1].t)) {
      PartMeaning(all, vars, anon, names, drawn, items, 0, fuel, more);
      if DirectOperand(vars, items[0], fuel).Value? {
        PartMeaning(all, vars, anon, names, drawn, items, 2, fuel, more);
      }
    }
  }

  /** The middle argument is an operator in the flat form exactly when it is one as written. */
  lemma OperatorMeaning(op: MathOp, items: seq<Item>, names: nat -> Key, drawn: nat, anon: Key -> bool)
    requires GoodNames(names, anon) && |items| >= 2 && ItemFreeOf(items[1], anon)
    ensures |Flatten(items, names, drawn).values| == |items|
    ensures var arg := Flatten(items, names, drawn).values[1];
            && (ValidOperator(op, arg) <==> items[1].Leaf? && ValidOperator(op, TextOf(items[1].t)))
            && (items[1].Leaf? ==> arg == TextOf(items[1].t))
  {
    FlattenLength(items, names, drawn);
    FlattenAt(items, names, drawn, 1);
  }

  lemma {:induction false} PartMeaning(all: Vars, vars: Vars, anon: Key -> bool, names: nat -> Key, drawn: nat,
                                       items: seq<Item>, i: nat, fuel: nat, more: nat)
    requires FreeOf(vars, anon) && GoodNames(names, anon) && i < |items| && ItemFreeOf(items[i], anon)
    requires Extends(all, vars, Flatten(items, names, drawn).vars, anon)
    requires fuel + Depth(items) <= more && !DirectOperand(vars, items[i], fuel).Endless?
    ensures |Flatten(items, names, drawn).values| == |items|
    ensures ParseMathVariable(all, Flatten(items, names, drawn).values[i], 0, more)
         == DirectOperand(vars, items[i], fuel)
    decreases items, 0
  {
    FlattenLength(items, names, drawn);
    FlattenAt(items, names, drawn, i);
    DepthCovers(items, i);
    OperandMeaning(all, vars, anon, names, DrawnAt(items, names, drawn, i), items[i], fuel, more);
  }

  lemma {:induction false} FlattenLength(items: seq<Item>, names: nat -> Key, drawn: nat)
    ensures |Flatten(items, names, drawn).values| == |items|
  {
    if items != [] {
      FlattenLength(items[1..], names, FlattenOne(items[0], names, drawn).drawn);
    }
  }

  /** How many names were drawn before argument `i` is flattened. */
  function DrawnAt(items: seq<Item>, names: nat -> Key, drawn: nat, i: nat): nat
    requires i < |items|
  {
    if i == 0 then drawn else DrawnAt(items[1..], names, FlattenOne(items[0], names, drawn).drawn, i - 1)
  }

  lemma {:induction false} FlattenAt(items: seq<Item>, names: nat -> Key, drawn: nat, i: nat)
    requires i < |items|
    ensures var f, g := Flatten(items, names, drawn), FlattenOne(items[i], names, DrawnAt(items, names, drawn, i));
            && i < |f.values| && f.values[i] == g.values[0]
            && forall p | p in g.vars :: p in f.vars
  {
    FlattenLength(items, names, drawn);
    if i > 0 {
      FlattenAt(items[1..], names, FlattenOne(items[0], names, drawn).drawn, i - 1);
    }
  }

  // ---------- From text to value ----------

  /** Filing the pushed variables under their names, in order. */
  function Install(vars: Vars, pushed: seq<Named>): Vars {
    if pushed == [] then vars
    else
      var last := pushed[|pushed| - 1];
      Install(vars, pushed[..|pushed| - 1])[last.name := last.v]
  }

  ghost predicate Drawn(name: Key, names: nat -> Key, lo: nat, hi: nat) {
    exists n: nat | lo <= n < hi :: name == names(n)
  }

  /** The pushed variables have different names, drawn between the `lo`-th and the `hi`-th. */
  ghost predicate DrawnNames(pushed: seq<Named>, names: nat -> Key, lo: nat, hi: nat) {
    && lo <= hi
    && (forall i | 0 <= i < |pushed| :: Drawn(pushed[i].name, names, lo, hi))
    && (forall i, j | 0 <= i < j < |pushed| :: pushed[i].name != pushed[j].name)
  }

  lemma DrawnConcat(a: seq<Named>, b: seq<Named>, names: nat -> Key, lo: nat, mid: nat, hi: nat)
    requires DrawnNames(a, names, lo, mid) && DrawnNames(b, names, mid, hi)
    requires forall m, n :: names(m) == names(n) ==> m == n
    ensures DrawnNames(a + b, names, lo, hi)
  {
    var c := a + b;
    forall i | 0 <= i < |c|
      ensures Drawn(c[i].name, names, lo, hi)
    {
      if i < |a| {
        assert Drawn(a[i].name, names, lo, mid);
      } else {
        assert Drawn(b[i - |a|].name, names, mid, hi);
      }
    }
    forall i, j | 0 <= i < |a| && 0 <= j < |b|
      ensures a[i].name != b[j].name
    {
      assert Drawn(a[i].name, names, lo, mid) && Drawn(b[j].name, names, mid, hi);
      var m: nat :| lo <= m < mid && a[i].name == names(m);
      var n: nat :| mid <= n < hi && b[j].name == names(n);
    }
  }

  lemma {:induction false} FlattenNames(items: seq<Item>, names: nat -> Key, drawn: nat)
    requires forall m, n :: names(m) == names(n) ==> m == n
    ensures DrawnNames(Flatten(items, names, drawn).vars, names, drawn, Flatten(items, names, drawn).drawn)
    decreases items
  {
    if items != [] {
      var head := FlattenOne(items[0], names, drawn);
      FlattenOneNames(items[0], names, drawn);
      FlattenNames(items[1..], names, head.drawn);
      var tail := Flatten(items[1..], names, head.drawn);
      DrawnConcat(head.vars, tail.vars, names, drawn, head.drawn, tail.drawn);
    }
  }

  lemma {:induction false} FlattenOneNames(item: Item, names: nat -> Key, drawn: nat)
    requires forall m, n :: names(m) == names(n) ==> m == n
    ensures DrawnNames(FlattenOne(item, names, drawn).vars, names, drawn, FlattenOne(item, names, drawn).drawn)
    decreases item
  {
    if item.Nested? {
      FlattenNames(item.items, names, drawn + 1);
      var sub := Flatten(item.items, names, drawn + 1);
      var self := [Named(names(drawn), MathVariable(item.op, sub.values))];
      assert self[0].name == names(drawn);
      forall i | 0 <= i < |sub.vars|
        ensures sub.vars[i].name != names(drawn)
      {
        assert Drawn(sub.vars[i].name, names, drawn + 1, sub.drawn);
      }
      forall i | 0 <= i < |sub.vars|
        ensures Drawn(sub.vars[i].name, names, drawn, sub.drawn)
      {
        assert Drawn(sub.vars[i].name, names, drawn + 1, sub.drawn);
      }
    }
  }

  lemma {:induction false} InstallExtends(vars: Vars, pushed: seq<Named>, names: nat -> Key, lo: nat, hi: nat,
                                          anon: Key -> bool)
    requires DrawnNames(pushed, names, lo, hi) && (forall n :: anon(names(n))) && forall k | k in vars :: !anon(k)
    ensures Extends(Install(vars, pushed), vars, pushed, anon)
  {
    if pushed != [] {
      var init, last := pushed[..|pushed| - 1], pushed[|pushed| - 1];
      forall i | 0 <= i < |init|
        ensures Drawn(init[i].name, names, lo, hi)
      {
        assert Drawn(pushed[i].name, names, lo, hi);
      }
      InstallExtends(vars, init, names, lo, hi, anon);
      assert Drawn(last.name, names, lo, hi);
      assert forall p | p in pushed :: p in init || p == last;
      assert forall p | p in init :: p.name != last.name;
    }
  }

  /** All names the expression itself mentions have a rank below the bound. */
  ghost predicate RankBelow(item: Item, rank: Key -> nat, bound: nat) {
    match item
    case Leaf(t) => TextOf(t).Name? ==> rank(TextOf(t).key) < bound
    case Ref(key) => rank(key) < bound
    case Nested(_, items) => forall i | i in items :: RankBelow(i, rank, bound)
  }

  lemma {:induction false} DirectEnds(vars: Vars, rank: Key -> nat, op: MathOp, items: seq<Item>, fuel: nat)
    requires Ranked(vars, rank) && forall i | i in items :: RankBelow(i, rank, fuel)
    ensures !DirectMath(vars, op, items, fuel).NoEnd?
    decreases items
  {
    if |items| == 3 {
      DirectOperandEnds(vars, rank, items[0], fuel);
      DirectOperandEnds(vars, rank, items[2], fuel);
    }
  }

  lemma {:induction false} DirectOperandEnds(vars: Vars, rank: Key -> nat, item: Item, fuel: nat)
    requires Ranked(vars, rank) && RankBelow(item, rank, fuel)
    ensures !DirectOperand(vars, item, fuel).Endless?
    decreases item
  {
    match item {
      case Leaf(t) => OperandEnds(vars, rank, TextOf(t), 0, fuel);
      case Ref(key) => OperandEnds(vars, rank, Name(key), 0, fuel);
      case Nested(op, items) => DirectEnds(vars, rank, op, items, fuel);
    }
  }

  /**
    Writing an expression out, parsing it, filing the anonymous variables and evaluating the flat form ends,
    and gives the direct value or error of the expression as it was written.
   */
  lemma FlatteningPreservesMeaning(tokens: seq<Token>, pos: nat, names: nat -> Key, anon: Key -> bool, vars: Vars,
                                   rank: Key -> nat, op: MathOp, items: seq<Item>, fuel: nat, more: nat)
    requires Spells(tokens, pos, [MathTok(op), Open] + (Tokens(items) + [Close])) && WellFormed(items)
    requires FreeOf(vars, anon) && GoodNames(names, anon) && forall i | i in items :: ItemFreeOf(i, anon)
    requires Ranked(vars, rank) && forall i | i in items :: RankBelow(i, rank, fuel)
    requires fuel + Depth(items) <= more
    ensures var p := MathAt(tokens, names, pos, 0);
            && p.Some? && p.value.pos == pos + 2 + |Tokens(items)|
            && var result := EvalMath(Install(vars, p.value.vars), MathVariable(op, p.value.values), 0, more);
               result == DirectMath(vars, op, items, fuel) && !result.NoEnd?
  {
    var f := Flatten(items, names, 0);
    SpellsSplit(tokens, pos, [MathTok(op), Open], Tokens(items) + [Close]);
    assert tokens[pos + 1] == [MathTok(op), Open][1];
    ParsesToFlat(tokens, names, Parsed([], [], pos + 2, 0), items);
    assert [] + f.values == f.values && [] + f.vars == f.vars;
    FlattenNames(items, names, 0);
    InstallExtends(vars, f.vars, names, 0, f.drawn, anon);
    DirectEnds(vars, rank, op, items, fuel);
    MathMeaning(Install(vars, f.vars), vars, anon, names, 0, op, items, fuel, more);
  }

  lemma ThreeLeaves(a: Token, b: Token, d: Token)
    ensures Tokens([Leaf(a), Leaf(b), Leaf(d)]) == [a, b, d] && Depth([Leaf(a), Leaf(b), Leaf(d)]) == 0
  {
    var x, y, z := Leaf(a), Leaf(b), Leaf(d);
    assert [x, y, z][1..] == [y, z] && [y, z][1..] == [z] && [z][1..] == [];
    assert Tokens([z]) == [d] && Depth([z]) == 0;
    assert Tokens([y, z]) == [b, d] && Depth([y, z]) == 0;
  }

  lemma SubtractionValue(vars: Vars)
    ensures DirectMath(vars, Calc, [Leaf(Other(Num(5.0, "px"))), Leaf(Dash), Leaf(Other(Num(3.0, "px")))], 1)
         == Printed(2.0, "px")
  {
    hide ParseMathVariable;
    NumberIsItself(vars, 5.0, "px");
    NumberIsItself(vars, 3.0, "px");
  }

  lemma NumberIsItself(vars: Vars, value: real, suffix: string)
    ensures ParseMathVariable(vars, Num(value, suffix), 0, 1) == Value(NumberVariable(value, suffix))
  {
  }

  /** A subtraction, whose sign is the same token as the dashes of a reference. */
  lemma SubtractionExample(names: nat -> Key, anon: Key -> bool)
    requires GoodNames(names, anon) && !anon(Key("-"))
    ensures var p := MathAt([MathTok(Calc), Open, Other(Num(5.0, "px")), Dash, Other(Num(3.0, "px")), Close], names,
                            0, 0);
            && p.Some? && p.value.pos == 5
            && EvalMath(Install(map[], p.value.vars), MathVariable(Calc, p.value.values), 0, 1) == Printed(2.0, "px")
  {
    hide MathAt, EvalMath, DirectMath, Install, Tokens, Depth, GoodNames;
    var five, three := Other(Num(5.0, "px")), Other(Num(3.0, "px"));
    var tokens, items := [MathTok(Calc), Open, five, Dash, three, Close], [Leaf(five), Leaf(Dash), Leaf(three)];
    ThreeLeaves(five, Dash, three);
    SubtractionValue(map[]);
    assert [MathTok(Calc), Open] + ([five, Dash, three] + [Close]) == tokens;
    FlatteningPreservesMeaning(tokens, 0, names, anon, map[], _ => 0, Calc, items, 1, 1);
  }

  lemma MaximumExample(vars: Vars, fuel: nat)
    ensures EvalMath(vars, MathVariable(Max, [Num(5.0, "px"), Name(Key(",")), Num(3.0, "px")]), 0, fuel)
         == Printed(5.0, "px")
  {
  }
}
