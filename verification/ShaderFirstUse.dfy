/**
  The order of the textures and samplers that a function is given in a call: that of their first use, with the bodies
  of the functions it calls read at the places where they are named.
 */
module ShaderFirstUse {
  import opened ShaderAnalysis
  import opened ShaderEmit
  import opened ShaderLifting
  import opened ShaderSyntax
  import opened Wrappers

  datatype Kind = Textures | Samplers

  function Pick(d: Needs, kind: Kind): seq<Symbol> {
    if kind.Textures? then d.textures else d.samplers
  }

  function Declared(sh: Shader, kind: Kind): seq<Symbol> {
    if kind.Textures? then sh.order else sh.samplers
  }

  // ---------- Uses in the source ----------

  /** The function of this name among the first `i`. */
  function Callee(defs: seq<Definition>, i: nat, n: Symbol): (j: Option<nat>)
    requires i <= |defs|
    ensures j.Some? ==> j.value < i && defs[j.value].name == n
    ensures j.None? ==> forall k | 0 <= k < i :: defs[k].name != n
  {
    if i == 0 then None else if defs[i - 1].name == n then Some(i - 1) else Callee(defs, i - 1, n)
  }

  /** The global that the name itself is. */
  function Itself(sh: Shader, kind: Kind, n: Symbol): seq<Symbol> {
    if kind.Textures? then if sh.IsTexture(n) then [n] else []
    else if sh.fragment && n in sh.samplers then [n] else []
  }

  /** All uses of function `i`, in their order, where a function's name stands for the uses of its body. */
  function Uses(sh: Shader, kind: Kind, defs: seq<Definition>, bodies: seq<seq<Tree>>, i: nat): seq<Symbol>
    requires |bodies| == |defs| && i < |defs|
    decreases i, 1, 0
  {
    UsesIn(sh, kind, defs, bodies, i, Flat(bodies[i]))
  }

  function UsesIn(sh: Shader, kind: Kind, defs: seq<Definition>, bodies: seq<seq<Tree>>, i: nat, toks: seq<Token>)
    : seq<Symbol>
    requires |bodies| == |defs| && i < |defs|
    decreases i, 0, |toks|
  {
    if toks == [] then []
    else UsesIn(sh, kind, defs, bodies, i, toks[..|toks| - 1]) + UsesOf(sh, kind, defs, bodies, i, toks[|toks| - 1])
  }

  function UsesOf(sh: Shader, kind: Kind, defs: seq<Definition>, bodies: seq<seq<Tree>>, i: nat, t: Token): seq<Symbol>
    requires |bodies| == |defs| && i < |defs|
    decreases i, 0, 0
  {
    if !t.Name? then []
    else
      (match Callee(defs, i, t.name) case None => [] case Some(j) => Uses(sh, kind, defs, bodies, j))
      + Itself(sh, kind, t.name)
  }

  // ---------- First occurrences ----------

  /** The elements of `s` that are not in `a`. */
  function Minus(s: seq<Symbol>, a: seq<Symbol>): seq<Symbol> {
    if s == [] then []
    else Minus(s[..|s| - 1], a) + if s[|s| - 1] in a then [] else [s[|s| - 1]]
  }

  lemma {:induction false} UniqueAppend(a: seq<Symbol>, b: seq<Symbol>)
    ensures Unique(a + b) == Unique(a) + Minus(Unique(b), a)
  {
    if b == [] {
      assert a + b == a;
    } else {
      var front, last := b[..|b| - 1], b[|b| - 1];
      assert (a + b)[..|a + b| - 1] == a + front;
      UniqueAppend(a, front);
      UniqueKeeps(a + front);
      UniqueKeeps(front);
      if last !in front {
        assert (Unique(front) + [last])[..|Unique(front)|] == Unique(front);
      }
    }
  }

  lemma {:induction false} MinusSame(s: seq<Symbol>, a: seq<Symbol>, b: seq<Symbol>)
    requires forall x :: x in a <==> x in b
    ensures Minus(s, a) == Minus(s, b)
  {
    if s != [] {
      MinusSame(s[..|s| - 1], a, b);
    }
  }

  /** Only first occurrences count. */
  lemma UniqueSame(a: seq<Symbol>, b: seq<Symbol>, x: seq<Symbol>, y: seq<Symbol>)
    requires Unique(a) == Unique(x) && Unique(b) == Unique(y)
    ensures Unique(a + b) == Unique(x + y)
  {
    UniqueAppend(a, b);
    UniqueAppend(x, y);
    UniqueKeeps(a);
    UniqueKeeps(x);
    MinusSame(Unique(b), a, x);
  }

  lemma {:induction false} UniqueOfDistinct(s: seq<Symbol>)
    requires NoRepeats(s)
    ensures Unique(s) == s
  {
    if s != [] {
      UniqueOfDistinct(s[..|s| - 1]);
      assert s == s[..|s| - 1] + [s[|s| - 1]];
    }
  }

  lemma UniqueTwice(s: seq<Symbol>)
    ensures Unique(Unique(s)) == Unique(s)
  {
    UniqueKeeps(s);
    UniqueOfDistinct(Unique(s));
  }

  // ---------- The record of a function ----------

  /** What a token adds to the record. */
  function Noticed(sh: Shader, kind: Kind, fs: map<Symbol, Needs>, t: Token): seq<Symbol> {
    if !t.Name? then []
    else (if t.name in fs then Pick(fs[t.name], kind) else []) + Itself(sh, kind, t.name)
  }

  lemma NoteAdds(sh: Shader, kind: Kind, fs: map<Symbol, Needs>, d: Needs, t: Token)
    requires NoRepeats(sh.samplers)
    ensures Pick(NoteToken(sh, fs, d, t), kind) == Pick(d, kind) + Noticed(sh, kind, fs, t)
  {
    hide NoRepeats, Filter;
    if t.Name? {
      var before, own := if t.name in fs then Pick(fs[t.name], kind) else [], Itself(sh, kind, t.name);
      DeclaredOnce(sh, t.name);
      assert Pick(NoteToken(sh, fs, d, t), kind) == Pick(d, kind) + before + own;
    }
  }

  lemma DeclaredOnce(sh: Shader, n: Symbol)
    requires NoRepeats(sh.samplers)
    ensures Filter(sh.samplers, {n}) == if n in sh.samplers then [n] else []
  {
    hide NoRepeats, Filter;
    if n in sh.samplers {
      FilterOne(sh.samplers, n);
    } else {
      FilterNone(sh.samplers, n);
    }
  }

  /** The last token of a stretch. */
  lemma CollectLast(sh: Shader, fs: map<Symbol, Needs>, d: Needs, toks: seq<Token>)
    requires toks != []
    ensures Collect(sh, fs, d, toks) == NoteToken(sh, fs, Collect(sh, fs, d, toks[..|toks| - 1]), toks[|toks| - 1])
  {
    hide NoteToken;
    var front, last := toks[..|toks| - 1], toks[|toks| - 1];
    assert toks == front + [last];
    CollectAppend(sh, fs, d, front, [last]);
    assert [last][1..] == [];
  }

  /** A name of the body brings the first uses of the function it names, as far as they are recorded. */
  ghost predicate Brings(sh: Shader, kind: Kind, defs: seq<Definition>, bodies: seq<seq<Tree>>, fs: map<Symbol, Needs>,
                         i: nat, t: Token)
    requires |bodies| == |defs| && i < |defs|
  {
    Unique(Noticed(sh, kind, fs, t)) == Unique(UsesOf(sh, kind, defs, bodies, i, t))
  }

  lemma {:induction false} CollectIsUses(sh: Shader, kind: Kind, defs: seq<Definition>, bodies: seq<seq<Tree>>,
                                         fs: map<Symbol, Needs>, i: nat, toks: seq<Token>)
    requires |bodies| == |defs| && i < |defs| && NoRepeats(sh.samplers)
    requires forall t | t in toks :: Brings(sh, kind, defs, bodies, fs, i, t)
    ensures Unique(Pick(Collect(sh, fs, NOTHING, toks), kind)) == Unique(UsesIn(sh, kind, defs, bodies, i, toks))
    decreases |toks|
  {
    hide Unique, Collect, NoteToken, Noticed, UsesOf, NoRepeats, Pick, UsesIn;
    if toks == [] {
      NoUses(sh, kind, defs, bodies, fs, i);
    } else {
      var front, last := toks[..|toks| - 1], toks[|toks| - 1];
      assert toks == front + [last];
      CollectIsUses(sh, kind, defs, bodies, fs, i, front);
      CollectLast(sh, fs, NOTHING, toks);
      NoteAdds(sh, kind, fs, Collect(sh, fs, NOTHING, front), last);
      UsesLast(sh, kind, defs, bodies, i, toks);
      assert Brings(sh, kind, defs, bodies, fs, i, last);
      UniqueSame(Pick(Collect(sh, fs, NOTHING, front), kind), Noticed(sh, kind, fs, last),
                 UsesIn(sh, kind, defs, bodies, i, front), UsesOf(sh, kind, defs, bodies, i, last));
    }
  }

  lemma NoUses(sh: Shader, kind: Kind, defs: seq<Definition>, bodies: seq<seq<Tree>>, fs: map<Symbol, Needs>, i: nat)
    requires |bodies| == |defs| && i < |defs|
    ensures Pick(Collect(sh, fs, NOTHING, []), kind) == [] == UsesIn(sh, kind, defs, bodies, i, [])
  {
  }

  lemma UsesLast(sh: Shader, kind: Kind, defs: seq<Definition>, bodies: seq<seq<Tree>>, i: nat, toks: seq<Token>)
    requires |bodies| == |defs| && i < |defs| && toks != []
    ensures UsesIn(sh, kind, defs, bodies, i, toks)
         == UsesIn(sh, kind, defs, bodies, i, toks[..|toks| - 1]) + UsesOf(sh, kind, defs, bodies, i, toks[|toks| - 1])
  {
    hide UsesOf;
  }

  /** What is recorded of a function in its turn are its first uses. */
  lemma {:induction false} TurnIsFirstUse(sh: Shader, kind: Kind, defs: seq<Definition>, bodies: seq<seq<Tree>>,
                                          tables: seq<map<Symbol, Needs>>, i: nat)
    requires Run(sh, defs, bodies, tables) && |tables| == |defs| + 1 && i < |defs| && NoRepeats(sh.samplers)
    requires Different(defs) && DefinedBeforeUse(defs, bodies)
    ensures defs[i].name in tables[i + 1]
    ensures Pick(tables[i + 1][defs[i].name], kind) == Unique(Uses(sh, kind, defs, bodies, i))
    decreases i
  {
    hide Collect, Unique, UsesIn, Brings, NoRepeats, Uses;
    var toks, f := Flat(bodies[i]), defs[i].name;
    RecordInTurn(sh, kind, defs, bodies, tables, i);
    forall t | t in toks ensures Brings(sh, kind, defs, bodies, tables[i], i, t) {
      if !t.Name? {
        NoNameBrings(sh, kind, defs, bodies, tables[i], i, t);
      } else {
        var callee := Callee(defs, i, t.name);
        if callee.Some? {
          TurnIsFirstUse(sh, kind, defs, bodies, tables, callee.value);
          RecordStays(sh, defs, bodies, tables, callee.value, i);
          CalleeBrings(sh, kind, defs, bodies, tables[i], i, t, callee.value);
        } else {
          NothingRecorded(sh, defs, bodies, tables, i, t.name);
          OtherBrings(sh, kind, defs, bodies, tables[i], i, t);
        }
      }
    }
    CollectIsUses(sh, kind, defs, bodies, tables[i], i, toks);
    UsesAre(sh, kind, defs, bodies, i);
  }

  lemma UsesAre(sh: Shader, kind: Kind, defs: seq<Definition>, bodies: seq<seq<Tree>>, i: nat)
    requires |bodies| == |defs| && i < |defs|
    ensures Uses(sh, kind, defs, bodies, i) == UsesIn(sh, kind, defs, bodies, i, Flat(bodies[i]))
  {
    hide UsesIn;
  }

  lemma RecordInTurn(sh: Shader, kind: Kind, defs: seq<Definition>, bodies: seq<seq<Tree>>,
                     tables: seq<map<Symbol, Needs>>, i: nat)
    requires Run(sh, defs, bodies, tables) && i < |defs| && i + 1 < |tables|
    ensures defs[i].name in tables[i + 1]
    ensures Pick(tables[i + 1][defs[i].name], kind)
         == Unique(Pick(Collect(sh, tables[i], NOTHING, Flat(bodies[i])), kind))
  {
    hide Collect, Unique;
  }

  /** A record stays once its function had its turn. */
  lemma RecordStays(sh: Shader, defs: seq<Definition>, bodies: seq<seq<Tree>>, tables: seq<map<Symbol, Needs>>, i: nat,
                    k: nat)
    requires Run(sh, defs, bodies, tables) && Different(defs) && i < k < |tables| && defs[i].name in tables[i + 1]
    ensures defs[i].name in tables[k] && tables[k][defs[i].name] == tables[i + 1][defs[i].name]
  {
    hide Run;
    RunIsChain(sh, defs, bodies, tables);
    ChainKeeps(defs, tables, i + 1, k, defs[i].name);
  }

  /** At a function's turn nothing is recorded of itself and of names that are no functions. */
  lemma NothingRecorded(sh: Shader, defs: seq<Definition>, bodies: seq<seq<Tree>>, tables: seq<map<Symbol, Needs>>,
                        i: nat, n: Symbol)
    requires Run(sh, defs, bodies, tables) && |tables| == |defs| + 1 && i < |defs|
    requires Different(defs) && DefinedBeforeUse(defs, bodies) && Name(n) in Flat(bodies[i])
    requires Callee(defs, i, n).None?
    ensures n in tables[i] ==> tables[i][n] == NOTHING
  {
    RunIsChain(sh, defs, bodies, tables);
    ChainKeeps(defs, tables, 0, i, n);
  }

  lemma NoNameBrings(sh: Shader, kind: Kind, defs: seq<Definition>, bodies: seq<seq<Tree>>, fs: map<Symbol, Needs>,
                     i: nat, t: Token)
    requires |bodies| == |defs| && i < |defs| && !t.Name?
    ensures Brings(sh, kind, defs, bodies, fs, i, t)
  {
  }

  lemma CalleeBrings(sh: Shader, kind: Kind, defs: seq<Definition>, bodies: seq<seq<Tree>>, fs: map<Symbol, Needs>,
                     i: nat, t: Token, j: nat)
    requires |bodies| == |defs| && i < |defs| && t.Name? && Callee(defs, i, t.name) == Some(j) && t.name in fs
    requires Pick(fs[t.name], kind) == Unique(Uses(sh, kind, defs, bodies, j))
    ensures Brings(sh, kind, defs, bodies, fs, i, t)
  {
    hide Unique, Uses, Itself, Callee;
    UniqueTwice(Uses(sh, kind, defs, bodies, j));
    UniqueSame(Pick(fs[t.name], kind), Itself(sh, kind, t.name), Uses(sh, kind, defs, bodies, j),
               Itself(sh, kind, t.name));
  }

  lemma OtherBrings(sh: Shader, kind: Kind, defs: seq<Definition>, bodies: seq<seq<Tree>>, fs: map<Symbol, Needs>,
                    i: nat, t: Token)
    requires |bodies| == |defs| && i < |defs| && t.Name? && Callee(defs, i, t.name).None?
    requires t.name in fs ==> fs[t.name] == NOTHING
    ensures Brings(sh, kind, defs, bodies, fs, i, t)
  {
    hide Unique, Itself, Callee;
    assert [] + Itself(sh, kind, t.name) == Itself(sh, kind, t.name);
  }

  /** The finished analysis records the textures and samplers of a function in the order of their first use. */
  lemma RecordIsFirstUse(sh: Shader, ts: seq<Token>, defs: seq<Definition>, bodies: seq<seq<Tree>>, kind: Kind, i: nat)
    requires Holds(ts, defs, bodies) && Different(defs) && DefinedBeforeUse(defs, bodies) && i < |defs|
    requires NoRepeats(sh.samplers)
    ensures defs[i].name in Analysis(sh, ts, defs)
    ensures Pick(Analysis(sh, ts, defs)[defs[i].name], kind) == Unique(Uses(sh, kind, defs, bodies, i))
  {
    hide Run, Unique, Uses, NoRepeats, DefinedBeforeUse;
    var tables := Tables(sh, ts, defs, |defs|);
    TablesAreRun(sh, ts, defs, bodies, |defs|);
    TurnIsFirstUse(sh, kind, defs, bodies, tables, i);
    RecordStays(sh, defs, bodies, tables, i, |defs|);
  }

  // ---------- The order of first uses ----------

  /** The position of the first occurrence. */
  function FirstAt(s: seq<Symbol>, x: Symbol): (i: nat)
    requires x in s
    ensures i < |s| && s[i] == x && x !in s[..i]
  {
    assert s == s[..|s| - 1] + [s[|s| - 1]];
    if x in s[..|s| - 1] then
      assert s[..|s| - 1][..FirstAt(s[..|s| - 1], x)] == s[..FirstAt(s[..|s| - 1], x)];
      FirstAt(s[..|s| - 1], x)
    else |s| - 1
  }

  /** Of any two globals that are used, the one declared first is used first. */
  ghost predicate UsedInOrder(declared: seq<Symbol>, uses: seq<Symbol>) {
    forall x, y | x in uses && y in uses && x in declared && y in declared
                  && IndexOf(declared, x) < IndexOf(declared, y)
      :: FirstAt(uses, x) < FirstAt(uses, y)
  }

  lemma {:induction false} UniqueByFirst(uses: seq<Symbol>)
    ensures forall x :: x in Unique(uses) <==> x in uses
    ensures forall i, j | 0 <= i < j < |Unique(uses)| :: FirstAt(uses, Unique(uses)[i]) < FirstAt(uses, Unique(uses)[j])
  {
    UniqueKeeps(uses);
    if uses != [] {
      var front, last := uses[..|uses| - 1], uses[|uses| - 1];
      assert uses == front + [last];
      UniqueByFirst(front);
      assert forall x | x in front :: FirstAt(uses, x) == FirstAt(front, x);
      forall i, j | 0 <= i < j < |Unique(uses)|
        ensures FirstAt(uses, Unique(uses)[i]) < FirstAt(uses, Unique(uses)[j])
      {
        assert Unique(uses)[i] in front by { assert Unique(uses)[i] == Unique(front)[i]; }
        if j < |Unique(front)| {
          assert Unique(uses)[j] == Unique(front)[j];
          assert Unique(uses)[j] in front;
        } else {
          assert Unique(uses)[j] == last && last !in front;
        }
      }
    }
  }

  lemma InOrderAt(declared: seq<Symbol>, names: seq<Symbol>, i: nat, j: nat)
    requires (forall n | n in names :: n in declared) && InOrder(declared, names) && i < j < |names|
    ensures names[i] in declared && names[j] in declared
    ensures IndexOf(declared, names[i]) < IndexOf(declared, names[j])
  {
    hide IndexOf;
    assert names[i] in names && names[j] in names;
  }

  lemma FirstUsesInOrder(declared: seq<Symbol>, uses: seq<Symbol>)
    requires forall x | x in uses :: x in declared
    ensures forall x | x in Unique(uses) :: x in declared
    ensures InOrder(declared, Unique(uses)) <==> UsedInOrder(declared, uses)
  {
    hide IndexOf, FirstAt, Unique, NoRepeats, InOrder;
    var u := Unique(uses);
    UniqueByFirst(uses);
    if InOrder(declared, u) {
      forall x, y | x in uses && y in uses && IndexOf(declared, x) < IndexOf(declared, y)
        ensures FirstAt(uses, x) < FirstAt(uses, y)
      {
        assert x in u && y in u;
        var i :| 0 <= i < |u| && u[i] == x;
        var j :| 0 <= j < |u| && u[j] == y;
        if j < i {
          InOrderAt(declared, u, j, i);
        }
      }
    }
    if UsedInOrder(declared, uses) {
      UsedIsInOrder(declared, uses);
    }
  }

  lemma UsedIsInOrder(declared: seq<Symbol>, uses: seq<Symbol>)
    requires (forall x | x in uses :: x in declared) && UsedInOrder(declared, uses)
    ensures forall x | x in Unique(uses) :: x in declared
    ensures InOrder(declared, Unique(uses))
  {
    hide IndexOf, FirstAt, Unique, NoRepeats;
    var u := Unique(uses);
    UniqueByFirst(uses);
    forall i, j | 0 <= i < j < |u| ensures IndexOf(declared, u[i]) < IndexOf(declared, u[j]) {
      assert u[i] in uses && u[j] in uses;
      assert FirstAt(uses, u[i]) < FirstAt(uses, u[j]);
      assert declared[IndexOf(declared, u[i])] == u[i] && declared[IndexOf(declared, u[j])] == u[j];
    }
  }

  /**
    Of a finished analysis: the arguments added to a call are a permutation of the parameters added to the definition,
    and the same sequence exactly if the function uses its textures for the first time in the order in which they are
    declared, and its samplers too.
   */
  lemma CallFollowsDefinition(sh: Shader, ts: seq<Token>, defs: seq<Definition>, bodies: seq<seq<Tree>>, c: Context,
                              i: nat)
    requires Analyzed(sh, ts, defs, bodies, c) && sh.Distinct() && i < |defs|
    ensures defs[i].name in c.fs
    ensures var arguments, params := c.Added(Name(defs[i].name)), ExtraParams(sh, c.fs[defs[i].name], false);
            && multiset(arguments) == multiset(params)
            && (arguments == params <==> forall kind: Kind ::
                  UsedInOrder(Declared(sh, kind), Uses(sh, kind, defs, bodies, i)))
  {
    hide Holds, DefinedBeforeUse, Analysis, ExtraParams, ExtraArgs, InOrder, Uses, Unique, UsedInOrder, NoRepeats;
    var f := defs[i].name;
    HoldsStream(ts, defs, bodies);
    RecordIsFirstUse(sh, ts, defs, bodies, Textures, i);
    RecordIsFirstUse(sh, ts, defs, bodies, Samplers, i);
    RecordsAreSound(sh, ts, defs, bodies, f);
    ArgumentsPermuteParameters(sh, c.fs[f]);
    SameSequenceIff(sh, c.fs[f]);
    UniqueKeeps(Uses(sh, Textures, defs, bodies, i));
    UniqueKeeps(Uses(sh, Samplers, defs, bodies, i));
    FirstUsesInOrder(sh.order, Uses(sh, Textures, defs, bodies, i));
    FirstUsesInOrder(sh.samplers, Uses(sh, Samplers, defs, bodies, i));
    BothKinds(sh, defs, bodies, i);
  }

  lemma BothKinds(sh: Shader, defs: seq<Definition>, bodies: seq<seq<Tree>>, i: nat)
    requires |bodies| == |defs| && i < |defs|
    ensures (forall kind: Kind :: UsedInOrder(Declared(sh, kind), Uses(sh, kind, defs, bodies, i)))
       <==> && UsedInOrder(sh.order, Uses(sh, Textures, defs, bodies, i))
            && UsedInOrder(sh.samplers, Uses(sh, Samplers, defs, bodies, i))
  {
    hide UsedInOrder, Uses;
    assert Declared(sh, Textures) == sh.order && Declared(sh, Samplers) == sh.samplers;
    var textures := UsedInOrder(sh.order, Uses(sh, Textures, defs, bodies, i));
    var samplers := UsedInOrder(sh.samplers, Uses(sh, Samplers, defs, bodies, i));
    if textures && samplers {
      forall kind: Kind ensures UsedInOrder(Declared(sh, kind), Uses(sh, kind, defs, bodies, i)) {
        if kind.Samplers? {
          assert kind == Samplers;
        }
      }
    }
  }
}
