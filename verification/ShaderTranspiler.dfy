/** The transpiler object: its dictionaries, and its methods that move a token cursor in loops. */
module ShaderTranspiler {
  import opened ShaderAnalysis
  import opened ShaderCalls
  import opened ShaderClosure
  import opened ShaderEmit
  import opened ShaderEnds
  import opened ShaderFirstUse
  import opened ShaderLifting
  import opened ShaderReferences
  import opened ShaderSyntax
  import opened Wrappers

  /** The names of HLSL that have another name, or none, in the Metal language. */
  function MslWords(): map<Symbol, Word> {
    map[
      Symbol("texture2d") := Rewritten("texture2d<float>"), Symbol("texture3d") := Rewritten("texture3d<float>"),
      Symbol("texture_cube") := Rewritten("texturecube<float>"), Symbol("texture_rect") := Unsupported,
      Symbol("half2") := Rewritten("float2"), Symbol("half3") := Rewritten("float3"),
      Symbol("half4") := Rewritten("float4"), Symbol("half") := Rewritten("float"),
      Symbol("min16float2") := Rewritten("half2"), Symbol("min16float3") := Rewritten("half3"),
      Symbol("min16float4") := Rewritten("half4"), Symbol("min16float") := Rewritten("half"),
      Symbol("min10float") := Unsupported, Symbol("double") := Unsupported,
      Symbol("min16int2") := Rewritten("short2"), Symbol("min16int3") := Rewritten("short3"),
      Symbol("min16int4") := Rewritten("short4"), Symbol("min16int") := Rewritten("short"),
      Symbol("min16uint2") := Rewritten("ushort2"), Symbol("min16uint3") := Rewritten("ushort3"),
      Symbol("min16uint4") := Rewritten("ushort4"), Symbol("min16uint") := Rewritten("ushort"),
      Symbol("min13int") := Unsupported, Symbol("obs_glsl_compile") := Rewritten("false"),
      Symbol("clip") := Unsupported, Symbol("ddx") := Rewritten("dfdx"), Symbol("ddy") := Rewritten("dfdy"),
      Symbol("frac") := Rewritten("fract"), Symbol("lerp") := Rewritten("mix"),
      Symbol("mul") := Multiply, Symbol("mad") := MultiplyAdd
    ]
  }

  function MslMethods(): map<Symbol, Sampling> {
    map[
      Symbol("Sample") := Sample, Symbol("SampleBias") := SampleBias, Symbol("SampleGrad") := SampleGrad,
      Symbol("SampleLevel") := SampleLevel, Symbol("Load") := Load
    ]
  }

  /** A function as it is emitted: the parameters added to its definition, and its body. */
  datatype Emitted = Emitted(name: Symbol, params: seq<Param>, body: seq<Piece>)

  class OBSShader {
    const sh: Shader
    var functions: map<Symbol, Needs>
    var functionsOrder: seq<Symbol>

    constructor (fragment: bool, order: seq<Symbol>, textures: set<Symbol>, samplers: seq<Symbol>, paired: set<Symbol>,
                 defs: seq<Definition>)
      ensures sh == Shader(fragment, order, textures, samplers, paired, MslWords(), MslMethods())
      ensures functions == Blank(defs) && functionsOrder == []
    {
      sh := Shader(fragment, order, textures, samplers, paired, MslWords(), MslMethods());
      functions := Blank(defs);
      functionsOrder := [];
    }

    ghost function Known(): Context
      reads this
    {
      Context(sh, functions)
    }

    // ---------- Analysis ----------

    /** What the analysis does with a name. */
    method NoteName(d: Needs, n: Symbol) returns (r: Needs)
      ensures r == Note(sh, functions, d, n)
    {
      var uniforms, textures, samplers := d.uniforms, d.textures, d.samplers;
      if sh.IsPlain(n) && !uniforms {
        uniforms := true;
      }
      if n in functions {
        if functions[n].uniforms && !uniforms {
          uniforms := true;
        }
        textures := textures + functions[n].textures;
        samplers := samplers + functions[n].samplers;
      }
      if sh.fragment {
        if sh.IsTexture(n) {
          textures := textures + [n];
        }
        ghost var before := samplers;
        for i := 0 to |sh.samplers|
          invariant samplers == before + Filter(sh.samplers[..i], {n})
        {
          assert sh.samplers[..i + 1][..i] == sh.samplers[..i];
          if n == sh.samplers[i] {
            samplers := samplers + [n];
          }
        }
        assert sh.samplers[..|sh.samplers|] == sh.samplers;
      }
      r := Needs(uniforms, textures, samplers);
    }

    method AnalyzeFunction(ts: seq<Token>, start: nat, end: Token, d: Needs) returns (needs: Needs, token: nat)
      requires Stream(ts) && start < |ts|
      ensures Noted(needs, token) == Analyze(sh, functions, ts, start, end, d)
      decreases |ts| - start
    {
      needs, token := d, start;
      while !ts[token].End?
        invariant start <= token < |ts|
        invariant Analyze(sh, functions, ts, start, end, d) == Analyze(sh, functions, ts, token, end, needs)
        decreases |ts| - token
      {
        token := token + 1;
        if ts[token] == end {
          return;
        }
        match ts[token] {
          case Name(n) => needs := NoteName(needs, n);
          case OpenBrace => needs, token := AnalyzeFunction(ts, token, CloseBrace, needs);
          case OpenParen => needs, token := AnalyzeFunction(ts, token, CloseParen, needs);
          case _ =>
        }
      }
    }

    method AnalyzeFunctions(ts: seq<Token>, defs: seq<Definition>)
      requires Stream(ts) && InStream(ts, defs)
      requires functions == Blank(defs) && functionsOrder == []
      modifies this
      ensures functions == Analysis(sh, ts, defs)
      ensures |functionsOrder| == |defs| && forall i | 0 <= i < |defs| :: functionsOrder[i] == defs[i].name
    {
      hide Analyze, Unique;
      for i := 0 to |defs|
        invariant functions == Tables(sh, ts, defs, i)[i]
        invariant |functionsOrder| == i && forall j | 0 <= j < i :: functionsOrder[j] == defs[j].name
      {
        var name := defs[i].name;
        var data := if name in functions then functions[name] else NOTHING;
        var needs, _ := AnalyzeFunction(ts, defs[i].start, CloseBrace, data);
        functions := functions[name := Needs(needs.uniforms, Unique(needs.textures), Unique(needs.samplers))];
        functionsOrder := functionsOrder + [name];
      }
    }

    // ---------- Added arguments and parameters ----------

    method GenerateAdditionalArguments(name: Symbol) returns (output: seq<Param>)
      ensures output == Known().Added(Name(name))
    {
      output := [];
      if name in functions {
        var block: seq<Param> := if functions[name].uniforms then [UniformBlock] else [];
        var textures := TextureArguments(functions[name]);
        var samplers := SamplerArguments(functions[name]);
        output := block + textures + samplers;
      }
    }

    method TextureArguments(data: Needs) returns (output: seq<Param>)
      ensures output == TextureArgs(sh, data.textures)
    {
      output := [];
      for i := 0 to |data.textures|
        invariant output == TextureArgs(sh, data.textures[..i])
      {
        var texture := data.textures[i];
        assert data.textures[..i + 1][..i] == data.textures[..i];
        if sh.IsTexture(texture) {
          output := output + [TextureParam(texture)];
        }
      }
      assert data.textures[..|data.textures|] == data.textures;
    }

    method SamplerArguments(data: Needs) returns (output: seq<Param>)
      ensures output == SamplerArgs(sh, data.samplers)
    {
      output := [];
      for i := 0 to |data.samplers|
        invariant output == SamplerArgs(sh, data.samplers[..i])
      {
        var sampler := data.samplers[i];
        assert data.samplers[..i + 1][..i] == data.samplers[..i];
        var declared := DeclaredSamplers(sampler);
        output := output + declared;
      }
      assert data.samplers[..|data.samplers|] == data.samplers;
    }

    method DeclaredSamplers(sampler: Symbol) returns (output: seq<Param>)
      ensures output == SamplerParams(Filter(sh.samplers, {sampler}))
    {
      output := [];
      for j := 0 to |sh.samplers|
        invariant output == SamplerParams(Filter(sh.samplers[..j], {sampler}))
      {
        assert sh.samplers[..j + 1][..j] == sh.samplers[..j];
        if sampler == sh.samplers[j] {
          output := output + [SamplerParam(sampler)];
        }
      }
      assert sh.samplers[..|sh.samplers|] == sh.samplers;
    }

    /** The part of `transpileFunctions` that extends a definition. */
    method AdditionalParameters(name: Symbol) returns (variables: seq<Param>)
      requires name in functions
      ensures variables == ExtraParams(sh, functions[name], name == MAIN)
    {
      var isMain, data := name == MAIN, functions[name];
      variables := [];
      if sh.HasPlain() {
        if isMain {
          variables := [UniformBlock];
        } else if data.uniforms {
          variables := [UniformBlock];
        }
      }
      if sh.fragment {
        var textures := TextureParameters(data, isMain);
        var samplers := SamplerParameters(data, isMain);
        variables := variables + textures + samplers;
      }
    }

    method TextureParameters(data: Needs, isMain: bool) returns (variables: seq<Param>)
      ensures variables == TextureArgs(sh, Filter(sh.order, TexturesOf(sh, data, isMain)))
    {
      variables := [];
      ghost var keep := TexturesOf(sh, data, isMain);
      for i := 0 to |sh.order|
        invariant variables == TextureArgs(sh, Filter(sh.order[..i], keep))
      {
        var uniform := sh.order[i];
        assert sh.order[..i + 1][..i] == sh.order[..i];
        if sh.IsTexture(uniform) {
          if isMain {
            variables := variables + [TextureParam(uniform)];
          } else if uniform in data.textures {
            variables := variables + [TextureParam(uniform)];
          }
        }
      }
      assert sh.order[..|sh.order|] == sh.order;
    }

    method SamplerParameters(data: Needs, isMain: bool) returns (variables: seq<Param>)
      ensures variables == SamplerParams(if isMain then sh.samplers else Filter(sh.samplers, ToSet(data.samplers)))
    {
      variables := [];
      for i := 0 to |sh.samplers|
        invariant variables == SamplerParams(if isMain then sh.samplers[..i]
                                             else Filter(sh.samplers[..i], ToSet(data.samplers)))
      {
        var sampler := sh.samplers[i];
        assert sh.samplers[..i + 1][..i] == sh.samplers[..i];
        if isMain {
          variables := variables + [SamplerParam(sampler)];
        } else if sampler in data.samplers {
          variables := variables + [SamplerParam(sampler)];
        }
      }
      assert sh.samplers[..|sh.samplers|] == sh.samplers;
    }

    // ---------- Content ----------

    method TranspileFunctionContent(ts: seq<Token>, start: nat, end: Token) returns (r: Option<Scan>)
      requires Stream(ts) && start < |ts| && Closing(end)
      ensures r == Content(Known(), ts, start, end)
      decreases |ts| - start, 0
    {
      ghost var c := Known();
      var content, token := [], start;
      ThenNothing(Content(c, ts, start, end));
      while !ts[token].End?
        invariant start <= token < |ts|
        invariant Content(c, ts, start, end) == Then(content, Content(c, ts, token, end))
        decreases |ts| - token
      {
        assert content + [] == content;
        if ts[token + 1] == end {
          return Some(Scan(content, token + 1));
        }
        var step := TranspileToken(ts, token + 1);
        ContentStep(c, ts, token, end);
        if step.None? {
          return None;
        }
        ThenThen(content, step.value.out, Content(c, ts, step.value.pos, end));
        content, token := content + step.value.out, step.value.pos;
      }
      assert content + [] == content;
      r := Some(Scan(content, token));
    }

    method TranspileToken(ts: seq<Token>, token: nat) returns (r: Option<Scan>)
      requires Stream(ts) && 0 < token < |ts|
      ensures r == Step(Known(), ts, token)
      decreases |ts| - token, 4
    {
      match ts[token] {
        case Name(_) => r := TranspileName(ts, token);
        case OpenBrace =>
          var block := TranspileFunctionContent(ts, token, CloseBrace);
          if block.None? {
            return None;
          }
          r := Some(Scan([Text("{")] + block.value.out + [Text("}")], block.value.pos));
        case OpenParen =>
          var prior := ts[token - 1];
          var parameters := TranspileFunctionContent(ts, token, CloseParen);
          if parameters.None? {
            return None;
          }
          var inner := if prior == Name(INT3) then Int3(parameters.value.out) else Some(parameters.value.out);
          if inner.None? {
            return None;
          }
          var added: seq<Param> := [];
          if prior.Name? {
            added := GenerateAdditionalArguments(prior.name);
          }
          var arguments := Listed(added);
          r := Some(Scan([Text("(")] + inner.value + (if arguments == [] then [] else SEP + arguments) + [Text(")")],
                         parameters.value.pos));
        case t => r := Some(Scan([Text(Str(t))], token));
      }
    }

    method TranspileName(ts: seq<Token>, token: nat) returns (r: Option<Scan>)
      requires Stream(ts) && 0 < token < |ts| && ts[token].Name?
      ensures r == StepName(Known(), ts, token)
      decreases |ts| - token, 3
    {
      var n, prior, next := ts[token].name, ts[token - 1], ts[token + 1];
      if n in sh.words {
        match sh.words[n] {
          case Unsupported => r := None;
          case Rewritten(text) => r := Some(Scan([Text(text)], token));
          case Multiply => r := ConvertToMTLMultiplication(ts, token);
          case MultiplyAdd => r := ConvertToMTLMultiplyAdd(ts, token);
        }
      } else if sh.IsTexture(n) {
        r := CreateSampler(ts, token);
      } else if sh.IsPlain(n) && !prior.Dot? {
        r := Some(Scan([Uniform(n)], token));
      } else if n in sh.paired {
        r := Some(Scan([Text(n.text + "_Out")], token));
      } else if next.Compare? {
        var right := ts[NextToken(ts, token + 1)];
        r := if right.End? then None else Some(Scan([Compared(n, next.op, right)], token));
      } else {
        r := Some(Scan([if prior.Dot? then Member(n) else Ident(n)], token));
      }
    }

    method ConvertToMTLMultiplication(ts: seq<Token>, token: nat) returns (r: Option<Scan>)
      requires Stream(ts) && 0 < token < |ts| && ts[token].Name?
      ensures r == Product(Known(), ts, token)
      decreases |ts| - token, 2
    {
      var cursor := NextToken(ts, token);
      if ts[cursor] != OpenParen || !HasNext(ts, cursor) {
        return None;
      }
      var lhs := TranspileFunctionContent(ts, cursor, Comma);
      if lhs.None? || !HasNext(ts, lhs.value.pos) {
        return None;
      }
      cursor := NextToken(ts, lhs.value.pos) - 1;
      var rhs := TranspileFunctionContent(ts, cursor, CloseParen);
      if rhs.None? {
        return None;
      }
      r := Some(Scan(ProductText(lhs.value.out, rhs.value.out), rhs.value.pos));
    }

    method ConvertToMTLMultiplyAdd(ts: seq<Token>, token: nat) returns (r: Option<Scan>)
      requires Stream(ts) && 0 < token < |ts| && ts[token].Name?
      ensures r == ProductSum(Known(), ts, token)
      decreases |ts| - token, 2
    {
      var cursor := NextToken(ts, token);
      if ts[cursor] != OpenParen {
        return None;
      }
      var s := TranspileArguments(ts, cursor, 3);
      if s.None? {
        return None;
      }
      r := Some(Scan(MultiplyAddText(s.value.args), s.value.pos));
    }

    method TranspileArguments(ts: seq<Token>, token: nat, n: nat) returns (r: Option<ArgScan>)
      requires Stream(ts) && token < |ts| && n > 0
      ensures r == Arguments(Known(), ts, token, n)
      decreases |ts| - token, 1, n
    {
      if !HasNext(ts, token) {
        return None;
      }
      var s := TranspileFunctionContent(ts, token, if n == 1 then CloseParen else Comma);
      if s.None? {
        return None;
      }
      if n == 1 {
        return Some(ArgScan([s.value.out], s.value.pos));
      }
      var rest := TranspileArguments(ts, s.value.pos, n - 1);
      if rest.None? {
        return None;
      }
      r := Some(ArgScan([s.value.out] + rest.value.args, rest.value.pos));
    }

    method CreateSampler(ts: seq<Token>, token: nat) returns (r: Option<Scan>)
      requires Stream(ts) && 0 < token < |ts| && ts[token].Name?
      ensures r == Sampler(Known(), ts, token)
      decreases |ts| - token, 2
    {
      var cursor := NextToken(ts, token);
      if ts[cursor] != Dot {
        return None;
      }
      cursor := NextToken(ts, cursor);
      if !ts[cursor].Name? || ts[cursor].name !in sh.methods {
        return None;
      }
      var call := CreateTextureCall(ts, cursor, sh.methods[ts[cursor].name]);
      if call.None? {
        return None;
      }
      r := Some(Scan([Texture(ts[token].name), Text(".")] + call.value.out, call.value.pos));
    }

    method CreateTextureCall(ts: seq<Token>, token: nat, callType: Sampling) returns (r: Option<Scan>)
      requires Stream(ts) && token < |ts| && ts[token].Name?
      ensures r == TextureCall(Known(), ts, token, callType)
      decreases |ts| - token, 2
    {
      var cursor := NextToken(ts, token);
      if ts[cursor] != OpenParen {
        return None;
      }
      var s := TranspileArguments(ts, cursor, Arity(callType));
      if s.None? {
        return None;
      }
      var out := CallText(callType, s.value.args);
      if out.None? {
        return None;
      }
      r := Some(Scan(out.value, s.value.pos));
    }

    /** Every function in order, or nothing if one of them fails. */
    method TranspileFunctions(ts: seq<Token>, defs: seq<Definition>) returns (r: Option<seq<Emitted>>)
      requires Stream(ts) && InStream(ts, defs) && forall d | d in defs :: d.name in functions
      ensures r.None? <==> exists i :: 0 <= i < |defs| && Content(Known(), ts, defs[i].start, CloseBrace).None?
      ensures r.Some? ==> |r.value| == |defs|
      ensures r.Some? ==> forall i | 0 <= i < |defs| ::
                var s := Content(Known(), ts, defs[i].start, CloseBrace);
                && s.Some?
                && r.value[i] == Emitted(defs[i].name, ExtraParams(sh, functions[defs[i].name], defs[i].name == MAIN),
                                         s.value.out)
    {
      var output: seq<Emitted> := [];
      for i := 0 to |defs|
        invariant |output| == i
        invariant forall j | 0 <= j < i ::
                    var s := Content(Known(), ts, defs[j].start, CloseBrace);
                    && s.Some?
                    && output[j] == Emitted(defs[j].name,
                                            ExtraParams(sh, functions[defs[j].name], defs[j].name == MAIN), s.value.out)
      {
        var variables := AdditionalParameters(defs[i].name);
        var content := TranspileFunctionContent(ts, defs[i].start, CloseBrace);
        if content.None? {
          return None;
        }
        output := output + [Emitted(defs[i].name, variables, content.value.out)];
      }
      r := Some(output);
    }

    /**
      Analysis and transpilation of a whole shader. Every emitted function refers to its own parameters only, exactly
      if no comparison in its body has a uniform where it gets no prefix and no `Load` cuts a word down to the name of
      another global. The arguments added to a call are those parameters, in their order exactly if the function uses
      its textures and its samplers for the first time in the order in which they are declared.
     */
    method Transpiled(ts: seq<Token>, defs: seq<Definition>, ghost bodies: seq<seq<Tree>>)
      returns (r: Option<seq<Emitted>>)
      requires functions == Blank(defs) && functionsOrder == [] && sh.words == MslWords()
      requires sh.fragment || sh.samplers == []
      requires Holds(ts, defs, bodies) && Different(defs) && DefinedBeforeUse(defs, bodies)
      requires forall i | 0 <= i < |defs| :: Tidy(bodies[i]) && CallsFit(sh, bodies[i])
      modifies this
      ensures functions == Analysis(sh, ts, defs)
      ensures r.Some? ==> |r.value| == |defs|
      ensures r.Some? ==> forall i | 0 <= i < |defs| ::
                && r.value[i].name == defs[i].name
                && (Closed(sh, r.value[i].params, r.value[i].body)
                    <==> !StrayIn(Known(), ToSet(r.value[i].params), OpenBrace, bodies[i], CloseBrace))
      ensures r.Some? && sh.Distinct() ==> forall i | 0 <= i < |defs| && defs[i].name != MAIN ::
                var arguments, params := Known().Added(Name(defs[i].name)), r.value[i].params;
                && multiset(arguments) == multiset(params)
                && (arguments == params <==> forall kind: Kind ::
                      UsedInOrder(Declared(sh, kind), Uses(sh, kind, defs, bodies, i)))
    {
      AnalyzeFunctions(ts, defs);
      MslIsSane(Known());
      assert forall d | d in defs :: d.name in functions by { AllAnalyzed(sh, ts, defs); }
      r := TranspileFunctions(ts, defs);
      if r.Some? {
        forall i | 0 <= i < |defs|
          ensures && r.value[i].name == defs[i].name
                  && (Closed(sh, r.value[i].params, r.value[i].body)
                      <==> !StrayIn(Known(), ToSet(r.value[i].params), OpenBrace, bodies[i], CloseBrace))
        {
          LiftingClosesBody(sh, ts, defs, bodies, Known(), i,
                            Content(Known(), ts, defs[i].start, CloseBrace).value);
        }
        if sh.Distinct() {
          forall i | 0 <= i < |defs| && defs[i].name != MAIN
            ensures var arguments, params := Known().Added(Name(defs[i].name)), r.value[i].params;
                    && multiset(arguments) == multiset(params)
                    && (arguments == params <==> forall kind: Kind ::
                          UsedInOrder(Declared(sh, kind), Uses(sh, kind, defs, bodies, i)))
          {
            CallFollowsDefinition(sh, ts, defs, bodies, Known(), i);
          }
        }
      }
    }
  }

  lemma AllAnalyzed(sh: Shader, ts: seq<Token>, defs: seq<Definition>)
    requires Stream(ts) && InStream(ts, defs)
    ensures forall d | d in defs :: d.name in Analysis(sh, ts, defs)
  {
    TableKeepsNames(sh, ts, defs, |defs|);
  }

  lemma {:induction false} TableKeepsNames(sh: Shader, ts: seq<Token>, defs: seq<Definition>, k: nat)
    requires Stream(ts) && InStream(ts, defs) && k <= |defs|
    ensures forall d | d in defs :: d.name in Tables(sh, ts, defs, k)[k]
    decreases k
  {
    hide Analyze, Settled;
    if k > 0 {
      TableKeepsNames(sh, ts, defs, k - 1);
    }
  }

  /** No name is rewritten to nothing. */
  lemma MslIsSane(c: Context)
    requires c.sh.words == MslWords() && (c.sh.fragment || c.sh.samplers == [])
    ensures Sane(c)
  {
  }
}
