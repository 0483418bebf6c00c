# A verified model of the graphics and theme cores of OBS Studio for Android

These Dafny modules model the parts of the repository in which state, loops and arithmetic interact, and prove that the
fast or lowered form of each does what the simple form would.

| file | models |
|---|---|
| `ShaderSyntax.dfy`, `ShaderAnalysis.dfy`, `ShaderEmit.dfy`, `ShaderScan.dfy`, `ShaderCalls.dfy`, `ShaderEnds.dfy`, `ShaderTallies.dfy`, `ShaderOrder.dfy`, `ShaderText.dfy`, `ShaderSlant.dfy`, `ShaderBrackets.dfy`, `ShaderBalance.dfy`, `ShaderReferences.dfy`, `ShaderClosure.dfy`, `ShaderLifting.dfy`, `ShaderFirstUse.dfy`, `ShaderShortfalls.dfy`, `ShaderTranspiler.dfy` | the transpiler from the HLSL dialect of libobs to the Metal language: what functions need, the recursive body scanner, lambda lifting |
| `ThemeMath.dfy`, `ThemeChains.dfy` | theme expressions and theme inheritance |
| `ConstantBuffer.dfy`, `VertexStreams.dfy`, `VertexBinding.dfy`, `OutputBinding.dfy`, `StateCaches.dfy`, `ObjectList.dfy` | the Direct3D 11 device: constant buffers, vertex streams, lazy binding, state caches, device loss |
| `MetalUniforms.dfy`, `MetalCommands.dfy` | the Metal device: uniform data and the order of commands |
| `AnnexB.dfy` | the scanner for H.264 byte streams |
| `Bits.dfy`, `Brackets.dfy`, `ByteStrings.dfy`, `Wrappers.dfy` | bit masks as arithmetic; balanced brackets in text; strings of bytes; the optional value |

Driver objects are opaque values with a ghost record of their contents or binding. A call that can fail takes a flag that
says whether it does, so that every statement holds for each outcome. Addresses, resources and anonymous names are
parameters wherever the program draws them from an allocator or a generator.

The transpiler is modelled in three layers. The class `OBSShader` has the dictionaries and the cursor loops. Recursive
functions over token positions specify those loops on every stream, errors included. `Emit` defines the same text on the
bracket structure, without a cursor; `ShaderScan` proves that the two agree, and all statements about meaning are proved
of `Emit`. Emitted text is a list of pieces, so that references can be told from other text.

Where the program does not meet its purpose in every case, the exact condition is proved, with a concrete input beside it:

- a comparison emits the name on its right as it is and then once more, so the name is repeated, and a uniform there has
  no prefix the first time; a `Load` whose argument starts with an `int3` but does not end with it loses a character of
  its last name, which may leave the name of a global (`ShaderOrder.EmitKeepsOrder`, `ShaderLifting.LiftingClosesBody`);
- a comparison whose right side begins with a bracket repeats that bracket, and a `Load` whose argument starts with an
  `int3` but does not end with its parenthesis keeps one, so brackets are not balanced (`ShaderBalance.EmitIsBalanced`);
- added arguments follow first use and added parameters follow declaration (`ShaderFirstUse.CallFollowsDefinition`), and
  a call with a space before its parenthesis gets none (`ShaderLifting.CallMatchesIff`);
- a `mul`, `mad` or texture call with too few arguments runs past its own parenthesis (`ShaderCalls.ArgumentsRestIff`,
  `ShaderCalls.ProductRestsIff`);
- theme variables that need each other in a circle have no value (`ThemeMath.EvaluationEndsIff`);
- a failed `Map` loses what was to be sent (`ConstantBuffer.FailedMapCoherence`);
- a failed resize can leave released views bound (`OutputBinding.Device.Resize`);
- a rebuild keeps the pair of addresses that was bound last (`VertexBinding.Device.DrawAfterRebuild`);
- a copy or mipmap generation does not flag its destination, and a copy committed at once looks at the flag of its source
  only (`MetalCommands.MetalDevice.StageTexture`);
- a pair of textures of which only one half is destroyed does not survive a lost device
  (`ObjectList.Device.Unregister`);
- a uniform of a type without an alignment starts the data anew (`MetalUniforms.LaidAdvancesIff`);
- a base theme that extends another kind of theme loses a dependency (`ThemeChains.DependenciesKeptIff`);
- default uniform values are never copied into the data (`MetalUniforms.DefaultShownIff`);
- the byte stream scanner looks one byte past a buffer that ends in a bare start code (`AnnexB.ScanReadsPastIff`).

## Model

| member | source | states |
|---|---|---|
| `ShaderSyntax.NextIsVisible` | obs-studio/libobs-metal/libobs+Extensions.swift:56-87 | The cursor moves to the first visible token behind it, past spaces only; it stays exactly if it rests on the end token |
| `ShaderSyntax.RegionIsStretch` | obs-studio/libobs-metal/OBSShader.swift:674-733 | The bracket structure is no extra assumption: a region holds some trees exactly if the stretch of the stream is their tokens and the closing token follows |
| `ShaderSyntax.NextIsAhead` | obs-studio/libobs-metal/libobs+Extensions.swift:56-87 | Before a balanced region the next token of the cursor is the first visible token of the region, or the token that ends it |
| `ShaderAnalysis.AnalyzeConsumesBody` | obs-studio/libobs-metal/OBSShader.swift:674-733 | On a balanced body the recursive analysis stops on the body's own brace, with the effect of each name of the body once and in order |
| `ShaderAnalysis.CollectIsUnion` | obs-studio/libobs-metal/OBSShader.swift:691-722 | A body is recorded to need exactly what its names stand for at that time: globals, and all that known functions need |
| `ShaderAnalysis.TablesAreRun` | obs-studio/libobs-metal/OBSShader.swift:638-661 | The analysis of all functions is a run in which each function, in its turn, records what its body needs given the records so far |
| `ShaderAnalysis.RunSound` | obs-studio/libobs-metal/OBSShader.swift:654-655 | At every point of the analysis records hold only globals of the shader, without repeats, and need the uniform block only if there is a plain uniform |
| `ShaderAnalysis.NeedsAreClosed` | obs-studio/libobs-metal/OBSShader.swift:638-733 | When functions are defined before use, the finished record of a function is the fixed point: it has exactly what the names of its body stand for, the finished records of its callees included |
| `ShaderScan.ContentPasses` | obs-studio/libobs-metal/OBSShader.swift:1110-1239 | The scanner passes over a balanced stretch with exactly the emission of its bracket structure, and then goes on as if started behind it |
| `ShaderScan.ContentCloses` | obs-studio/libobs-metal/OBSShader.swift:1110-1239 | A scan started on a balanced region stops on the closer or first top-level comma that ends the region, with the emission of the region, and throws exactly where that does |
| `ShaderScan.ScanConsumesBody` | obs-studio/libobs-metal/OBSShader.swift:1110-1239 | The same for a whole function body: the cursor rests on the closing brace of the body |
| `ShaderScan.ProductIsItem` | obs-studio/libobs-metal/OBSShader.swift:1381-1402 | A multiplication consumes its own parenthesis and nothing else, the factors being what stands before and after the first top-level comma |
| `ShaderScan.ProductSumIsItem` | obs-studio/libobs-metal/OBSShader.swift:1408-1426 | A multiply-add consumes its own parenthesis, cut at the first two top-level commas |
| `ShaderScan.SamplerIsItem` | obs-studio/libobs-metal/OBSShader.swift:1431-1460 | A texture method call consumes the dot, the name and its own parenthesis, and throws where one is missing |
| `ShaderScan.ArgumentsAgree` | obs-studio/libobs-metal/OBSShader.swift:1477-1518 | Argument scanning cuts a parenthesis at its top-level commas and leaves the cursor on its own closing parenthesis |
| `ShaderScan.TextureCallIsItem` | obs-studio/libobs-metal/OBSShader.swift:1467-1552 | A texture call consumes its own parenthesis, cut at as many top-level commas as its method takes, and throws where one of its arguments does or an `int3` has no parts |
| `ShaderCalls.ProductRestsIff` | obs-studio/libobs-metal/OBSShader.swift:1381-1402 | The cursor is left on the call's own closing parenthesis exactly if the parenthesis has a top-level comma; without one the scan leaves it behind |
| `ShaderCalls.ArgumentsRestIff` | obs-studio/libobs-metal/OBSShader.swift:1477-1518 | Argument scanning never stops before the closing parenthesis of its group, and on it exactly if the group has the top-level commas needed |
| `ShaderCalls.ProductSumRestsIff` | obs-studio/libobs-metal/OBSShader.swift:1408-1426 | The same for a multiply-add: exactly with two top-level commas |
| `ShaderCalls.TextureCallRestsIff` | obs-studio/libobs-metal/OBSShader.swift:1467-1552 | The same for each kind of texture call |
| `ShaderOrder.EmitKeepsOrder` | obs-studio/libobs-metal/OBSShader.swift:1110-1239 | The names in the emitted text are those of the region, less the ones that a `Load` cuts and plus the ones that a comparison repeats. Where nothing is cut they stand in source order, each compared name followed by the repeated one, and are the names of the source once each exactly if no comparison repeats one |
| `ShaderCalls.EmitStays` | obs-studio/libobs-metal/OBSShader.swift:1381-1518 | Where `mul`, `mad` and texture calls have the arguments they need, no call of a region runs past its own parenthesis |
| `ShaderText.RegionIsWritten` | obs-studio/libobs-metal/OBSShader.swift:1110-1239 | The text of a region is that of its first item and then that of what follows it |
| `ShaderText.LeafIsWritten` | obs-studio/libobs-metal/OBSShader.swift:1117-1234 | A token that is no name is written as it is, a rewritten word as its replacement, and an unsupported one fails |
| `ShaderText.NameIsWritten` | obs-studio/libobs-metal/OBSShader.swift:1322-1356 | A uniform is written with the prefix of the uniform block unless it stands behind a dot, a paired name with `_Out`, a compared name as a call of `all` with both sides, and another name as it is |
| `ShaderText.BraceIsWritten` | obs-studio/libobs-metal/OBSShader.swift:1193-1196 | A brace is written around the text of its content |
| `ShaderText.ParenIsWritten` | obs-studio/libobs-metal/OBSShader.swift:1197-1230 | A parenthesis is written around the text of its content, followed by the names that its callee is given besides |
| `ShaderText.ListedIsWritten` | obs-studio/libobs-metal/OBSShader.swift:1558-1596 | Added names are separated by a comma and a space |
| `ShaderText.ReferencesUseParameters` | obs-studio/libobs-metal/OBSShader.swift:1558-1596 | Uniforms, textures and samplers are written by the names of the parameters through which they are handed on |
| `ShaderText.Int3IsWritten` | obs-studio/libobs-metal/OBSShader.swift:1201-1220 | The one, two or three parts of an `int3` are written as a string in brackets, an `int2` and an `int`, or three times `int`; none fail |
| `ShaderText.FourIntsFail` | obs-studio/libobs-metal/OBSShader.swift:1206-1219 | An `int3` with more than three parts fails |
| `ShaderText.ProductIsWritten` | obs-studio/libobs-metal/OBSShader.swift:1381-1402 | `mul(a, b)` is written `(a) * (b)`, with the texts of the parts before and behind the first top-level comma |
| `ShaderText.ProductSumIsWritten` | obs-studio/libobs-metal/OBSShader.swift:1408-1426 | `mad(a, b, d)` is written `((a) * (b)) + (d)`, with the texts of the three parts |
| `ShaderText.SamplerIsWritten` | obs-studio/libobs-metal/OBSShader.swift:1431-1460 | A texture, a dot and a method, with any space between them, are the call of that method |
| `ShaderText.SamplingIsWritten` | obs-studio/libobs-metal/OBSShader.swift:1467-1528 | Each method that samples is written as `sample` with its arguments, the third in `bias` or `level`, or third and fourth in `gradient2d` |
| `ShaderText.LoadIsWritten` | obs-studio/libobs-metal/OBSShader.swift:1530-1552 | A `Load` without an `int3` is written as `read` of the coordinates at level 0 |
| `ShaderText.LoadInt3IsWritten` | obs-studio/libobs-metal/OBSShader.swift:1530-1546 | A `Load` with an `int3` is written as `read` of its parts, the last of several being the level, without the last character of the text |
| `ShaderText.MadExample` | obs-studio/libobs-metal/OBSShader.swift:1408-1426 | Concrete input: `mad(p,q,r)` is emitted as `((p) * (q)) + (r)` |
| `ShaderBalance.EmitIsBalanced` | obs-studio/libobs-metal/OBSShader.swift:1110-1239 | Of each kind of bracket the emitted text of a region has as many too many or too few as its comparisons repeat and its `Load` calls cut. If they repeat and cut none it is balanced, and only then as long as these do not make up for each other |
| `ShaderBalance.BodyIsBalanced` | obs-studio/libobs-metal/OBSShader.swift:1110-1239 | The same for the scan of a whole function body whose calls have enough arguments |
| `ShaderOrder.BodyKeepsOrder` | obs-studio/libobs-metal/OBSShader.swift:1110-1239 | A function body whose calls have enough arguments is scanned to its own closing brace, with the same account of its names |
| `ShaderEnds.EmitEndsAs` | obs-studio/libobs-metal/OBSShader.swift:1110-1239 | The text of a region ends with the text of its last token, or with a closing bracket |
| `ShaderEnds.EmitStartsInt3` | obs-studio/libobs-metal/OBSShader.swift:1530 | The argument of `Load` has the text of an `int3` exactly if it starts with a call of `int3` that is no name of the shader |
| `ShaderReferences.SplitKeeps` | obs-studio/libobs-metal/OBSShader.swift:1201-1220 | Splitting text at commas loses commas and empty text and nothing else |
| `ShaderReferences.LoadKeeps` | obs-studio/libobs-metal/OBSShader.swift:1530-1546 | A `Load` with an `int3` keeps all of its argument but the last character of the text |
| `ShaderClosure.EmitRefers` | obs-studio/libobs-metal/OBSShader.swift:1110-1239 | What is emitted for a region refers only to what the names of the region stand for, and to something else exactly if a comparison of the region has a uniform without a prefix or a `Load` cuts a word down to the name of another global |
| `ShaderLifting.LiftingClosesBody` | obs-studio/libobs-metal/OBSShader.swift:888-934 | Every uniform, texture, sampler and added argument of an emitted body is a parameter of the emitted definition, exactly if no comparison of the body has a uniform where it gets no prefix and no `Load` cuts a word down to the name of a global that is no parameter |
| `ShaderLifting.ArgumentsPermuteParameters` | obs-studio/libobs-metal/OBSShader.swift:1566-1588 | The arguments added at a call are a permutation of the parameters added to the definition, for every sound record |
| `ShaderFirstUse.RecordIsFirstUse` | obs-studio/libobs-metal/OBSShader.swift:638-733 | The finished analysis lists the textures and the samplers of a function in the order of their first use, callees read at the places where they are named |
| `ShaderFirstUse.CallFollowsDefinition` | obs-studio/libobs-metal/OBSShader.swift:888-932 | Of a finished analysis: arguments and parameters are permutations of each other, and the same sequence exactly if of any two textures or samplers the one declared first is used first |
| `ShaderLifting.CallMatchesIff` | obs-studio/libobs-metal/OBSShader.swift:1198-1230 | A call gets its callee's parameters exactly if the name stands directly before the parenthesis, or the callee needs none |
| `ShaderShortfalls.RawComparisonExample` | obs-studio/libobs-metal/OBSShader.swift:1322-1356 | Concrete input: the right side of a comparison is emitted without the prefix of the uniform block |
| `ShaderShortfalls.RepeatedNameExample` | obs-studio/libobs-metal/OBSShader.swift:1322-1356 | Concrete input: `a<b` is emitted as `all(a < b)<b`, with `b` twice |
| `ShaderShortfalls.CutNameExample` | obs-studio/libobs-metal/OBSShader.swift:1530-1546 | Concrete input: `b.Load(int3(0)+a1)` is emitted with the uniform `a` in the place of `a1` |
| `ShaderShortfalls.UnbalancedExample` | obs-studio/libobs-metal/OBSShader.swift:1322-1356 | Concrete input: `a<(b)` is emitted as `all(a < ()<(b)`, whose parentheses are not balanced |
| `ShaderShortfalls.SwappedArgumentsExample` | obs-studio/libobs-metal/OBSShader.swift:1566-1588 | Concrete tokens: a function that reads `b.Load(a.Load(x))` is recorded with `b` before `a`, so that its call and its definition disagree |
| `ShaderTranspiler.OBSShader.NoteName` | obs-studio/libobs-metal/OBSShader.swift:695-722 | Records a name as the specification of the analysis does, the loop over samplers included |
| `ShaderTranspiler.OBSShader.AnalyzeFunction` | obs-studio/libobs-metal/OBSShader.swift:674-733 | The cursor loop with its recursive calls computes the specified analysis on every token stream |
| `ShaderTranspiler.OBSShader.AnalyzeFunctions` | obs-studio/libobs-metal/OBSShader.swift:638-661 | Leaves the finished analysis in `functions` and the names in order in `functionsOrder` |
| `ShaderTranspiler.OBSShader.GenerateAdditionalArguments` | obs-studio/libobs-metal/OBSShader.swift:1558-1596 | Exactly the arguments that the specification adds after the name |
| `ShaderTranspiler.OBSShader.AdditionalParameters` | obs-studio/libobs-metal/OBSShader.swift:888-934 | Exactly the parameters that the specification adds to the definition |
| `ShaderTranspiler.OBSShader.TranspileFunctionContent` | obs-studio/libobs-metal/OBSShader.swift:1110-1239 | The cursor loop computes the specified scan, result and errors alike, on every token stream |
| `ShaderTranspiler.OBSShader.TranspileFunctions` | obs-studio/libobs-metal/OBSShader.swift:857-1005 | Emits every function in order, and fails exactly if the content of one of them does |
| `ShaderTranspiler.OBSShader.Transpiled` | obs-studio/libobs-metal/OBSShader.swift:154-167 | Analysis and transpilation of a whole shader: each emitted function is closed over its own parameters, exactly if its body has no stray name; calls get these parameters, in their order exactly if first uses follow the declarations |
| `ThemeMath.ParsesToFlat` | obs-studio/frontend/OBSApp_Themes.cpp:231-288 | Parsing the written form of any nested arguments gives the flat form: values, pushed variables in order, and the cursor on the closing parenthesis |
| `ThemeMath.ParsedIsClosed` | obs-studio/frontend/OBSApp_Themes.cpp:231-288 | Nothing is parsed without an open parenthesis, at least one argument and a closing one or a semicolon, on which the cursor rests |
| `ThemeMath.Parser.ParseMath` | obs-studio/frontend/OBSApp_Themes.cpp:231-288 | The loop with its recursive calls computes the specified parse on every token list, failures included |
| `ThemeMath.Parser.ParseOperand` | obs-studio/frontend/OBSApp_Themes.cpp:242-284 | One turn of the loop is the specified turn, with the variables pushed by nested expressions |
| `ThemeMath.GuardIsDead` | obs-studio/frontend/OBSApp_Themes.cpp:577-716 | The depth guard never acts, because every operand is read at depth 0 |
| `ThemeMath.MathValue` | obs-studio/frontend/OBSApp_Themes.cpp:633-716 | Of an expression whose operands have values: it is refused exactly if both have units and these differ, or `calc` gives zero or divides by zero. Else its unit is the one that is present, and its number is at least (`max`) or at most (`min`) both amounts and one of them, or solves the equation of the operator. An amount is the user's value if there is one |
| `ThemeMath.OperandIsWorth` | obs-studio/frontend/OBSApp_Themes.cpp:577-630 | An operand is evaluated to an amount and a unit exactly if the relation that describes numbers, variables and, at any depth, non-negative results of expressions has them |
| `ThemeMath.MathIsGiven` | obs-studio/frontend/OBSApp_Themes.cpp:633-716 | An expression prints a number and a unit exactly if that relation gives them, so other operators, argument counts and operands print none |
| `ThemeMath.MaximumExample` | obs-studio/frontend/OBSApp_Themes.cpp:699-702 | Concrete expression: `max(5px, 3px)` is 5px |
| `ThemeMath.EvaluationEndsIff` | obs-studio/frontend/OBSApp_Themes.cpp:552-716 | Evaluation of a variable ends exactly if no chain of variables that it needs comes back to one of them |
| `ThemeMath.OwnOperandIsEndless` | obs-studio/frontend/OBSApp_Themes.cpp:577-716 | A variable that is its own operand or target never has a value |
| `ThemeMath.SubtractionExample` | obs-studio/frontend/OBSApp_Themes.cpp:231-284 | Concrete tokens: `calc(5px - 3px)` is parsed and evaluates to 2px |
| `ThemeMath.OperandEnds` | obs-studio/frontend/OBSApp_Themes.cpp:552-572 | On variables with a dependency rank evaluation ends within that many steps |
| `ThemeMath.OperandStable` | obs-studio/frontend/OBSApp_Themes.cpp:552-572 | Anonymous variables do not change what other names mean, and more steps do not change a result |
| `ThemeMath.MathMeaning` | obs-studio/frontend/OBSApp_Themes.cpp:577-716 | Evaluating the flat form over the extended map gives the direct value of the nested expression, or its error |
| `ThemeMath.FlatteningPreservesMeaning` | obs-studio/frontend/OBSApp_Themes.cpp:231-288 | Parsing, installing the pushed variables and evaluating ends and gives the direct recursive value, suffix or error of any nested expression |
| `ThemeChains.PathIsPrefix` | obs-studio/frontend/OBSApp_Themes.cpp:880-948 | A walk up the ancestors agrees with the chain of extended themes as far as it goes |
| `ThemeChains.NoChain` | obs-studio/frontend/OBSApp_Themes.cpp:906-930 | An ancestor that is missing, met before or of the wrong kind rules every chain out |
| `ThemeChains.DependenciesDescend` | obs-studio/frontend/OBSApp_Themes.cpp:880-948 | The recorded dependencies begin with a base root, each is extended by the next one and the last one by the theme; the parent of a variant is a base theme among them with no base theme nearer |
| `ThemeChains.App.WalkAncestors` | obs-studio/frontend/OBSApp_Themes.cpp:906-942 | The walk of one theme keeps it exactly if it has a chain to a base root, and then records dependencies root first and the nearest base ancestor as parent |
| `ThemeChains.App.ResolveThemes` | obs-studio/frontend/OBSApp_Themes.cpp:880-948 | Whatever order the map is walked in, what remains is the same function of the themes found: those with a chain, with their dependencies and parents |
| `ThemeChains.App.SetTheme` | obs-studio/frontend/OBSApp_Themes.cpp:492-549 | Loads a theme exactly if it and all its dependencies are present, dependencies first, the theme and then at most its own high-contrast layer |
| `ThemeChains.AncestorGoodIff` | obs-studio/frontend/OBSApp_Themes.cpp:906-930 | An ancestor of a kept theme is kept exactly unless it is a base theme with an ancestor that is not one |
| `ThemeChains.DependenciesKeptIff` | obs-studio/frontend/OBSApp_Themes.cpp:492-549 | All dependencies of a kept theme are kept exactly if no base theme among them extends a theme that is not one |
| `ThemeChains.LostDependencyExample` | obs-studio/frontend/OBSApp_Themes.cpp:906-942 | Concrete themes: a kept theme whose dependency is dropped |
| `ConstantBuffer.PlaceIsLeastLegal` | obs-studio/libobs-d3d11/d3d11-shader.cpp:137-195 | The offset computed is the least legal one after the constants before it |
| `ConstantBuffer.GreedyIsSound` | obs-studio/libobs-d3d11/d3d11-shader.cpp:137-195 | Constants are ordered and disjoint, none of at most 16 bytes crosses a register and larger ones start on one |
| `ConstantBuffer.PackedPlacesValues` | obs-studio/libobs-d3d11/d3d11-shader.cpp:319-371 | With values of declared sizes each value sits at its own offset and the gathered size is the expected one |
| `ConstantBuffer.DeclaredValuesUpload` | obs-studio/libobs-d3d11/d3d11-shader.cpp:358-384 | Values of declared sizes are never refused for their size |
| `ConstantBuffer.RunsKeepCoherence` | obs-studio/libobs-d3d11/d3d11-shader.cpp:319-385 | Every run of sets, uploads, uploads that throw part-way and rebuilds keeps: if no flag is set the buffer holds the packing of the current values |
| `ConstantBuffer.NormalUploadIsCurrent` | obs-studio/libobs-d3d11/d3d11-shader.cpp:319-385 | After any such run, an upload that returns normally leaves the packing of the current values on the device |
| `ConstantBuffer.RunGives` | obs-studio/libobs-d3d11/d3d11-shader.cpp:445-461 | After any run a parameter holds the bytes it was set to last, or its default if the device was rebuilt since |
| `ConstantBuffer.LastGivenIsUploaded` | obs-studio/libobs-d3d11/d3d11-shader.cpp:319-385 | After any run, an upload that returns normally leaves at the offset of a parameter the bytes it was given last, if those before it do not run past that offset, which they do not while none is longer than declared |
| `ConstantBuffer.UploadOutcome` | obs-studio/libobs-d3d11/d3d11-shader.cpp:319-385 | An upload is refused exactly for a value that is missing or a size that is wrong; it sends exactly if a flag is raised, lowers all flags when it returns normally and changes no value |
| `ConstantBuffer.FailedMapCoherence` | obs-studio/libobs-d3d11/d3d11-shader.cpp:371-384 | Coherence survives a failed mapping exactly if there was nothing new to send |
| `ConstantBuffer.FailedMapExample` | obs-studio/libobs-d3d11/d3d11-shader.cpp:371-384 | Concrete state: after a failed mapping the next upload succeeds and the device keeps the old value |
| `ConstantBuffer.RebuildKeepsCoherence` | obs-studio/libobs-d3d11/d3d11-rebuild.cpp:237-248 | A rebuilt shader is coherent whatever its new buffer holds |
| `ConstantBuffer.ByteWidthHolds` | obs-studio/libobs-d3d11/d3d11-shader.cpp:186-195 | Rounding by mask gives the least multiple of 16 that holds the constants, short of wrap-around |
| `ConstantBuffer.Shader.PlaceConstants` | obs-studio/libobs-d3d11/d3d11-shader.cpp:137-185 | The placement loop gives every constant its least legal offset and leaves everything else as it was |
| `ConstantBuffer.Shader.BuildConstantBuffer` | obs-studio/libobs-d3d11/d3d11-shader.cpp:137-207 | Places the constants and sizes the buffer; every parameter holds its default, flagged if there is one, and the state is coherent |
| `ConstantBuffer.Shader.SetValue` | obs-studio/libobs-d3d11/d3d11-shader.cpp:445-461 | The parameter holds the bytes, its flag is up if it was before or the bytes differ, and nothing else changes |
| `ConstantBuffer.Shader.UploadParams` | obs-studio/libobs-d3d11/d3d11-shader.cpp:319-384 | The gathering loop with its early exit is the specified step: flags cleared on the way, result and device contents |
| `ConstantBuffer.Shader.RebuildShader` | obs-studio/libobs-d3d11/d3d11-rebuild.cpp:237-271 | Every parameter loses its value and holds its default, flagged if there is one; places and sizes stay |
| `AnnexB.ScanNals` | android-shell/obs_smoke.cpp:569-610 | The index loop counts exactly the headers that the scan of the buffer finds, and says whether it looks past the end |
| `AnnexB.HistogramCounts` | android-shell/obs_smoke.cpp:569-610 | Types 7, 8 and 5 have their own counters, every other unit falls into the last one, and all units are counted |
| `AnnexB.ScanInvertsFraming` | android-shell/obs_smoke.cpp:569-610 | For every list of units free of start codes, framed with three- or four-byte codes and any trailing zeros, the scan returns exactly their headers and stays inside |
| `AnnexB.ScanCountsConsumed` | android-shell/obs_smoke.cpp:569-610 | On every buffer the headers found are those of the start codes that no earlier one overlaps |
| `AnnexB.ScanReadsPastIff` | android-shell/obs_smoke.cpp:569-610 | The scanner looks past the end exactly if the buffer ends in a bare four-byte start code |
| `AnnexB.ReadsPastExample` | android-shell/obs_smoke.cpp:569-610 | Concrete buffer of that kind |
| `VertexStreams.TexRun` | obs-studio/libobs-d3d11/d3d11-shaderprocessor.cpp:137-139 | The loop over texture coordinates ends: each index it finds uses up an element |
| `VertexStreams.MappingsAreRead` | obs-studio/libobs-d3d11/d3d11-shaderprocessor.cpp:24-52 | Each of the six names, with any decimal number behind it or none, is read as its semantic with that index or 0 |
| `VertexStreams.InputLayout.SetSlot` | obs-studio/libobs-d3d11/d3d11-shaderprocessor.cpp:93-106 | Gives the slot to the first matching element and to no other |
| `VertexStreams.InputLayout.AssignSlots` | obs-studio/libobs-d3d11/d3d11-shaderprocessor.cpp:115-140 | The running slot counter gives the order defined by semantics and indices |
| `VertexStreams.InputLayout.BuildFromVars` | obs-studio/libobs-d3d11/d3d11-shaderprocessor.cpp:24-140 | Nested passes are overwritten: the layout is one pass over all elements together |
| `VertexStreams.SlottedOfRefreshed` | obs-studio/libobs-d3d11/d3d11-shaderprocessor.cpp:108-140 | What earlier passes did to the slots does not survive the last pass |
| `VertexStreams.VertexShader.GetBuffersExpected` | obs-studio/libobs-d3d11/d3d11-shader.cpp:31-45 | Counts the streams that the layout has |
| `VertexStreams.VertexBuffer.MakeBufferList` | obs-studio/libobs-d3d11/d3d11-vertexbuffer.cpp:48-76 | Fills the arrays with the streams in their fixed order and returns how many |
| `VertexStreams.VertexBuffer.PushBuffer` | obs-studio/libobs-d3d11/d3d11-vertexbuffer.cpp:22-33 | Appends the stream if there is one |
| `VertexStreams.TexRunIsCount` | obs-studio/libobs-d3d11/d3d11-subsystem.hpp:740-754 | Without gaps or repeats there are as many texture streams as the run of indices is long |
| `VertexStreams.StreamsAgree` | obs-studio/libobs-d3d11/d3d11-vertexbuffer.cpp:48-76 | The two orderings agree: the list has the expected length and the stream at each element's slot is the one the element must read |
| `VertexBinding.Device.LoadVertexBufferData` | obs-studio/libobs-d3d11/d3d11-subsystem.cpp:1804-1832 | Unless the current pair was bound last, binds its streams: for every well-formed layout of the shader that the buffer provides for, the slot of each element holds the stream that the element must read. Without a buffer the expected slots are emptied |
| `VertexBinding.Device.DestroyVertexBuffer` | obs-studio/libobs-d3d11/d3d11-subsystem.cpp:2902-2908 | Destroying a buffer keeps the invariant, so that its address may be used again |
| `VertexBinding.Device.DestroyShader` | obs-studio/libobs-d3d11/d3d11-shader.cpp:387-393 | Destroying a shader keeps the invariant, so that its address may be used again |
| `VertexBinding.Device.Draw` | obs-studio/libobs-d3d11/d3d11-subsystem.cpp:2272-2300 | Draws exactly under the guards of the program, and in every draw with a vertex buffer each element of the current shader's layout finds its own stream of the current buffer in its slot, even where an address was used again |
| `VertexBinding.Device.RebuildDevice` | obs-studio/libobs-d3d11/d3d11-rebuild.cpp:568-577 | After a rebuild the invariant holds exactly if no pair was bound before |
| `VertexBinding.Device.DrawAfterRebuild` | obs-studio/libobs-d3d11/d3d11-rebuild.cpp:568-577 | The first draw after a rebuild reads its own streams exactly if it is not with the pair bound before |
| `OutputBinding.Device.SetRenderTarget` | obs-studio/libobs-d3d11/d3d11-subsystem.cpp:2038-2078 | A two-dimensional or null target, its depth buffer and its colour space become the choice in force; another texture changes at most the colour space, exactly if it and the depth buffer are in force already |
| `OutputBinding.Device.SetCubeRenderTarget` | obs-studio/libobs-d3d11/d3d11-subsystem.cpp:2080-2112 | A cube and side become the choice in force, with the plain colour space; what is in force already, or is no cube, changes no state of the device |
| `OutputBinding.Device.EnableFramebufferSrgb` | obs-studio/libobs-d3d11/d3d11-subsystem.cpp:2114-2120 | Changes the mode and keeps lazy and eager binding in agreement |
| `OutputBinding.Device.LoadSwapChain` | obs-studio/libobs-d3d11/d3d11-subsystem.cpp:2341-2364 | Explicit choices survive a switch of swap chains, and what is in force by default is the target and the depth buffer of the new one |
| `OutputBinding.Device.DestroySwapChain` | obs-studio/libobs-d3d11/d3d11-subsystem.cpp:2703-2710 | Nothing of a destroyed swap chain is a target, and other choices stay |
| `OutputBinding.Device.Resize` | obs-studio/libobs-d3d11/d3d11-subsystem.cpp:1500-1525 | A resize keeps the agreement; a failed one does exactly if a flush was due or nothing is selected |
| `OutputBinding.Device.Present` | obs-studio/libobs-d3d11/d3d11-subsystem.cpp:2407-2422 | Keeps all choices, or forgets them if the device was lost |
| `OutputBinding.Device.FlushOutputViews` | obs-studio/libobs-d3d11/d3d11-subsystem.cpp:890-910 | A pending flush binds the linear view of the current side in sRGB mode and the plain one otherwise, with the view of the depth buffer, or leaves everything if there is no view |
| `OutputBinding.Device.Draw` | obs-studio/libobs-d3d11/d3d11-subsystem.cpp:2272-2300 | Draws exactly under the guards of the program, and every draw that flushes renders into what eager binding would have bound |
| `StateCaches.StateCache.Update` | obs-studio/libobs-d3d11/d3d11-subsystem.cpp:787-870 | Afterwards the bound object was created from exactly the requested state, or creation failed and nothing changed |
| `StateCaches.StateCache.Add` | obs-studio/libobs-d3d11/d3d11-subsystem.cpp:700-785 | A failed creation does not reach the list, which never has a key twice |
| `StateCaches.StateCache.Request` | obs-studio/libobs-d3d11/d3d11-subsystem.cpp:2429-2442 | A setter keeps the cache in agreement and raises the flag only for a change |
| `StateCaches.StateCache.Rebuild` | obs-studio/libobs-d3d11/d3d11-rebuild.cpp:479-487 | Every saved object is recreated from its own key |
| `StateCaches.Device.UpdateStates` | obs-studio/libobs-d3d11/d3d11-subsystem.cpp:787-870 | After all updates succeed the three bound objects are those of the three requested states |
| `StateCaches.Device.RebuildStates` | obs-studio/libobs-d3d11/d3d11-rebuild.cpp:388-594 | The caches agree with the requested states through the loss of the device |
| `StateCaches.Device.SetStencilOp` | obs-studio/libobs-d3d11/d3d11-subsystem.cpp:2582-2615 | The chosen sides get the operations and nothing else changes |
| `StateCaches.Device.StencilFunction` | obs-studio/libobs-d3d11/d3d11-subsystem.cpp:2557-2580 | The chosen sides get the comparison and nothing else changes |
| `StateCaches.Device.BlendFunction` | obs-studio/libobs-d3d11/d3d11-subsystem.cpp:2498-2510 | Both colour and alpha factors change and nothing else |
| `StateCaches.Device.BlendFunctionSeparate` | obs-studio/libobs-d3d11/d3d11-subsystem.cpp:2512-2525 | Each factor becomes its own argument and nothing else changes |
| `ObjectList.Device.Register` | obs-studio/libobs-d3d11/d3d11-subsystem.cpp:50-58 | A new object is linked in front of the list and nothing else of any object changes; the pairs stay valid exactly if it has no partner yet |
| `ObjectList.Device.CreatePair` | obs-studio/libobs-d3d11/d3d11-subsystem.cpp:3289-3362 | Both halves are registered with one resource, or neither is, or, when only the second fails, the first stays registered alone |
| `ObjectList.Device.Unregister` | obs-studio/libobs-d3d11/d3d11-subsystem.cpp:60-66 | In any order of destruction exactly the object is unlinked, and one that never was registered leaves the list alone; the pairs stay valid exactly if it is not half of a pair, and become valid again when the second half goes |
| `ObjectList.Device.Unlink` | obs-studio/libobs-d3d11/d3d11-subsystem.cpp:60-66 | Relinking through the stored address of the previous link removes exactly one object |
| `ObjectList.Device.RebuildPairedY` | obs-studio/libobs-d3d11/d3d11-rebuild.cpp:124-163 | Both halves of a pair are rebuilt once, on one new resource |
| `ObjectList.Pairing.TurnKeepsRebuilt` | obs-studio/libobs-d3d11/d3d11-rebuild.cpp:512-566 | A step of the walk rebuilds its own turn, pairs with their first half, and nothing twice |
| `ObjectList.Device.RebuildAll` | obs-studio/libobs-d3d11/d3d11-rebuild.cpp:512-566 | The second walk rebuilds every object once |
| `ObjectList.Device.RebuildDevice` | obs-studio/libobs-d3d11/d3d11-rebuild.cpp:418-566 | Every live object is rebuilt exactly once on a new resource, which it shares only with its other half |
| `ObjectList.AnyRun` | obs-studio/libobs-d3d11/d3d11-rebuild.cpp:418-566 | In every run of creations, destructions and losses of the device, each object has been recreated once for each loss in its life, and the next loss can be handled |
| `MetalUniforms.AlignIsLeast` | obs-studio/libobs-metal/OBSShader.swift:204-213 | Mask rounding gives the least aligned offset after the predecessor |
| `MetalUniforms.AlignAdvancesIff` | obs-studio/libobs-metal/libobs+Extensions.swift:120-161 | An offset stays at or after the end of its predecessor exactly for the types that have an alignment |
| `MetalUniforms.BuildUniforms` | obs-studio/libobs-metal/OBSShader.swift:184-238 | The layout loop gives each uniform the computed offset; the whole is a C-struct layout exactly if all uniforms but the textures have a numeric type |
| `MetalUniforms.LaidAdvancesIff` | obs-studio/libobs-metal/OBSShader.swift:184-238 | No uniform is laid over an earlier one exactly if those without an alignment come before all of some size |
| `MetalUniforms.LayoutDisjoint` | obs-studio/libobs-metal/OBSShader.swift:184-238 | Two uniforms never share a byte |
| `MetalUniforms.TexturesAreNumbered` | obs-studio/libobs-metal/OBSShader.swift:184-238 | The slots of the textures are numbered one after the other from 0 |
| `MetalUniforms.ShaderUniform.SetParameter` | obs-studio/libobs-metal/MetalShader.swift:58-70 | Stores the value and flags it; a missing pointer is ignored |
| `MetalUniforms.WriteElsewhere` | obs-studio/libobs-metal/MetalShader.swift:166-205 | A write inside one range leaves every other range alone |
| `MetalUniforms.MetalShader.UpdateUniform` | obs-studio/libobs-metal/MetalShader.swift:166-205 | Keeps that each uniform's range holds what was uploaded for it |
| `MetalUniforms.MetalShader.UploadShaderParameters` | obs-studio/libobs-metal/MetalShader.swift:233-266 | Every set uniform's range then holds its last value, and the data keeps its size |
| `MetalUniforms.DefaultShownIff` | obs-studio/libobs-metal/MetalShader.swift:110-111 | A default that was never set reaches the shader exactly if it is zero |
| `Bits.MaskRoundsDown` | obs-studio/libobs-metal/OBSShader.swift:212 | Masking with the complement of a power of two less one is rounding down to a multiple |
| `Bits.MaskIsMod` | obs-studio/libobs-d3d11/d3d11-shader.cpp:166-185 | Masking with a power of two less one is the remainder |
| `MetalCommands.MetalDevice.Clear` | obs-studio/libobs-metal/MetalDevice.swift:207-329 | Encodes one command into the current target and keeps that pending targets are in flight and flagged |
| `MetalCommands.MetalDevice.Draw` | obs-studio/libobs-metal/MetalDevice.swift:349-532 | The same for a draw |
| `MetalCommands.MetalDevice.EnsureCommandBuffer` | obs-studio/libobs-metal/MetalDevice.swift:535-543 | Opens a buffer if there is none and fails exactly if it must and cannot |
| `MetalCommands.MetalDevice.FinishPendingCommands` | obs-studio/libobs-metal/MetalDevice.swift:576-600 | Commits what is buffered behind what was committed, closes the buffer and clears every flag |
| `MetalCommands.MetalDevice.FlushIfPending` | obs-studio/libobs-metal/MetalDevice.swift:602-618 | If the source is flagged the buffer is committed and closed and every flag cleared, else nothing changes; afterwards no buffered command renders into the source |
| `MetalCommands.MetalDevice.CopyTexture` | obs-studio/libobs-metal/MetalDevice.swift:602-618 | A copy is encoded exactly if the buffer is open and not flushed or a new one can be had, and an encoder too; it is committed after everything issued before it |
| `MetalCommands.MetalDevice.StageTexture` | obs-studio/libobs-metal/MetalDevice.swift:635-694 | In every run a blit's read comes after every earlier clear or draw into its source. After earlier writes of its source, and with its own write after earlier writes and reads of its destination, it comes exactly if it flushed or none of them is buffered |
| `MetalCommands.OvertakenClearRun` | obs-studio/libobs-metal/MetalDevice.swift:635-694 | Concrete run: a copy into a texture that was just cleared is committed ahead of the clear |
| `MetalCommands.MetalDevice.GenerateMipmaps` | obs-studio/libobs-metal/MetalTexture.swift:286-302 | Encoded exactly if there are a buffer and an encoder; writes the texture without flagging it and keeps the order |
| `MetalCommands.MetalDevice.SetRenderTarget` | obs-studio/libobs-metal/metal-subsystem.swift:356-403 | Marks the target as changed, which draws rely on |
| `MetalCommands.MetalDevice.LoadSwapchain` | obs-studio/libobs-metal/metal-swapchain.swift:225-256 | Makes the drawable's texture the target |
| `MetalCommands.InsertKeepsOrderIff` | obs-studio/libobs-metal/MetalDevice.swift:635-694 | A command placed ahead of others keeps the order of any kind of dependency exactly if it has none on them |
| `MetalCommands.UnflaggedCopyExample` | obs-studio/libobs-metal/MetalDevice.swift:602-618 | Concrete run: a copy into a texture that is staged next is overtaken |

## Left out

- Driver, window system, toolkit and file calls; creation failure is a parameter, and error codes and log messages are not modelled.
- The parsers of libobs: token streams, parameter lists and struct tables are given, and a token has at least one character where a lemma says so.
- `ShaderLifting.LiftingClosesBody` supposes that functions have different names and are defined before they are used, as the shading language demands, and that `mul`, `mad` and texture calls have the arguments they need.
- `ShaderOrder.EmitKeepsOrder`: names that are rewritten and names of texture methods are not followed, because they are not emitted as they are.
- `ShaderTranspiler.OBSShader.TranspileFunctions`: does not model the rewriting of return statements of a three-component main function by a regular expression, nor the text of types, attributes and structs around the bodies.
- `ShaderTranspiler.OBSShader.Transpiled`: does not model the text of uniforms and structs that the program puts in front of the functions, nor the metadata.
- `ShaderBalance.EmitIsBalanced` and `ShaderBalance.BodyIsBalanced` suppose that brackets and commas are tokens of their own, as the lexer of libobs makes them, and that names hold none. They tell an `int3` by its token.
- `ShaderBalance.EmitIsBalanced`: where repeated closing brackets or brackets both repeated and cut make up for each other, the number of brackets is proved but not whether their order is balanced.
- `ConstantBuffer.LastGivenIsUploaded`: mapping succeeds in these runs; what a failed one loses is `ConstantBuffer.FailedMapCoherence`.
- `ThemeChains.App.SetTheme`: which files are loaded, and in which order, is modelled; reading them and merging their variables into one map is not.
- `ShaderEmit.Split` takes a comma inside a string literal for no comma; such literals do not occur in shader bodies.
- Local names that hide a uniform: the program rewrites them like the uniform, and so does the model.
- The conversion tables for types and intrinsics are data of the model (`ShaderTranspiler.MslWords`), about which the lemmas suppose nothing but that no name becomes empty.
- `ThemeMath.FlatteningPreservesMeaning`: numbers are reals, printing a non-negative number and reading it again is the identity, and a negative nested result is refused as the program does. An unknown key is neither a number nor an alias. Looking up a name through aliases is a function with a step bound, because cyclic aliases never end in the program.
- `ThemeMath.Parser.ParseMath`: variables that a failed parse has pushed are not described, because the whole variable is dropped.
- Case-insensitive comparison of semantic names, and integer widths in the parsing of their numbers.
- `ConstantBuffer.Shader.BuildConstantBuffer`: the program leaves the offset of a string or unknown parameter uninitialised; in the model it is any number. Padding inside values does not exist, values being byte sequences.
- `MetalUniforms.MetalShader.UploadShaderParameters` and the invariant behind it suppose a C-struct layout, that is, numeric types for all uniforms but the textures.
- `MetalUniforms.MetalShader.SetUniform`: values are at most as long as their type; a longer one overwrites its neighbours or makes the data grow.
- Texture units and samplers, which are cached by texture or not at all, and the destruction of a texture while it is the current target.
- `MetalCommands.MetalDevice.Draw`: of a draw only the marking of targets and the encoding of the command are modelled; pipelines are not.
- Copies from staging buffers into textures, pipeline caches keyed by hash values, timers, index buffers, and conversion tables between enumerations.
- Concurrency of the render thread with the display callbacks of the Metal device.
