/** The brackets of emitted text: they are balanced, but for what comparisons repeat and what `Load` cuts. */
module ShaderBrackets {
  import opened Brackets
  import opened ShaderAnalysis
  import opened ShaderEmit
  import opened ShaderEnds
  import opened ShaderScan
  import opened ShaderSlant
  import opened ShaderSyntax
  import opened ShaderText
  import opened Wrappers

  // ---------- Pieces that lean ----------

  /** The text has the brackets that the tally leaves it, and commas are pieces of their own. */
  ghost predicate LeansBy(ps: seq<Piece>, t: Tally) {
    TextLeans(Render(ps), t) && (t.commas == 0 ==> Commaless(ps))
  }

  ghost predicate TextLeans(text: string, t: Tally) {
    TextLeansIn(text, t, 0)
  }

  /** The same inside of `depth` more parentheses. */
  ghost predicate TextLeansIn(text: string, t: Tally, depth: nat) {
    && Leans(Parens, text, t.Excess(Parens), t.Clear(), depth)
    && Leans(Braces, text, t.Excess(Braces), t.Clear(), depth)
  }

  lemma BareLeans(text: string)
    requires Free(text)
    ensures TextLeans(text, NONE)
  {
    LeansFree(Parens, text);
    LeansFree(Braces, text);
  }

  lemma BothLean(a: string, s: Tally, b: string, t: Tally)
    requires TextLeans(a, s) && TextLeans(b, t)
    ensures TextLeans(a + b, s.Plus(t))
  {
    hide Leans;
    LeansBoth(Parens, a, s.Excess(Parens), s.Clear(), b, t.Excess(Parens), t.Clear());
    LeansBoth(Braces, a, s.Excess(Braces), s.Clear(), b, t.Excess(Braces), t.Clear());
  }

  lemma Wrapped(a: string, t: Tally, depth: nat)
    requires TextLeansIn(a, t, depth + 1)
    ensures TextLeansIn("(" + a + ")", t, depth)
  {
    hide Leans;
    LeansAround(Parens, a, t.Excess(Parens), t.Clear(), depth);
    LeansAround(Braces, a, t.Excess(Braces), t.Clear(), depth);
  }

  lemma Deeper(a: string, t: Tally, depth: nat)
    requires TextLeansIn(a, t, depth)
    ensures TextLeansIn(a, t, depth + 1)
  {
  }

  lemma EnclosedLeans(a: string, t: Tally)
    requires TextLeans(a, t)
    ensures TextLeans("(" + a + ")", t)
  {
    hide Leans;
    Deeper(a, t, 0);
    Wrapped(a, t, 0);
  }

  lemma BracedLeans(a: string, t: Tally)
    requires TextLeans(a, t)
    ensures TextLeans("{" + a + "}", t)
  {
    hide Leans;
    LeansBraces(Parens, a, t.Excess(Parens), t.Clear());
    LeansBraces(Braces, a, t.Excess(Braces), t.Clear());
  }

  /** A bare word before or after. */
  lemma WithBare(a: string, t: Tally, word: string)
    requires TextLeans(a, t) && Free(word)
    ensures TextLeans(word + a, t) && TextLeans(a + word, t)
  {
    hide TextLeans;
    BareLeans(word);
    BothLean(word, NONE, a, t);
    BothLean(a, t, word, NONE);
  }

  lemma Gap(x: string, gap: string, y: string, t: Tally, depth: nat)
    requires Free(gap) && TextLeansIn(x + y, t, depth)
    ensures TextLeansIn(x + gap + y, t, depth)
  {
    hide Leans;
    LeansGap(Parens, x, gap, y, t.Excess(Parens), t.Clear(), depth);
    LeansGap(Braces, x, gap, y, t.Excess(Braces), t.Clear(), depth);
  }

  lemma TurnIn(x: string, word: string, y: string, t: Tally, depth: nat)
    requires Free(word) && TextLeansIn(x + y, t, depth)
    ensures TextLeansIn(x + ")" + word + "(" + y, t, depth + 1)
  {
    hide Leans;
    LeansTurn(Parens, x, word, y, t.Excess(Parens), t.Clear(), depth);
    LeansTurn(Braces, x, word, y, t.Excess(Braces), t.Clear(), depth);
  }

  lemma TurnsIn(x: string, word: string, y: string, z: string, t: Tally, depth: nat)
    requires Free(word) && TextLeansIn(x + y + z, t, depth)
    ensures TextLeansIn(x + ")" + word + "(" + y + ")" + word + "(" + z, t, depth + 1)
  {
    hide Leans;
    LeansTurns(Parens, x, word, y, word, z, t.Excess(Parens), t.Clear(), depth);
    LeansTurns(Braces, x, word, y, word, z, t.Excess(Braces), t.Clear(), depth);
  }

  // ---------- Commas ----------

  lemma CommalessConcat()
    ensures forall a: seq<Piece>, b: seq<Piece> {:trigger Commaless(a + b)} ::
              Commaless(a + b) <==> Commaless(a) && Commaless(b)
  {
    forall a: seq<Piece>, b: seq<Piece>
      ensures Commaless(a + b) <==> Commaless(a) && Commaless(b)
    {
      if Commaless(a + b) {
        assert forall piece | piece in a :: piece in a + b;
        assert forall piece | piece in b :: piece in a + b;
      }
    }
  }

  lemma CommalessOne()
    ensures forall piece {:trigger Commaless([piece])} ::
              Commaless([piece]) <==> piece == Text(",") || CommaFree(PieceText(piece))
    ensures Commaless(SEP) && Commaless([])
  {
    assert forall piece {:trigger Commaless([piece])} :: piece in [piece];
  }

  ghost predicate PartsCommaless(parts: seq<seq<Piece>>) {
    forall part | part in parts :: Commaless(part)
  }

  lemma {:induction false} SplitCommaless(ps: seq<Piece>, left: nat)
    requires Commaless(ps)
    ensures PartsCommaless(Split(ps, left))
    decreases |ps|
  {
    hide Render;
    var k := FirstComma(ps);
    assert Commaless(ps[..k]);
    if k < |ps| {
      assert Commaless(ps[k + 1..]);
      SplitCommaless(ps[k + 1..], if Render(ps[..k]) == "" then left else if left == 0 then 0 else left - 1);
    }
  }

  // ---------- Splitting ----------

  /** The same brackets. */
  ghost predicate Alike(a: string, b: string) {
    && Net(Parens, a) == Net(Parens, b) && Low(Parens, a) == Low(Parens, b)
    && Net(Braces, a) == Net(Braces, b) && Low(Braces, a) == Low(Braces, b)
  }

  lemma AlikeLeans(a: string, b: string, t: Tally, depth: nat)
    requires Alike(a, b) && TextLeansIn(a, t, depth)
    ensures TextLeansIn(b, t, depth)
  {
  }

  lemma AlikeBoth(a: string, x: string, b: string, y: string)
    requires Alike(a, x) && Alike(b, y)
    ensures Alike(a + b, x + y) && Alike(a + "," + b, x + y)
  {
    hide Net, Low;
    CommaIsFree();
    AppendKinds(a, b);
    AppendKinds(x, y);
    AppendKinds(a + ",", b);
    AppendKinds(a, ",");
  }

  lemma CommaIsFree()
    ensures Net(Parens, ",") == Low(Parens, ",") == Net(Braces, ",") == Low(Braces, ",") == 0
    ensures forall kind: Kind :: Low(kind, "") == 0 && Net(kind, "") == 0
  {
    FreeIsFlat(Parens, ",");
    FreeIsFlat(Braces, ",");
  }

  lemma AppendKinds(a: string, b: string)
    ensures Net(Parens, a + b) == Net(Parens, a) + Net(Parens, b)
    ensures Low(Parens, a + b) == Least(Low(Parens, a), Net(Parens, a) + Low(Parens, b))
    ensures Net(Braces, a + b) == Net(Braces, a) + Net(Braces, b)
    ensures Low(Braces, a + b) == Least(Low(Braces, a), Net(Braces, a) + Low(Braces, b))
    ensures Low(Parens, a) <= Net(Parens, a) && Low(Braces, a) <= Net(Braces, a)
  {
    Append(Parens, a, b);
    Append(Braces, a, b);
    LowIsBelow(Parens, a);
    LowIsBelow(Braces, a);
  }

  /** What is split loses no brackets. */
  lemma {:induction false} SplitIsAlike(ps: seq<Piece>, left: nat)
    ensures Alike(Render(ps), Render(Join(Split(ps, left))))
    decreases |ps|
  {
    hide Render, FirstComma, Alike, Join;
    RenderConcat();
    RenderOne();
    var k := FirstComma(ps);
    var part := if Render(ps[..k]) == "" then [] else [ps[..k]];
    PartIsJoined(ps[..k]);
    if k == |ps| {
      assert ps[..k] == ps;
      AlikeSelf(Render(ps));
    } else {
      FirstCommaIsComma(ps);
      var rest, more := ps[k + 1..], if part == [] then left else if left == 0 then 0 else left - 1;
      assert ps == ps[..k] + [Text(",")] + rest;
      PartIsJoined(rest);
      SplitIsAlike(rest, more);
      AlikeSelf(Render(ps[..k]));
      AlikeSelf(Render(rest));
      var others := if part != [] && left <= 1 then if Render(rest) == "" then [] else [rest] else Split(rest, more);
      JoinAppend(part, others);
      AlikeBoth(Render(ps[..k]), Render(Join(part)), Render(rest), Render(Join(others)));
    }
  }

  lemma AlikeSelf(a: string)
    ensures Alike(a, a)
  {
  }

  lemma PartIsJoined(ps: seq<Piece>)
    ensures Render(Join(if Render(ps) == "" then [] else [ps])) == Render(ps)
  {
    assert [ps][1..] == [] && ps + [] == ps;
  }

  lemma {:induction false} JoinAppend(s: seq<seq<Piece>>, t: seq<seq<Piece>>)
    ensures Render(Join(s + t)) == Render(Join(s)) + Render(Join(t))
  {
    hide Render;
    RenderConcat();
    RenderOne();
    if s == [] {
      assert s + t == t;
    } else {
      assert (s + t)[1..] == s[1..] + t;
      JoinAppend(s[1..], t);
    }
  }

  lemma Joined3(s: seq<seq<Piece>>)
    ensures |s| == 3 ==> Render(Join(s)) == Render(s[0]) + Render(s[1]) + Render(s[2])
    ensures |s| == 2 ==> Render(Join(s)) == Render(s[0]) + Render(s[1])
    ensures |s| == 1 ==> Render(Join(s)) == Render(s[0])
  {
    hide Render;
    RenderConcat();
    RenderOne();
    if |s| == 3 {
      assert s == [s[0]] + [s[1]] + [s[2]];
      JoinAppend([s[0]] + [s[1]], [s[2]]);
      JoinAppend([s[0]], [s[1]]);
    } else if |s| == 2 {
      assert s == [s[0]] + [s[1]];
      JoinAppend([s[0]], [s[1]]);
    } else if |s| == 1 {
      assert s == [s[0]];
    }
    forall part: seq<Piece> {:trigger Join([part])}
      ensures Render(Join([part])) == Render(part)
    {
      assert [part][1..] == [] && part + [] == part;
    }
  }

  // ---------- Constructors and calls ----------

  lemma ProductLeans(a: string, s: Tally, b: string, t: Tally)
    requires TextLeans(a, s) && TextLeans(b, t)
    ensures TextLeans("(" + a + ") * (" + b + ")", s.Plus(t))
  {
    hide TextLeans;
    EnclosedLeans(a, s);
    EnclosedLeans(b, t);
    WithBare("(" + b + ")", t, " * ");
    BothLean("(" + a + ")", s, " * " + ("(" + b + ")"), t);
    assert ")" + " * " + "(" == ") * (";
    assert "(" + a + ") * (" + b + ")" == ("(" + a + ")") + (" * " + ("(" + b + ")"));
  }

  lemma ProductSumLeans(a: string, s: Tally, b: string, t: Tally, d: string, u: Tally)
    requires TextLeans(a, s) && TextLeans(b, t) && TextLeans(d, u)
    ensures TextLeans("((" + a + ") * (" + b + ")) + (" + d + ")", s.Plus(t).Plus(u))
  {
    hide TextLeans;
    var product := "(" + a + ") * (" + b + ")";
    ProductLeans(a, s, b, t);
    EnclosedLeans(product, s.Plus(t));
    EnclosedLeans(d, u);
    WithBare("(" + d + ")", u, " + ");
    BothLean("(" + product + ")", s.Plus(t), " + " + ("(" + d + ")"), u);
    assert "(" + "(" == "((" && ")" + ")" + " + " + "(" == ")) + (";
    assert "((" + a + ") * (" + b + ")) + (" + d + ")" == ("(" + product + ")") + (" + " + ("(" + d + ")"));
  }

  /** Two arguments with a comma. */
  lemma PairLeans(a: string, s: Tally, b: string, t: Tally)
    requires TextLeans(a, s) && TextLeans(b, t)
    ensures TextLeans(a + ", " + b, s.Plus(t))
  {
    hide TextLeans;
    WithBare(a, s, ", ");
    BothLean(a + ", ", s, b, t);
  }

  /** A call of a word. */
  lemma CallLeans(word: string, a: string, t: Tally)
    requires Free(word) && TextLeans(a, t)
    ensures TextLeans(word + "(" + a + ")", t)
  {
    hide TextLeans;
    EnclosedLeans(a, t);
    WithBare("(" + a + ")", t, word);
    assert word + "(" + a + ")" == word + ("(" + a + ")");
  }

  lemma Int3Leans(content: seq<Piece>, t: Tally)
    requires LeansBy(content, t)
    ensures Int3(content).Some? ==> LeansBy(Int3(content).value, t)
  {
    hide Render, Int3, TextLeansIn, Commaless;
    Int3TextLeans(content, t);
    if t.commas == 0 {
      Int3Commaless(content);
    }
  }

  lemma Int3Commaless(content: seq<Piece>)
    requires Commaless(content)
    ensures Int3(content).Some? ==> Commaless(Int3(content).value)
  {
    hide Split, Commaless;
    CommalessConcat();
    CommalessOne();
    SplitCommaless(content, 3);
  }

  lemma Int3TextLeans(content: seq<Piece>, t: Tally)
    requires TextLeans(Render(content), t)
    ensures Int3(content).Some? ==> TextLeans(Render(Int3(content).value), t)
  {
    hide Render, Split, TextLeansIn, Alike;
    RenderConcat();
    RenderOne();
    var s := Split(content, 3);
    SplitIsAlike(content, 3);
    AlikeLeans(Render(content), Render(Join(s)), t, 0);
    Joined3(s);
    if |s| == 3 {
      ThreeLean(Render(s[0]), Render(s[1]), Render(s[2]), t);
    } else if |s| == 2 {
      TwoLean(Render(s[0]), Render(s[1]), t);
    } else if |s| == 1 {
      QuotedLeans(Render(s[0]), t);
    }
  }

  lemma ThreeLean(a: string, b: string, d: string, t: Tally)
    requires TextLeansIn(a + b + d, t, 0)
    ensures TextLeans("int(" + a + ")" + ", " + "int(" + b + ")" + ", " + "int(" + d + ")", t)
  {
    hide TextLeansIn;
    var inner := a + ")" + ", int" + "(" + b + ")" + ", int" + "(" + d;
    TurnsIn(a, ", int", b, d, t, 0);
    Wrapped(inner, t, 0);
    WithBare("(" + inner + ")", t, "int");
    assert ", " + "int(" == ", int" + "(" && "int" + "(" == "int(";
    assert "int(" + a + ")" + ", " + "int(" + b + ")" + ", " + "int(" + d + ")" == "int" + ("(" + inner + ")");
  }

  lemma TwoLean(a: string, b: string, t: Tally)
    requires TextLeansIn(a + b, t, 0)
    ensures TextLeans("int2(" + a + ")" + ", " + "int(" + b + ")", t)
  {
    hide TextLeansIn;
    var inner := a + ")" + ", int" + "(" + b;
    TurnIn(a, ", int", b, t, 0);
    Wrapped(inner, t, 0);
    WithBare("(" + inner + ")", t, "int2");
    assert ", " + "int(" == ", int" + "(" && "int2" + "(" == "int2(";
    assert "int2(" + a + ")" + ", " + "int(" + b + ")" == "int2" + ("(" + inner + ")");
  }

  lemma QuotedLeans(a: string, t: Tally)
    requires TextLeansIn(a, t, 0)
    ensures TextLeans("[\"" + a + "\"]", t)
  {
    hide TextLeansIn;
    WithBare(a, t, "[\"");
    WithBare("[\"" + a, t, "\"]");
  }

  // ---------- Texture loads ----------

  /** Without an `int3` the argument stays whole. */
  lemma PlainLoadLeans(first: seq<Piece>, t: Tally)
    requires !TextStartsInt3(first) && LeansBy(first, t)
    ensures LoadText(first).Some? && LeansBy(LoadText(first).value, t)
  {
    hide Render, TextLeansIn, Commaless;
    CommalessConcat();
    CommalessOne();
    PlainRead(first);
    CoordinatesLean(Render(first), t);
  }

  lemma CoordinatesLean(a: string, t: Tally)
    requires TextLeans(a, t)
    ensures TextLeans("read(uint2(" + a + ".xy), 0)", t)
  {
    Deeper(a, t, 0);
    ReadLeans(a, t);
  }

  /** One part, inside of two parentheses. */
  lemma ReadLeans(a: string, t: Tally)
    requires TextLeansIn(a, t, 1)
    ensures TextLeans("read(uint2(" + a + ".xy), 0)", t)
  {
    hide TextLeansIn;
    assert a + "" == a;
    Gap(a, ".xy", "", t, 1);
    assert a + ".xy" + "" == a + ".xy";
    Wrapped(a + ".xy", t, 0);
    var inner := "(" + (a + ".xy") + ")";
    WithBare(inner, t, "uint2");
    WithBare("uint2" + inner, t, ", 0");
    CallLeans("read", "uint2" + inner + ", 0", t);
    assert "read" + "(" + "uint2" + "(" == "read(uint2(" && ".xy" + ")" + ", 0" + ")" == ".xy), 0)";
    assert "read" + "(" + ("uint2" + inner + ", 0") + ")" == "read(uint2(" + a + ".xy), 0)";
  }

  lemma ReadTwoLeans(a: string, b: string, t: Tally)
    requires TextLeansIn(a + b, t, 1)
    ensures TextLeans("read(uint2(" + a + ")" + ", " + "uint(" + b + "))", t)
  {
    hide TextLeansIn;
    var inner := a + ")" + ", uint" + "(" + b;
    TurnIn(a, ", uint", b, t, 1);
    ReadInside(inner, t);
    assert ", " + "uint(" == ", uint" + "(" && ")" + ")" == "))";
    assert "read(uint2(" + inner + "))" == "read(uint2(" + a + ")" + ", " + "uint(" + b + "))";
  }

  lemma ReadThreeLeans(a: string, b: string, d: string, t: Tally)
    requires TextLeansIn(a + b + d, t, 1)
    ensures TextLeans("read(uint2(" + a + ", " + b + ")" + ", " + "uint(" + d + "))", t)
  {
    hide TextLeansIn;
    var rest := b + ")" + ", uint" + "(" + d;
    TurnIn(a + b, ", uint", d, t, 1);
    assert a + b + ")" + ", uint" + "(" + d == a + rest;
    Gap(a, ", ", rest, t, 2);
    ReadInside(a + ", " + rest, t);
    assert ", " + "uint(" == ", uint" + "(";
    assert "read(uint2(" + (a + ", " + rest) + "))" == "read(uint2(" + a + ", " + b + ")" + ", " + "uint(" + d + "))";
  }

  lemma ReadInside(inner: string, t: Tally)
    requires TextLeansIn(inner, t, 2)
    ensures TextLeans("read(uint2(" + inner + "))", t)
  {
    hide TextLeansIn, Free;
    Wrapped(inner, t, 1);
    var text := "(" + inner + ")";
    assert "" + text == text && "" + "uint2" + text == "uint2" + text;
    WordsAreFree();
    Gap("", "uint2", text, t, 1);
    Wrapped("uint2" + text, t, 0);
    WithBare("(" + ("uint2" + text) + ")", t, "read");
    ReadWords(inner, text);
  }

  lemma WordsAreFree()
    ensures Free("uint2") && Free("read")
  {
  }

  lemma ReadWords(inner: string, text: string)
    requires text == "(" + inner + ")"
    ensures "read" + ("(" + ("uint2" + text) + ")") == "read(uint2(" + inner + "))"
  {
    assert "read" + "(" + "uint2" + "(" == "read(uint2(" && ")" + ")" == "))";
  }

  /** The tally of a `Load` whose argument ends with this character. */
  ghost predicate Loses(last: char, t: Tally) {
    if last == ')' then t == NONE else if last == '}' then t == NONE.(lostBrace := 1)
    else t == NONE.(lost := 1) && !IsBracketChar(last)
  }

  /** What is left of an `int3` without its name, its first parenthesis and its last character. */
  lemma Peeled(inner: string, last: char, t: Tally, u: Tally)
    requires TextLeans("int3(" + inner + [last], t) && Loses(last, u)
    ensures TextLeansIn(inner, t.Plus(u), 1)
  {
    PeeledKind(Parens, inner, last);
    PeeledKind(Braces, inner, last);
  }

  lemma PeeledKind(kind: Kind, inner: string, last: char)
    ensures var text := "int3(" + inner + [last];
            && Net(kind, text) == Weight(kind, '(') + Net(kind, inner) + Weight(kind, last)
            && Low(kind, text) == Least(Least(0, Weight(kind, '(') + Low(kind, inner)),
                                        Weight(kind, '(') + Net(kind, inner) + Least(Weight(kind, last), 0))
  {
    hide Net, Low;
    OneBracket(kind, last);
    assert "int3" + "(" == "int3(";
    WordOpens(kind, "int3");
    Append(kind, "int3(" + inner, [last]);
    Append(kind, "int3(", inner);
  }

  /** With an `int3` the argument loses its last character. */
  lemma Int3LoadLeans(first: seq<Piece>, t: Tally, last: char, u: Tally)
    requires TextStartsInt3(first) && |first| > 2 && LeansBy(first, t) && Loses(last, u)
    requires var text := Render(first[2..]); text != "" && text[|text| - 1] == last
    ensures LoadText(first).Some? ==> LeansBy(LoadText(first).value, t.Plus(u))
  {
    hide Render, LoadText, TextLeansIn, Commaless;
    var text := Render(first[2..]);
    var inner := text[..|text| - 1];
    FirstIsPeeled(first);
    assert text == inner + [last] && "int3(" + text == "int3(" + inner + [last];
    Peeled(inner, last, t, u);
    DropLastText(first[2..]);
    LoadPartsLean(first, t.Plus(u));
    if t.commas == 0 {
      LoadCommaless(first);
    }
    assert Loses(last, u) ==> u.commas == 0;
  }

  lemma FirstIsPeeled(first: seq<Piece>)
    requires TextStartsInt3(first)
    ensures Render(first) == "int3(" + Render(first[2..])
  {
    hide Render;
    RenderConcat();
    RenderOne();
    assert first == [first[0]] + [first[1]] + first[2..];
    assert "int3" + "(" == "int3(";
  }

  lemma LoadCommaless(first: seq<Piece>)
    requires TextStartsInt3(first) && Commaless(first)
    ensures LoadText(first).Some? ==> Commaless(LoadText(first).value)
  {
    hide Split, DropLast, Commaless;
    CommalessConcat();
    CommalessOne();
    assert first == first[..2] + first[2..];
    DropLastCommaless(first[2..]);
    SplitCommaless(DropLast(first[2..]), 3);
  }

  lemma LoadPartsLean(first: seq<Piece>, t: Tally)
    requires TextStartsInt3(first) && TextLeansIn(Render(DropLast(first[2..])), t, 1)
    ensures LoadText(first).Some? ==> TextLeans(Render(LoadText(first).value), t)
  {
    hide Render, Split, DropLast, TextLeansIn, Alike;
    RenderConcat();
    RenderOne();
    var s := Split(DropLast(first[2..]), 3);
    SplitIsAlike(DropLast(first[2..]), 3);
    AlikeLeans(Render(DropLast(first[2..])), Render(Join(s)), t, 1);
    Joined3(s);
    if |s| == 3 {
      ReadThreeLeans(Render(s[0]), Render(s[1]), Render(s[2]), t);
    } else if |s| == 2 {
      ReadTwoLeans(Render(s[0]), Render(s[1]), t);
    } else if |s| == 1 {
      ReadLeans(Render(s[0]), t);
      assert "read(uint2(" + Render(s[0]) + ".xy)" + ", " + "0)" == "read(uint2(" + Render(s[0]) + ".xy), 0)";
    }
  }
}
