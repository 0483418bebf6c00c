/** Balanced brackets in text. */
module Brackets {
  datatype Kind = Parens | Braces

  /** One more open bracket of this kind, or one less. */
  function Weight(kind: Kind, ch: char): int {
    match kind
    case Parens => if ch == '(' then 1 else if ch == ')' then -1 else 0
    case Braces => if ch == '{' then 1 else if ch == '}' then -1 else 0
  }

  /** The number of brackets opened less the number closed. */
  function Net(kind: Kind, text: string): int {
    if text == "" then 0 else Weight(kind, text[0]) + Net(kind, text[1..])
  }

  /** The least that this number ever is on the way, at most 0. */
  function Low(kind: Kind, text: string): (n: int)
    ensures n <= 0
  {
    if text == "" then 0
    else
      var n := Weight(kind, text[0]) + Low(kind, text[1..]);
      if n < 0 then n else 0
  }

  predicate Balanced(kind: Kind, text: string) {
    Net(kind, text) == 0 && Low(kind, text) == 0
  }

  function Least(a: int, b: int): int {
    if a < b then a else b
  }

  lemma {:induction false} Append(kind: Kind, a: string, b: string)
    ensures Net(kind, a + b) == Net(kind, a) + Net(kind, b)
    ensures Low(kind, a + b) == Least(Low(kind, a), Net(kind, a) + Low(kind, b))
    decreases a
  {
    if a == "" {
      assert a + b == b;
    } else {
      assert (a + b)[0] == a[0] && (a + b)[1..] == a[1..] + b;
      Append(kind, a[1..], b);
    }
  }

  predicate NeverBelow(kind: Kind, text: string) {
    forall i | 0 <= i <= |text| :: Net(kind, text[..i]) >= 0
  }

  /** Text is balanced exactly if as many brackets are closed as opened, and never more on the way. */
  lemma BalancedIff(kind: Kind, text: string)
    ensures Balanced(kind, text) <==> Net(kind, text) == 0 && NeverBelow(kind, text)
  {
    LowIsLeast(kind, text);
  }

  lemma {:induction false} LowIsLeast(kind: Kind, text: string)
    ensures forall i | 0 <= i <= |text| :: Low(kind, text) <= Net(kind, text[..i])
    ensures exists i :: 0 <= i <= |text| && Net(kind, text[..i]) == Low(kind, text)
    decreases text
  {
    if text == "" {
      assert Net(kind, text[..0]) == Low(kind, text);
    } else {
      LowIsLeast(kind, text[1..]);
      forall i | 0 < i <= |text|
        ensures Net(kind, text[..i]) == Weight(kind, text[0]) + Net(kind, text[1..][..i - 1])
      {
        assert text[..i][0] == text[0] && text[..i][1..] == text[1..][..i - 1];
      }
      assert Net(kind, text[..0]) == 0;
      var j :| 0 <= j <= |text| - 1 && Net(kind, text[1..][..j]) == Low(kind, text[1..]);
      assert Net(kind, text[..j + 1]) == Weight(kind, text[0]) + Low(kind, text[1..]);
    }
  }

  predicate IsBracketChar(ch: char) {
    ch == '(' || ch == ')' || ch == '{' || ch == '}'
  }

  predicate Free(text: string) {
    forall i | 0 <= i < |text| :: !IsBracketChar(text[i])
  }

  lemma FreeConcat(a: string, b: string)
    requires Free(a) && Free(b)
    ensures Free(a + b)
  {
  }

  lemma {:induction false} FreeIsFlat(kind: Kind, text: string)
    requires Free(text)
    ensures Net(kind, text) == 0 && Low(kind, text) == 0
    decreases text
  {
    if text != "" {
      FreeIsFlat(kind, text[1..]);
    }
  }

  lemma OneBracket(kind: Kind, ch: char)
    ensures Net(kind, [ch]) == Weight(kind, ch) && Low(kind, [ch]) == Least(Weight(kind, ch), 0)
  {
    assert [ch][1..] == "";
  }

  /** A word with an opening parenthesis, and a closing one with what follows. */
  lemma WordOpens(kind: Kind, word: string)
    requires Free(word)
    ensures Net(kind, word + "(") == Weight(kind, '(') && Low(kind, word + "(") == 0
    ensures Net(kind, ")" + word) == -Weight(kind, '(') && Low(kind, ")" + word) == -Weight(kind, '(')
  {
    FreeIsFlat(kind, word);
    OneBracket(kind, '(');
    OneBracket(kind, ')');
    Append(kind, word, "(");
    Append(kind, ")", word);
  }

  /** No text ends below its lowest point. */
  lemma {:induction false} LowIsBelow(kind: Kind, text: string)
    ensures Low(kind, text) <= Net(kind, text)
    decreases text
  {
    if text != "" {
      LowIsBelow(kind, text[1..]);
    }
  }

  // ---------- Text that is almost balanced ----------

  function Floor(kind: Kind, depth: nat): int {
    if kind.Parens? then 0 - depth else 0
  }

  /** The text has this net, and flat text is balanced inside of `depth` more parentheses. */
  predicate Leans(kind: Kind, text: string, net: int, flat: bool, depth: nat) {
    Net(kind, text) == net && (flat ==> net == 0 && Low(kind, text) >= Floor(kind, depth))
  }

  lemma LeansFree(kind: Kind, text: string)
    requires Free(text)
    ensures Leans(kind, text, 0, true, 0)
  {
    FreeIsFlat(kind, text);
  }

  lemma LeansBoth(kind: Kind, a: string, m: int, f: bool, b: string, n: int, g: bool)
    requires Leans(kind, a, m, f, 0) && Leans(kind, b, n, g, 0)
    ensures Leans(kind, a + b, m + n, f && g, 0)
  {
    Append(kind, a, b);
  }

  lemma LeansDeeper(kind: Kind, a: string, m: int, f: bool, depth: nat)
    requires Leans(kind, a, m, f, depth)
    ensures Leans(kind, a, m, f, depth + 1)
  {
  }

  lemma LeansAround(kind: Kind, a: string, m: int, f: bool, depth: nat)
    requires Leans(kind, a, m, f, depth + 1)
    ensures Leans(kind, "(" + a + ")", m, f, depth)
  {
    OneBracket(kind, '(');
    OneBracket(kind, ')');
    Append(kind, "(" + a, ")");
    Append(kind, "(", a);
  }

  lemma LeansBraces(kind: Kind, a: string, m: int, f: bool)
    requires Leans(kind, a, m, f, 0)
    ensures Leans(kind, "{" + a + "}", m, f, 0)
  {
    OneBracket(kind, '{');
    OneBracket(kind, '}');
    Append(kind, "{" + a, "}");
    Append(kind, "{", a);
  }

  /** Text without brackets may be put anywhere. */
  lemma LeansGap(kind: Kind, x: string, gap: string, y: string, m: int, f: bool, depth: nat)
    requires Free(gap) && Leans(kind, x + y, m, f, depth)
    ensures Leans(kind, x + gap + y, m, f, depth)
  {
    FreeIsFlat(kind, gap);
    LowIsBelow(kind, x);
    Append(kind, x, y);
    Append(kind, x + gap, y);
    Append(kind, x, gap);
  }

  lemma Turn(kind: Kind, x: string, word: string, y: string)
    requires Free(word)
    ensures var text := x + ")" + word + "(" + y;
            && Net(kind, text) == Net(kind, x) + Net(kind, y)
            && Low(kind, text)
               == Least(Low(kind, x), Least(Net(kind, x) - Weight(kind, '('), Net(kind, x) + Low(kind, y)))
  {
    WordOpens(kind, word);
    OneBracket(kind, ')');
    LowIsBelow(kind, x);
    var turn := ")" + (word + "(");
    assert x + ")" + word + "(" + y == x + turn + y;
    Append(kind, x + turn, y);
    Append(kind, x, turn);
    Append(kind, ")", word + "(");
  }

  /** A parenthesis may be closed and another one opened anywhere, inside of one more parenthesis. */
  lemma LeansTurn(kind: Kind, x: string, word: string, y: string, m: int, f: bool, depth: nat)
    requires Free(word) && Leans(kind, x + y, m, f, depth)
    ensures Leans(kind, x + ")" + word + "(" + y, m, f, depth + 1)
  {
    Turn(kind, x, word, y);
    LowIsBelow(kind, x);
    Append(kind, x, y);
  }

  lemma LeansTurns(kind: Kind, x: string, word: string, y: string, other: string, z: string, m: int,
                   f: bool, depth: nat)
    requires Free(word) && Free(other) && Leans(kind, x + y + z, m, f, depth)
    ensures Leans(kind, x + ")" + word + "(" + y + ")" + other + "(" + z, m, f, depth + 1)
  {
    hide Free;
    Turn(kind, x, word, y);
    Turn(kind, x + ")" + word + "(" + y, other, z);
    LowIsBelow(kind, x);
    LowIsBelow(kind, x + y);
    Append(kind, x + y, z);
    Append(kind, x, y);
  }
}
