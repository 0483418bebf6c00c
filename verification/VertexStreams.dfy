/**
  The two orderings of vertex streams of the Direct3D 11 renderer: the input slots given to the
  elements of a vertex shader's layout, and the list of buffers a vertex buffer binds for it.
 */
module VertexStreams {
  import opened Wrappers

  // ---------- Mappings ----------

  datatype ShaderVar =
    | Mapped(mapping: string)
    | Nested(vars: seq<ShaderVar>)  // a variable of a struct type
    | Plain

  /** The converted semantic names; POSITION becomes SV_Position. */
  datatype Semantic = Position | Normal | Color | Tangent | TexCoord | VertexId

  datatype Element = Element(semantic: Semantic, index: nat, slot: nat)

  predicate IsDigit(c: char) {
    '0' <= c <= '9'
  }

  /** The name part of a mapping: everything before the first digit. */
  function NameEnd(mapping: string): (n: nat)
    ensures n <= |mapping|
    ensures forall i | 0 <= i < n :: !IsDigit(mapping[i])
    ensures n < |mapping| ==> IsDigit(mapping[n])
  {
    if mapping == [] || IsDigit(mapping[0]) then 0 else 1 + NameEnd(mapping[1..])
  }

  /** `strtol` in base ten: the value of the leading digits. */
  function DigitsValue(s: string, acc: nat): nat {
    if s == [] || !IsDigit(s[0]) then acc else DigitsValue(s[1..], 10 * acc + (s[0] - '0') as nat)
  }

  function ConvertSemanticName(name: string): Option<Semantic> {
    if name == "POSITION" then Some(Position)
    else if name == "NORMAL" then Some(Normal)
    else if name == "COLOR" then Some(Color)
    else if name == "TANGENT" then Some(Tangent)
    else if name == "TEXCOORD" then Some(TexCoord)
    else if name == "VERTEXID" then Some(VertexId)
    else None
  }

  /** `GetSemanticInfo`; None is the thrown "Unknown Semantic Name". */
  function GetSemanticInfo(mapping: string): Option<Element> {
    var n := NameEnd(mapping);
    match ConvertSemanticName(mapping[..n])
    case None => None
    case Some(semantic) => Some(Element(semantic, DigitsValue(mapping[n..], 0), 0))
  }

  /** The name under which a shader asks for each kind of element. */
  function NameOf(s: Semantic): string {
    match s
    case Position => "POSITION"
    case Normal => "NORMAL"
    case Color => "COLOR"
    case Tangent => "TANGENT"
    case TexCoord => "TEXCOORD"
    case VertexId => "VERTEXID"
  }

  predicate AllDigits(s: string) {
    forall c | c in s :: IsDigit(c)
  }

  function Decimal(n: nat): (s: string)
    ensures s != "" && AllDigits(s)
  {
    (if n < 10 then "" else Decimal(n / 10)) + ['0' + (n % 10) as char]
  }

  /** A name with a number behind it is read as that element with that index, a bare name as its first one. */
  lemma MappingsAreRead(s: Semantic, index: nat)
    ensures GetSemanticInfo(NameOf(s) + Decimal(index)) == Some(Element(s, index, 0))
    ensures GetSemanticInfo(NameOf(s)) == Some(Element(s, 0, 0))
  {
    hide NameOf, Decimal, DigitsValue, ConvertSemanticName, NameEnd;
    var name, digits := NameOf(s), Decimal(index);
    NamesAreRead(s);
    NameEndsAtDigit(name, digits);
    NameEndsAtDigit(name, "");
    assert name + "" == name;
    assert (name + digits)[..|name|] == name && (name + digits)[|name|..] == digits;
    assert name[..|name|] == name && name[|name|..] == "";
    DecimalValue(index);
    NoDigits();
  }

  lemma NamesAreRead(s: Semantic)
    ensures ConvertSemanticName(NameOf(s)) == Some(s) && forall c | c in NameOf(s) :: !IsDigit(c)
  {
  }

  lemma {:induction false} NameEndsAtDigit(name: string, digits: string)
    requires (forall c | c in name :: !IsDigit(c)) && AllDigits(digits)
    ensures NameEnd(name + digits) == |name|
  {
    if name != "" {
      NameEndsAtDigit(name[1..], digits);
      assert (name + digits)[1..] == name[1..] + digits && (name + digits)[0] == name[0];
    } else {
      assert name + digits == digits;
    }
  }

  lemma NoDigits()
    ensures DigitsValue("", 0) == 0
  {
  }

  lemma {:induction false} DecimalValue(n: nat)
    ensures DigitsValue(Decimal(n), 0) == n
  {
    var c := '0' + (n % 10) as char;
    if n >= 10 {
      DecimalValue(n / 10);
      OneMoreDigit(Decimal(n / 10), c, 0);
    } else {
      assert Decimal(n) == [c];
      OneMoreDigit("", c, 0);
    }
  }

  lemma {:induction false} OneMoreDigit(s: string, c: char, acc: nat)
    requires AllDigits(s) && IsDigit(c)
    ensures DigitsValue(s + [c], acc) == 10 * DigitsValue(s, acc) + (c - '0') as nat
  {
    if s == "" {
      assert [c][1..] == "" && s + [c] == [c];
    } else {
      assert s[0] in s;
      assert (s + [c])[0] == s[0] && (s + [c])[1..] == s[1..] + [c];
      OneMoreDigit(s[1..], c, 10 * acc + (s[0] - '0') as nat);
    }
  }

  /** The elements of a parameter list in order, before slots are given. */
  function Elements(vars: seq<ShaderVar>): Option<seq<Element>> {
    if vars == [] then Some([])
    else
      var init := Elements(vars[..|vars| - 1]);
      var last := ElementsOf(vars[|vars| - 1]);
      if init.None? || last.None? then None else Some(init.value + last.value)
  }

  function ElementsOf(v: ShaderVar): Option<seq<Element>> {
    match v
    case Mapped(mapping) =>
      if mapping == "VERTEXID" then Some([])
      else
        (match GetSemanticInfo(mapping)
         case None => None
         case Some(e) => Some([e]))
    case Nested(vars) => Elements(vars)
    case Plain => Some([])
  }

  // ---------- Slots ----------

  predicate Matches(e: Element, semantic: Semantic, index: nat) {
    e.semantic == semantic && e.index == index
  }

  /** The position of the first element with this semantic and index. */
  function First(l: seq<Element>, semantic: Semantic, index: nat): (p: Option<nat>)
    ensures p.Some? ==> p.value < |l| && Matches(l[p.value], semantic, index)
    ensures p.Some? ==> forall i | 0 <= i < p.value :: !Matches(l[i], semantic, index)
    ensures p.None? ==> forall i | 0 <= i < |l| :: !Matches(l[i], semantic, index)
  {
    if l == [] then None
    else if Matches(l[0], semantic, index) then Some(0)
    else
      match First(l[1..], semantic, index)
      case None => None
      case Some(p) => Some(p + 1)
  }

  const BASE: seq<Semantic> := [Position, Normal, Color, Tangent]

  /** How many of the first `n` base semantics the layout has. */
  function BaseCount(l: seq<Element>, n: nat): nat
    requires n <= |BASE|
  {
    if n == 0 then 0 else BaseCount(l, n - 1) + if First(l, BASE[n - 1], 0).Some? then 1 else 0
  }

  ghost function IndicesFrom(l: seq<Element>, k: nat): set<nat> {
    set i | 0 <= i < |l| && l[i].index >= k :: l[i].index
  }

  lemma IndexUsed(l: seq<Element>, k: nat)
    requires First(l, TexCoord, k).Some?
    ensures IndicesFrom(l, k + 1) < IndicesFrom(l, k)
  {
    assert l[First(l, TexCoord, k).value].index == k;
    assert k in IndicesFrom(l, k) && k !in IndicesFrom(l, k + 1);
  }

  /** The end of the unbroken run of TEXCOORD indices from `k`; it ends because each index uses up an element. */
  function TexRun(l: seq<Element>, k: nat): (n: nat)
    ensures k <= n
    ensures forall j | k <= j < n :: First(l, TexCoord, j).Some?
    ensures First(l, TexCoord, n).None?
    decreases IndicesFrom(l, k)
  {
    if First(l, TexCoord, k).None? then k else IndexUsed(l, k); TexRun(l, k + 1)
  }

  function Rank(s: Semantic): nat {
    match s
    case Position => 0
    case Normal => 1
    case Color => 2
    case Tangent => 3
    case _ => 4
  }

  /** The slot the ordering pass gives to element `i`, or None if the pass never reaches it. */
  function Assigned(l: seq<Element>, i: nat): Option<nat>
    requires i < |l|
  {
    var e := l[i];
    if First(l, e.semantic, e.index) != Some(i) then None
    else if Rank(e.semantic) < 4 && e.index == 0 then Some(BaseCount(l, Rank(e.semantic)))
    else if e.semantic == TexCoord && e.index < TexRun(l, 0) then Some(BaseCount(l, 4) + e.index)
    else None
  }

  /** The layout after the pass has done the first `b` base semantics and the TEXCOORD indices below `k`. */
  function Partial(l: seq<Element>, b: nat, k: nat): seq<Element> {
    seq(|l|, i requires 0 <= i < |l| =>
      var a := Assigned(l, i);
      if a.Some? && (if l[i].semantic == TexCoord then l[i].index < k else Rank(l[i].semantic) < b)
      then l[i].(slot := a.value) else l[i])
  }

  /** The layout after one complete pass. */
  function Slotted(l: seq<Element>): seq<Element> {
    Partial(l, 4, TexRun(l, 0))
  }

  predicate SameKeys(l: seq<Element>, m: seq<Element>) {
    |l| == |m| && forall i | 0 <= i < |l| :: l[i].(slot := 0) == m[i].(slot := 0)
  }

  lemma {:induction false} FirstByKeys(l: seq<Element>, m: seq<Element>, semantic: Semantic, index: nat)
    requires SameKeys(l, m)
    ensures First(l, semantic, index) == First(m, semantic, index)
  {
    if l != [] {
      assert l[0].(slot := 0) == m[0].(slot := 0);
      FirstByKeys(l[1..], m[1..], semantic, index);
    }
  }

  /** The ordering depends only on semantics and indices. */
  lemma {:induction false} OrderByKeys(l: seq<Element>, m: seq<Element>)
    requires SameKeys(l, m)
    ensures TexRun(l, 0) == TexRun(m, 0)
    ensures forall n | 0 <= n <= 4 :: BaseCount(l, n) == BaseCount(m, n)
    ensures forall i | 0 <= i < |l| :: Assigned(l, i) == Assigned(m, i)
  {
    forall s, k: nat
      ensures First(l, s, k) == First(m, s, k)
    {
      FirstByKeys(l, m, s, k);
    }
    var n, n' := TexRun(l, 0), TexRun(m, 0);
    assert First(m, TexCoord, n).None? && First(l, TexCoord, n').None?;
    BaseByKeys(l, m, 4);
    forall i | 0 <= i < |l|
      ensures Assigned(l, i) == Assigned(m, i)
    {
      assert l[i].(slot := 0) == m[i].(slot := 0);
    }
  }

  lemma {:induction false} BaseByKeys(l: seq<Element>, m: seq<Element>, n: nat)
    requires n <= 4
    requires forall s, k: nat :: First(l, s, k) == First(m, s, k)
    ensures forall j | 0 <= j <= n :: BaseCount(l, j) == BaseCount(m, j)
  {
    if n > 0 {
      BaseByKeys(l, m, n - 1);
    }
  }

  lemma NothingAssigned(l: seq<Element>)
    ensures Partial(l, 0, 0) == l && BaseCount(l, 0) == 0
  {
  }

  lemma SlottedIsPartial(l: seq<Element>)
    ensures Slotted(l) == Partial(l, 4, TexRun(l, 0))
  {
  }

  class InputLayout {
    var elements: seq<Element>

    constructor ()
      ensures elements == []
    {
      elements := [];
    }

    /** Gives `slot` to the first matching element. */
    method SetSlot(semantic: Semantic, index: nat, slot: nat) returns (found: bool, next: nat)
      modifies this
      ensures found <==> First(old(elements), semantic, index).Some?
      ensures !found ==> elements == old(elements) && next == slot
      ensures found ==> next == slot + 1
      ensures found ==> var p := First(old(elements), semantic, index).value;
                        elements == old(elements)[p := old(elements)[p].(slot := slot)]
    {
      for i := 0 to |elements|
        invariant elements == old(elements)
        invariant forall j | 0 <= j < i :: !Matches(elements[j], semantic, index)
      {
        if elements[i].index == index && elements[i].semantic == semantic {
          elements := elements[i := elements[i].(slot := slot)];
          return true, slot + 1;
        }
      }
      return false, slot;
    }

    /** The end of `BuildInputLayoutFromVars`: points, normals, colors, tangents, then texture coordinates. */
    method AssignSlots()
      modifies this
      ensures elements == Slotted(old(elements))
    {
      hide First, Partial, TexRun, BaseCount, Slotted;
      ghost var l := elements;
      NothingAssigned(l);
      var slot, found := 0, false;
      BaseStep(l, 0);
      found, slot := SetSlot(Position, 0, slot);
      BaseStep(l, 1);
      found, slot := SetSlot(Normal, 0, slot);
      BaseStep(l, 2);
      found, slot := SetSlot(Color, 0, slot);
      BaseStep(l, 3);
      found, slot := SetSlot(Tangent, 0, slot);
      var index := 0;
      found := true;
      while found
        invariant index <= TexRun(l, 0) + 1
        invariant found ==> index <= TexRun(l, 0) && slot == BaseCount(l, 4) + index && elements == Partial(l, 4, index)
        invariant !found ==> elements == Slotted(l)
        decreases TexRun(l, 0) + 1 - index, found
      {
        TexStep(l, index);
        SlottedIsPartial(l);
        found, slot := SetSlot(TexCoord, index, slot);
        index := index + 1;
      }
    }

    /** One step of the loop over the variables; a nested struct runs a whole pass of its own. */
    method AddVar(v: ShaderVar) returns (ok: bool)
      modifies this
      ensures ok <==> ElementsOf(v).Some?
      ensures ok ==> Refreshes(elements, old(elements) + ElementsOf(v).value)
      decreases v
    {
      match v {
        case Mapped(mapping) =>
          if mapping != "VERTEXID" {
            var e := GetSemanticInfo(mapping);
            if e.None? {
              return false;
            }
            elements := elements + [e.value];
          }
          return true;
        case Nested(inner) =>
          ok := BuildFromVars(inner);
          if ok {
            SlottedRefreshes(old(elements) + Elements(inner).value);
          }
        case Plain =>
          return true;
      }
    }

    /** Appends the elements of the variables, nested structs included, and gives every element its slot. */
    method BuildFromVars(vars: seq<ShaderVar>) returns (ok: bool)
      modifies this
      ensures ok <==> Elements(vars).Some?
      ensures ok ==> elements == Slotted(old(elements) + Elements(vars).value)
      decreases vars
    {
      ghost var start := elements;
      ghost var added := [];
      assert start + added == start;
      for i := 0 to |vars|
        invariant Elements(vars[..i]) == Some(added)
        invariant Refreshes(elements, start + added)
      {
        assert vars[..i + 1][..i] == vars[..i];
        ghost var before := elements;
        var done := AddVar(vars[i]);
        if !done {
          ElementsPrefix(vars, i + 1);
          return false;
        }
        ghost var more := ElementsOf(vars[i]).value;
        RefreshesAppend(before, start + added, more);
        RefreshesTransitive(elements, before + more, start + added + more);
        assert start + added + more == start + (added + more);
        added := added + more;
      }
      assert vars[..|vars|] == vars;
      SlottedOfRefreshed(elements, start + added);
      AssignSlots();
      return true;
    }
  }

  lemma {:induction false} ElementsPrefix(vars: seq<ShaderVar>, n: nat)
    requires n <= |vars| && Elements(vars[..n]).None?
    ensures Elements(vars).None?
    decreases |vars|
  {
    if n < |vars| {
      assert vars[..|vars| - 1][..n] == vars[..n];
      ElementsPrefix(vars[..|vars| - 1], n);
    } else {
      assert vars[..n] == vars;
    }
  }

  /** `m` is `l` with some of the slots that a pass over `l` will give anyway already overwritten. */
  ghost predicate Refreshes(m: seq<Element>, l: seq<Element>) {
    SameKeys(m, l) && forall i | 0 <= i < |l| :: m[i] == l[i] || Assigned(l, i).Some?
  }

  lemma SlottedRefreshes(l: seq<Element>)
    ensures Refreshes(Slotted(l), l)
  {
  }

  lemma RefreshesTransitive(k: seq<Element>, m: seq<Element>, l: seq<Element>)
    requires Refreshes(k, m) && Refreshes(m, l)
    ensures Refreshes(k, l)
  {
    OrderByKeys(m, l);
  }

  lemma RefreshesAppend(m: seq<Element>, l: seq<Element>, more: seq<Element>)
    requires Refreshes(m, l)
    ensures Refreshes(m + more, l + more)
  {
    forall i | 0 <= i < |l| && Assigned(l, i).Some?
      ensures Assigned(l + more, i).Some?
    {
      AssignedAppend(l, more, i);
    }
  }

  lemma AssignedAppend(l: seq<Element>, more: seq<Element>, i: nat)
    requires i < |l| && Assigned(l, i).Some?
    ensures Assigned(l + more, i).Some?
  {
    var e, all := l[i], l + more;
    assert forall j | 0 <= j < |l| :: all[j] == l[j];
    assert First(all, e.semantic, e.index) == Some(i);
    forall k | 0 <= k < TexRun(l, 0)
      ensures First(all, TexCoord, k).Some?
    {
      assert Matches(all[First(l, TexCoord, k).value], TexCoord, k);
    }
  }

  /** What earlier passes did to the slots does not survive the last pass. */
  lemma SlottedOfRefreshed(m: seq<Element>, l: seq<Element>)
    requires Refreshes(m, l)
    ensures Slotted(m) == Slotted(l)
  {
    OrderByKeys(m, l);
    forall i | 0 <= i < |l|
      ensures Slotted(m)[i] == Slotted(l)[i]
    {
      assert l[i].(slot := 0) == m[i].(slot := 0);
    }
  }

  lemma PartialKeys(l: seq<Element>, b: nat, k: nat, semantic: Semantic, index: nat)
    ensures SameKeys(l, Partial(l, b, k))
    ensures First(Partial(l, b, k), semantic, index) == First(l, semantic, index)
  {
    FirstByKeys(l, Partial(l, b, k), semantic, index);
  }

  lemma BaseStep(l: seq<Element>, b: nat)
    requires b < 4
    ensures var m, p := Partial(l, b, 0), First(l, BASE[b], 0);
            && BaseCount(l, b + 1) == BaseCount(l, b) + (if p.Some? then 1 else 0)
            && First(m, BASE[b], 0) == p
            && Partial(l, b + 1, 0) ==
               if p.Some? then m[p.value := m[p.value].(slot := BaseCount(l, b))] else m
  {
    PartialKeys(l, b, 0, BASE[b], 0);
    assert Rank(BASE[b]) == b;
    assert forall s: Semantic :: Rank(s) == b ==> s == BASE[b];
  }

  lemma TexStep(l: seq<Element>, k: nat)
    requires k <= TexRun(l, 0)
    ensures var m, p := Partial(l, 4, k), First(l, TexCoord, k);
            && First(m, TexCoord, k) == p
            && (p.Some? <==> k < TexRun(l, 0))
            && (p.Some? ==> Partial(l, 4, k + 1) == m[p.value := m[p.value].(slot := BaseCount(l, 4) + k)])
  {
    PartialKeys(l, 4, k, TexCoord, k);
    if k < TexRun(l, 0) {
      TexPartial(l, k);
    }
  }

  /** One more texture coordinate has its slot. */
  lemma TexPartial(l: seq<Element>, k: nat)
    requires k < TexRun(l, 0)
    ensures var m, p := Partial(l, 4, k), First(l, TexCoord, k).value;
            Partial(l, 4, k + 1) == m[p := m[p].(slot := BaseCount(l, 4) + k)]
  {
    hide BaseCount;
    var m, p := Partial(l, 4, k), First(l, TexCoord, k).value;
    forall i | 0 <= i < |l|
      ensures Partial(l, 4, k + 1)[i] == if i == p then m[p].(slot := BaseCount(l, 4) + k) else m[i]
    {
      if l[i].semantic == TexCoord && l[i].index == k && i != p {
        assert First(l, TexCoord, k) != Some(i);
      }
    }
  }

  // ---------- Buffers ----------

  type BufferId = nat

  /** `sizeof(vec3)`: the vector shares its storage with four floats. */
  const VEC3_SIZE := 16

  /** `sizeof(uint32_t)` */
  const COLOR_SIZE := 4

  /** A bound vertex stream. */
  datatype Stream = Stream(buffer: BufferId, stride: nat)

  predicate Has(l: seq<Element>, s: Semantic) {
    exists i | 0 <= i < |l| :: l[i].semantic == s
  }

  function CountTex(l: seq<Element>): nat {
    if l == [] then 0 else CountTex(l[..|l| - 1]) + if l[|l| - 1].semantic == TexCoord then 1 else 0
  }

  lemma HasOneMore(l: seq<Element>, i: nat)
    requires i < |l|
    ensures forall s :: Has(l[..i + 1], s) <==> Has(l[..i], s) || l[i].semantic == s
  {
    var seen := l[..i + 1];
    assert seen == l[..i] + [l[i]];
    assert seen[i].semantic == l[i].semantic;
    forall s | Has(l[..i], s) ensures Has(seen, s) {
      var k :| 0 <= k < i && l[..i][k].semantic == s;
      assert seen[k].semantic == s;
    }
  }

  /** The streams that a shader's layout needs besides the points. */
  datatype ShaderInfo = ShaderInfo(hasNormals: bool, hasColors: bool, hasTangents: bool, nTexUnits: nat) {
    function NumBuffersExpected(): nat {
      nTexUnits + 1 + One(hasNormals) + One(hasColors) + One(hasTangents)
    }
  }

  function One(b: bool): nat {
    if b then 1 else 0
  }

  class VertexShader {
    var hasNormals: bool
    var hasColors: bool
    var hasTangents: bool
    var nTexUnits: nat

    function Info(): ShaderInfo
      reads this
    {
      ShaderInfo(hasNormals, hasColors, hasTangents, nTexUnits)
    }

    constructor (layout: seq<Element>)
      ensures Expects(layout)
    {
      hasNormals, hasColors, hasTangents, nTexUnits := false, false, false, 0;
      new;
      GetBuffersExpected(layout);
    }

    predicate Expects(layout: seq<Element>)
      reads this
    {
      && hasNormals == Has(layout, Normal) && hasColors == Has(layout, Color)
      && hasTangents == Has(layout, Tangent) && nTexUnits == CountTex(layout)
    }

    method GetBuffersExpected(inputs: seq<Element>)
      requires !hasNormals && !hasColors && !hasTangents && nTexUnits == 0
      modifies this
      ensures Expects(inputs)
    {
      for i := 0 to |inputs|
        invariant Expects(inputs[..i])
      {
        var input := inputs[i];
        ghost var seen := inputs[..i + 1];
        assert seen[..i] == inputs[..i] && seen[i] == input;
        HasOneMore(inputs, i);
        if input.semantic == Normal {
          hasNormals := true;
        } else if input.semantic == Tangent {
          hasTangents := true;
        } else if input.semantic == Color {
          hasColors := true;
        } else if input.semantic == TexCoord {
          nTexUnits := nTexUnits + 1;
        }
      }
      assert inputs[..|inputs|] == inputs;
    }

    function NumBuffersExpected(): nat
      reads this
    {
      Info().NumBuffersExpected()
    }
  }

  datatype VertexData = VertexData(
    vertexBuffer: Option<BufferId>,
    normalBuffer: Option<BufferId>,
    colorBuffer: Option<BufferId>,
    tangentBuffer: Option<BufferId>,
    uvBuffers: seq<Stream>)

  function Pushed(buffer: Option<BufferId>, stride: nat): seq<Stream> {
    if buffer.Some? then [Stream(buffer.value, stride)] else []
  }

  function When(needed: bool, streams: seq<Stream>): seq<Stream> {
    if needed then streams else []
  }

  function TextureStreams(vb: VertexData, texUnits: nat): seq<Stream> {
    if texUnits <= |vb.uvBuffers| then vb.uvBuffers[..texUnits] else []
  }

  /** The streams a vertex buffer binds for a shader; a missing one is skipped with an error message. */
  function StreamsFor(vb: VertexData, normals: bool, colors: bool, tangents: bool, texUnits: nat): seq<Stream> {
    Pushed(vb.vertexBuffer, VEC3_SIZE)
    + When(normals, Pushed(vb.normalBuffer, VEC3_SIZE))
    + When(colors, Pushed(vb.colorBuffer, COLOR_SIZE))
    + When(tangents, Pushed(vb.tangentBuffer, VEC3_SIZE))
    + TextureStreams(vb, texUnits)
  }

  class VertexBuffer {
    var data: VertexData

    constructor (data: VertexData)
      ensures this.data == data
    {
      this.data := data;
    }

    static method PushBuffer(n: nat, buffers: array<Stream>, buffer: Option<BufferId>, elementSize: nat)
      returns (numBuffers: nat)
      requires n < buffers.Length
      modifies buffers
      ensures numBuffers <= buffers.Length && buffers[..numBuffers] == old(buffers[..n]) + Pushed(buffer, elementSize)
      ensures numBuffers <= n + 1
    {
      numBuffers := n;
      if buffer.Some? {
        buffers[n] := Stream(buffer.value, elementSize);
        numBuffers := n + 1;
      }
    }

    method MakeBufferList(shader: VertexShader, buffers: array<Stream>) returns (numBuffers: nat)
      requires shader.NumBuffersExpected() <= buffers.Length
      modifies buffers
      ensures numBuffers <= buffers.Length
      ensures buffers[..numBuffers] ==
              StreamsFor(data, shader.hasNormals, shader.hasColors, shader.hasTangents, shader.nTexUnits)
    {
      numBuffers := PushBuffer(0, buffers, data.vertexBuffer, VEC3_SIZE);
      ghost var points := Pushed(data.vertexBuffer, VEC3_SIZE);
      assert buffers[..numBuffers] == points;
      if shader.hasNormals {
        numBuffers := PushBuffer(numBuffers, buffers, data.normalBuffer, VEC3_SIZE);
      }
      ghost var normals := points + When(shader.hasNormals, Pushed(data.normalBuffer, VEC3_SIZE));
      assert buffers[..numBuffers] == normals;
      if shader.hasColors {
        numBuffers := PushBuffer(numBuffers, buffers, data.colorBuffer, COLOR_SIZE);
      }
      ghost var colors := normals + When(shader.hasColors, Pushed(data.colorBuffer, COLOR_SIZE));
      assert buffers[..numBuffers] == colors;
      if shader.hasTangents {
        numBuffers := PushBuffer(numBuffers, buffers, data.tangentBuffer, VEC3_SIZE);
      }
      ghost var tangents := colors + When(shader.hasTangents, Pushed(data.tangentBuffer, VEC3_SIZE));
      assert buffers[..numBuffers] == tangents;
      if shader.nTexUnits <= |data.uvBuffers| {
        numBuffers := PushTextures(numBuffers, buffers, shader.nTexUnits);
      }
      assert buffers[..numBuffers] == tangents + TextureStreams(data, shader.nTexUnits);
    }

    /** The loop over the texture coordinate buffers. */
    method PushTextures(n: nat, buffers: array<Stream>, texUnits: nat) returns (numBuffers: nat)
      requires texUnits <= |data.uvBuffers| && n + texUnits <= buffers.Length
      modifies buffers
      ensures numBuffers == n + texUnits && buffers[..numBuffers] == old(buffers[..n]) + data.uvBuffers[..texUnits]
    {
      numBuffers := n;
      for i := 0 to texUnits
        invariant numBuffers == n + i
        invariant buffers[..numBuffers] == old(buffers[..n]) + data.uvBuffers[..i]
      {
        buffers[numBuffers] := data.uvBuffers[i];
        numBuffers := numBuffers + 1;
      }
    }
  }

  // ---------- Agreement ----------

  /** A layout with a position, no repeated semantic, index 0 but for texture coordinates, numbered without gaps. */
  ghost predicate WellFormed(l: seq<Element>) {
    && Has(l, Position)
    && (forall i | 0 <= i < |l| :: First(l, l[i].semantic, l[i].index) == Some(i))
    && (forall i | 0 <= i < |l| && l[i].semantic != TexCoord :: l[i].index == 0 && l[i].semantic != VertexId)
    && (forall i | 0 <= i < |l| && l[i].semantic == TexCoord :: l[i].index < TexRun(l, 0))
  }

  /** Every element has a buffer of its own kind. */
  ghost predicate Provides(vb: VertexData, l: seq<Element>) {
    && vb.vertexBuffer.Some?
    && (Has(l, Normal) ==> vb.normalBuffer.Some?)
    && (Has(l, Color) ==> vb.colorBuffer.Some?)
    && (Has(l, Tangent) ==> vb.tangentBuffer.Some?)
    && CountTex(l) <= |vb.uvBuffers|
  }

  /** The stream is the one the element must read. */
  ghost predicate Reads(e: Element, vb: VertexData, s: Stream) {
    match e.semantic
    case Position => vb.vertexBuffer == Some(s.buffer) && s.stride == VEC3_SIZE
    case Normal => vb.normalBuffer == Some(s.buffer) && s.stride == VEC3_SIZE
    case Color => vb.colorBuffer == Some(s.buffer) && s.stride == COLOR_SIZE
    case Tangent => vb.tangentBuffer == Some(s.buffer) && s.stride == VEC3_SIZE
    case TexCoord => e.index < |vb.uvBuffers| && s == vb.uvBuffers[e.index]
    case VertexId => false
  }

  ghost function TexIndices(l: seq<Element>): set<nat> {
    set i | 0 <= i < |l| && l[i].semantic == TexCoord :: l[i].index
  }

  ghost predicate NoRepeats(l: seq<Element>) {
    forall i, j | 0 <= i < j < |l| :: !Matches(l[j], l[i].semantic, l[i].index)
  }

  lemma {:induction false} CountIsCardinality(l: seq<Element>)
    requires NoRepeats(l)
    ensures CountTex(l) == |TexIndices(l)|
  {
    if l != [] {
      var init, e := l[..|l| - 1], l[|l| - 1];
      hide TexIndices, NoRepeats;
      LastTexIndex(l);
      LastIsNew(l);
      CountIsCardinality(init);
    }
  }

  lemma LastTexIndex(l: seq<Element>)
    requires l != []
    ensures TexIndices(l)
         == TexIndices(l[..|l| - 1]) + if l[|l| - 1].semantic == TexCoord then {l[|l| - 1].index} else {}
  {
    var init, e := l[..|l| - 1], l[|l| - 1];
    assert l == init + [e];
    forall k | k in TexIndices(init) ensures k in TexIndices(l) {
      var i :| 0 <= i < |init| && init[i].semantic == TexCoord && init[i].index == k;
      assert l[i] == init[i];
    }
    assert e.semantic == TexCoord ==> e.index in TexIndices(l);
  }

  lemma LastIsNew(l: seq<Element>)
    requires NoRepeats(l) && l != []
    ensures l[|l| - 1].semantic == TexCoord ==> l[|l| - 1].index !in TexIndices(l[..|l| - 1])
    ensures NoRepeats(l[..|l| - 1])
  {
    assert forall i | 0 <= i < |l| - 1 :: !Matches(l[|l| - 1], l[i].semantic, l[i].index);
  }

  ghost function UpTo(n: nat): (s: set<nat>)
    ensures forall j: nat :: j in s <==> j < n
    ensures |s| == n
  {
    if n == 0 then {} else UpTo(n - 1) + {n - 1}
  }

  /** Numbered without gaps or repeats, there are as many texture coordinates as the run is long. */
  lemma TexRunIsCount(l: seq<Element>)
    requires WellFormed(l)
    ensures TexRun(l, 0) == CountTex(l)
  {
    var n := TexRun(l, 0);
    CountIsCardinality(l);
    assert TexIndices(l) == UpTo(n) by {
      forall k: nat | k < n
        ensures k in TexIndices(l)
      {
        var p := First(l, TexCoord, k).value;
        assert l[p].semantic == TexCoord && l[p].index == k;
      }
    }
  }

  lemma BasePresence(l: seq<Element>, s: Semantic)
    requires WellFormed(l) && Rank(s) < 4
    ensures First(l, s, 0).Some? <==> Has(l, s)
  {
  }

  /** Where each stream is found in the list of buffers. */
  lemma StreamPositions(vb: VertexData, normals: bool, colors: bool, tangents: bool, texUnits: nat)
    requires vb.vertexBuffer.Some? && texUnits <= |vb.uvBuffers|
    requires (normals ==> vb.normalBuffer.Some?) && (colors ==> vb.colorBuffer.Some?)
    requires tangents ==> vb.tangentBuffer.Some?
    ensures var streams := StreamsFor(vb, normals, colors, tangents, texUnits);
            var c, t := 1 + One(normals), 1 + One(normals) + One(colors);
            var u := t + One(tangents);
            && |streams| == u + texUnits
            && streams[0] == Stream(vb.vertexBuffer.value, VEC3_SIZE)
            && (normals ==> streams[1] == Stream(vb.normalBuffer.value, VEC3_SIZE))
            && (colors ==> streams[c] == Stream(vb.colorBuffer.value, COLOR_SIZE))
            && (tangents ==> streams[t] == Stream(vb.tangentBuffer.value, VEC3_SIZE))
            && forall k | 0 <= k < texUnits :: streams[u + k] == vb.uvBuffers[k]
  {
    Joined(Pushed(vb.vertexBuffer, VEC3_SIZE), When(normals, Pushed(vb.normalBuffer, VEC3_SIZE)),
           When(colors, Pushed(vb.colorBuffer, COLOR_SIZE)),
           When(tangents, Pushed(vb.tangentBuffer, VEC3_SIZE)), TextureStreams(vb, texUnits));
  }

  /**
    For a well-formed layout the two orderings agree: the list has the expected length, and the
    stream at each element's slot is the one that element must read.
   */
  lemma StreamsAgree(vb: VertexData, raw: seq<Element>, i: nat)
    requires WellFormed(raw) && Provides(vb, raw) && i < |raw|
    ensures var l := Slotted(raw);
            var streams := StreamsFor(vb, Has(l, Normal), Has(l, Color), Has(l, Tangent), CountTex(l));
            && |streams| == 1 + One(Has(l, Normal)) + One(Has(l, Color)) + One(Has(l, Tangent)) + CountTex(l)
            && l[i].slot < |streams| && Reads(raw[i], vb, streams[l[i].slot])
  {
    SlottedKeeps(raw);
    TexRunIsCount(raw);
    BaseCounts(raw);
    SlotValue(raw, i);
    assert Has(raw, raw[i].semantic);
    ReadsItsStream(raw[i], Slotted(raw)[i].slot, vb, Has(raw, Normal), Has(raw, Color), Has(raw, Tangent),
                   CountTex(raw));
  }

  lemma ReadsItsStream(e: Element, slot: nat, vb: VertexData, normals: bool, colors: bool, tangents: bool,
                       texUnits: nat)
    requires vb.vertexBuffer.Some? && texUnits <= |vb.uvBuffers|
    requires (normals ==> vb.normalBuffer.Some?) && (colors ==> vb.colorBuffer.Some?)
    requires tangents ==> vb.tangentBuffer.Some?
    requires match e.semantic
             case Position => slot == 0
             case Normal => normals && slot == 1
             case Color => colors && slot == 1 + One(normals)
             case Tangent => tangents && slot == 1 + One(normals) + One(colors)
             case TexCoord => e.index < texUnits && slot == 1 + One(normals) + One(colors) + One(tangents) + e.index
             case VertexId => false
    ensures var streams := StreamsFor(vb, normals, colors, tangents, texUnits);
            && |streams| == 1 + One(normals) + One(colors) + One(tangents) + texUnits
            && slot < |streams| && Reads(e, vb, streams[slot])
  {
    StreamPositions(vb, normals, colors, tangents, texUnits);
  }

  lemma SlotValue(l: seq<Element>, i: nat)
    requires WellFormed(l) && i < |l|
    ensures l[i].semantic != TexCoord ==> Rank(l[i].semantic) < 4
    ensures Slotted(l)[i].slot == OwnSlot(l, l[i])
  {
    AllAssigned(l, i);
    SlottedAt(l, i);
  }

  /** The slot of an element of a well-formed layout. */
  function OwnSlot(l: seq<Element>, e: Element): nat {
    if e.semantic == TexCoord then BaseCount(l, 4) + e.index
    else if Rank(e.semantic) < 4 then BaseCount(l, Rank(e.semantic)) else 0
  }

  lemma AllAssigned(l: seq<Element>, i: nat)
    requires WellFormed(l) && i < |l|
    ensures Assigned(l, i) == Some(OwnSlot(l, l[i])) && (l[i].semantic != TexCoord ==> Rank(l[i].semantic) < 4)
    ensures l[i].semantic == TexCoord ==> l[i].index < TexRun(l, 0)
  {
    hide BaseCount, TexRun, First, WellFormed;
    WellFormedAt(l, i);
  }

  lemma WellFormedAt(l: seq<Element>, i: nat)
    requires WellFormed(l) && i < |l|
    ensures First(l, l[i].semantic, l[i].index) == Some(i)
    ensures if l[i].semantic == TexCoord then l[i].index < TexRun(l, 0)
            else l[i].index == 0 && l[i].semantic != VertexId
  {
    hide First, TexRun;
  }

  lemma SlottedAt(l: seq<Element>, i: nat)
    requires i < |l| && Assigned(l, i).Some?
    requires if l[i].semantic == TexCoord then l[i].index < TexRun(l, 0) else Rank(l[i].semantic) < 4
    ensures Slotted(l)[i].slot == Assigned(l, i).value
  {
    hide Assigned, TexRun;
  }

  lemma Joined(p: seq<Stream>, n: seq<Stream>, c: seq<Stream>, t: seq<Stream>, u: seq<Stream>)
    ensures var all := p + n + c + t + u;
            && |all| == |p| + |n| + |c| + |t| + |u|
            && (forall k | 0 <= k < |p| :: all[k] == p[k])
            && (forall k | 0 <= k < |n| :: all[|p| + k] == n[k])
            && (forall k | 0 <= k < |c| :: all[|p| + |n| + k] == c[k])
            && (forall k | 0 <= k < |t| :: all[|p| + |n| + |c| + k] == t[k])
            && (forall k | 0 <= k < |u| :: all[|p| + |n| + |c| + |t| + k] == u[k])
  {
  }

  lemma BaseCounts(l: seq<Element>)
    requires WellFormed(l)
    ensures BaseCount(l, 0) == 0 && BaseCount(l, 1) == 1
    ensures BaseCount(l, 2) == 1 + (if Has(l, Normal) then 1 else 0)
    ensures BaseCount(l, 3) == BaseCount(l, 2) + (if Has(l, Color) then 1 else 0)
    ensures BaseCount(l, 4) == BaseCount(l, 3) + (if Has(l, Tangent) then 1 else 0)
  {
    BasePresence(l, Position);
    BasePresence(l, Normal);
    BasePresence(l, Color);
    BasePresence(l, Tangent);
  }

  lemma SlottedKeeps(l: seq<Element>)
    ensures forall s :: Has(Slotted(l), s) <==> Has(l, s)
    ensures CountTex(Slotted(l)) == CountTex(l)
  {
    CountByKeys(l, Slotted(l));
    forall s
      ensures Has(Slotted(l), s) <==> Has(l, s)
    {
      if Has(l, s) {
        var i :| 0 <= i < |l| && l[i].semantic == s;
        assert Slotted(l)[i].semantic == s;
      }
    }
  }

  lemma {:induction false} CountByKeys(l: seq<Element>, m: seq<Element>)
    requires |l| == |m| && forall i | 0 <= i < |l| :: l[i].semantic == m[i].semantic
    ensures CountTex(l) == CountTex(m)
  {
    if l != [] {
      CountByKeys(l[..|l| - 1], m[..|m| - 1]);
    }
  }
}
