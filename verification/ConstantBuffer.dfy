/**
  The constant buffer of a Direct3D 11 shader: where each parameter is placed, and when the
  buffer on the GPU holds the packing of the current parameter values.
 */
module ConstantBuffer {
  import opened Bits
  import opened ByteStrings

  datatype ParamType = Bool | Int | Float | Int2 | Vec2 | Int3 | Vec3 | Int4 | Vec4 | Matrix4x4
                     | Texture | String | Unknown

  /** The size of one element; 0 for the types that occupy no constant register. */
  function ElementSize(ty: ParamType): nat {
    match ty
    case Bool | Int | Float => 4
    case Int2 | Vec2 => 8
    case Int3 | Vec3 => 12
    case Int4 | Vec4 => 16
    case Matrix4x4 => 64
    case Texture | String | Unknown => 0
  }

  datatype Param = Param(ty: ParamType, arrayCount: nat, defaultValue: Bytes,
                         pos: nat, curValue: Bytes, changed: bool) {
    predicate IsNumeric() {
      !ty.Texture? && !ty.String? && !ty.Unknown?
    }

    function DeclaredSize(): nat {
      if arrayCount == 0 then ElementSize(ty) else ElementSize(ty) * arrayCount
    }

    /** `shader_setval_inline`: the flag is raised exactly when the stored bytes change. */
    function Set(data: Bytes): Param {
      if data == curValue then this else this.(curValue := data, changed := true)
    }

    function SetDefault(): Param {
      if defaultValue == [] then this else Set(defaultValue)
    }

    /** What a device rebuild does to the parameter. */
    function Rebuilt(): Param {
      this.(curValue := []).SetDefault()
    }
  }

  // ---------- Placement ----------

  /** A constant of at most one register must not cross a register; a larger one must start a register. */
  ghost predicate Legal(pos: nat, size: nat) {
    if size <= 16 then pos / 16 == (pos + size - 1) / 16 else pos % 16 == 0
  }

  ghost predicate LeastLegal(pos: nat, used: nat, size: nat) {
    used <= pos && Legal(pos, size) && forall p: nat | used <= p < pos :: !Legal(p, size)
  }

  /** The first byte after the last placed constant. */
  ghost function End(ps: seq<Param>): nat {
    if ps == [] then 0
    else
      var p := ps[|ps| - 1];
      if p.IsNumeric() then p.pos + p.DeclaredSize() else End(ps[..|ps| - 1])
  }

  /** Every constant sits at the least legal offset after its predecessors. */
  ghost predicate Greedy(ps: seq<Param>) {
    forall i | 0 <= i < |ps| && ps[i].IsNumeric() ::
      LeastLegal(ps[i].pos, End(ps[..i]), ps[i].DeclaredSize())
  }

  /** The alignment step of the placement loop. */
  function Place(used: nat, size: nat): nat {
    if size != 0 && And(used, 15) != 0 then
      var alignMax := And(used + 15, Not(15));
      if size + used > alignMax then alignMax else used
    else used
  }

  lemma PlaceIsLeastLegal(used: nat, size: nat)
    requires size > 0
    ensures LeastLegal(Place(used, size), used, size)
  {
    assert Pow2(4) == 16;
    MaskIsMod(used, 4);
    MaskRoundsDown(used + 15, 4);
    NextLegal(used, size, Place(used, size));
  }

  lemma NextLegal(used: nat, size: nat, pos: nat)
    requires size > 0
    requires var up := used + 15 - (used + 15) % 16;
             pos == if used % 16 != 0 && size + used > up then up else used
    ensures LeastLegal(pos, used, size)
  {
    var q, r := used / 16, used % 16;
    if r != 0 && size + used > 16 * (q + 1) {
      InRegister(used + 15, q + 1);
      InRegister(pos, q + 1);
      if size <= 16 {
        InRegister(pos + size - 1, q + 1);
      }
      forall p: nat | used <= p < pos
        ensures !Legal(p, size)
      {
        InRegister(p, q);
        if size <= 16 {
          InRegister(p + size - 1, q + 1);
        }
      }
    } else {
      if r != 0 {
        InRegister(used + 15, q + 1);
        InRegister(used + size - 1, q);
      } else if size <= 16 {
        InRegister(used + size - 1, q);
      }
    }
  }

  lemma InRegister(p: nat, q: nat)
    requires 16 * q <= p < 16 * (q + 1)
    ensures p / 16 == q && p % 16 == p - 16 * q
  {
  }

  lemma DeclaredSizePositive(p: Param)
    requires p.IsNumeric()
    ensures p.DeclaredSize() > 0
  {
  }

  /** Earlier constants end before later ones begin. */
  lemma {:induction false} EndCovers(ps: seq<Param>, i: nat, n: nat)
    requires Greedy(ps) && i < n <= |ps| && ps[i].IsNumeric()
    ensures ps[i].pos + ps[i].DeclaredSize() <= End(ps[..n])
    decreases n
  {
    assert ps[..n][..n - 1] == ps[..n - 1];
    if i < n - 1 {
      EndCovers(ps, i, n - 1);
    }
  }

  /** Placed constants are ordered and disjoint, and none that fits a register crosses one. */
  lemma GreedyIsSound(ps: seq<Param>, i: nat, j: nat)
    requires Greedy(ps) && i < j < |ps| && ps[i].IsNumeric() && ps[j].IsNumeric()
    ensures ps[i].pos + ps[i].DeclaredSize() <= ps[j].pos
    ensures Legal(ps[i].pos, ps[i].DeclaredSize()) && Legal(ps[j].pos, ps[j].DeclaredSize())
  {
    EndCovers(ps, i, j);
  }

  // ---------- Packing ----------

  function Append(data: Bytes, p: Param): Bytes {
    (if p.pos > |data| then data + Zeros(p.pos - |data|) else data) + p.curValue
  }

  /** The bytes gathered for the current values. */
  function Packed(ps: seq<Param>): Bytes {
    if ps == [] then []
    else
      var p := ps[|ps| - 1];
      var data := Packed(ps[..|ps| - 1]);
      if p.ty.Texture? then data else Append(data, p)
  }

  ghost predicate AllSet(ps: seq<Param>) {
    forall i | 0 <= i < |ps| && !ps[i].ty.Texture? :: ps[i].curValue != []
  }

  ghost predicate AnyChanged(ps: seq<Param>) {
    exists i | 0 <= i < |ps| :: !ps[i].ty.Texture? && ps[i].changed
  }

  /** The flags of the first `n` parameters after the gathering loop visited them. */
  function Cleared(ps: seq<Param>, n: nat): seq<Param> {
    seq(|ps|, i requires 0 <= i < |ps| =>
      if i < n && !ps[i].ty.Texture? then ps[i].(changed := false) else ps[i])
  }

  ghost predicate DeclaredValues(ps: seq<Param>) {
    forall i | 0 <= i < |ps| && !ps[i].ty.Texture? ::
      ps[i].IsNumeric() && |ps[i].curValue| == ps[i].DeclaredSize()
  }

  /** With values of their declared sizes the packing ends where the placement ended. */
  lemma {:induction false} PackedLength(ps: seq<Param>)
    requires Greedy(ps) && DeclaredValues(ps)
    ensures |Packed(ps)| == End(ps)
  {
    if ps != [] {
      var init := ps[..|ps| - 1];
      GreedyPrefix(ps, |ps| - 1);
      PackedLength(init);
    }
  }

  lemma GreedyPrefix(ps: seq<Param>, n: nat)
    requires Greedy(ps) && n <= |ps|
    ensures Greedy(ps[..n])
  {
    forall i | 0 <= i < n && ps[i].IsNumeric()
      ensures LeastLegal(ps[..n][i].pos, End(ps[..n][..i]), ps[..n][i].DeclaredSize())
    {
      assert ps[..n][..i] == ps[..i];
    }
  }

  /** No value before parameter `n` is longer than declared. */
  ghost predicate NoneOverlong(ps: seq<Param>, n: nat) {
    forall k | 0 <= k < n && k < |ps| && !ps[k].ty.Texture? ::
      ps[k].IsNumeric() && |ps[k].curValue| <= ps[k].DeclaredSize()
  }

  /** Each value is packed at its own offset, or right behind those before it if they run past that. */
  lemma {:induction false} PackedAt(ps: seq<Param>, i: nat)
    requires i < |ps| && !ps[i].ty.Texture?
    ensures var before, size := |Packed(ps[..i])|, |ps[i].curValue|;
            var at := if before <= ps[i].pos then ps[i].pos else before;
            at + size <= |Packed(ps)| && Packed(ps)[at..at + size] == ps[i].curValue
    decreases |ps|
  {
    var init := ps[..|ps| - 1];
    if i < |ps| - 1 {
      PackedAt(init, i);
      assert init[..i] == ps[..i];
      assert Packed(init) <= Packed(ps);
    }
  }

  lemma {:induction false} PackedWithin(ps: seq<Param>)
    requires Greedy(ps) && NoneOverlong(ps, |ps|)
    ensures |Packed(ps)| <= End(ps)
  {
    if ps != [] {
      GreedyPrefix(ps, |ps| - 1);
      PackedWithin(ps[..|ps| - 1]);
    }
  }

  lemma GreedyAt(ps: seq<Param>, i: nat)
    requires Greedy(ps) && i < |ps| && ps[i].IsNumeric()
    ensures End(ps[..i]) <= ps[i].pos
  {
  }

  /** Values of declared sizes sit at their own offsets, and the gathered size is the one the shader expects. */
  lemma PackedPlacesValues(ps: seq<Param>, i: nat)
    requires Greedy(ps) && DeclaredValues(ps) && i < |ps| && !ps[i].ty.Texture?
    ensures |Packed(ps)| == End(ps)
    ensures ps[i].pos + ps[i].DeclaredSize() <= End(ps)
    ensures Packed(ps)[ps[i].pos..ps[i].pos + ps[i].DeclaredSize()] == ps[i].curValue
  {
    hide Packed, Greedy, End;
    PackedLength(ps);
    PackedAt(ps, i);
    GreedyPrefix(ps, i);
    PackedWithin(ps[..i]);
    GreedyAt(ps, i);
  }

  // ---------- Uploading ----------

  datatype UploadResult = Done | NotAllSet | InvalidSize | MapFailed

  /** A shader's parameters and the bytes its constant buffer holds on the GPU. */
  datatype State = State(params: seq<Param>, constantSize: nat, gpu: Bytes) {
    ghost predicate Fits() {
      AllSet(params) && |Packed(params)| == constantSize
    }

    /** Unless a flag is raised or the next upload would be refused, the GPU holds the packing. */
    ghost predicate Coherent() {
      Fits() && !AnyChanged(params) ==> gpu == Packed(params)
    }
  }

  predicate IsUnset(p: Param) {
    !p.ty.Texture? && p.curValue == []
  }

  /** Where the gathering loop stops: the first parameter without a value, or the end. */
  function FirstUnset(ps: seq<Param>): (n: nat)
    ensures n <= |ps|
    ensures forall i | 0 <= i < n :: !IsUnset(ps[i])
    ensures n < |ps| ==> IsUnset(ps[n])
  {
    if ps == [] || IsUnset(ps[0]) then 0 else 1 + FirstUnset(ps[1..])
  }

  /** One call to `UploadParams`; `mapOk` says whether the buffer could be mapped. */
  ghost function Upload(s: State, mapOk: bool): (State, UploadResult) {
    var n := FirstUnset(s.params);
    var t := s.(params := Cleared(s.params, n));
    if n < |s.params| then (t, NotAllSet)
    else if |Packed(s.params)| != s.constantSize then (t, InvalidSize)
    else if !AnyChanged(s.params) then (t, Done)
    else if !mapOk then (t, MapFailed)
    else (t.(gpu := Packed(s.params)), Done)
  }

  ghost function SetParam(s: State, i: nat, data: Bytes): State
    requires i < |s.params|
  {
    s.(params := s.params[i := s.params[i].Set(data)])
  }

  /** A device rebuild: a new buffer with arbitrary contents, and every parameter back to its default. */
  ghost function Rebuild(s: State, junk: Bytes): State {
    s.(gpu := junk, params := seq(|s.params|, i requires 0 <= i < |s.params| => s.params[i].Rebuilt()))
  }

  datatype Op = SetOp(i: nat, data: Bytes) | UploadOp | RebuildOp(junk: Bytes)

  ghost predicate CanApply(s: State, op: Op) {
    match op
    case SetOp(i, _) => i < |s.params|
    case UploadOp => true
    case RebuildOp(junk) => |junk| == s.constantSize
  }

  ghost function Apply(s: State, op: Op): State
    requires CanApply(s, op)
  {
    match op
    case SetOp(i, data) => SetParam(s, i, data)
    case UploadOp => Upload(s, true).0
    case RebuildOp(junk) => Rebuild(s, junk)
  }

  ghost predicate CanRun(s: State, ops: seq<Op>)
    decreases ops
  {
    ops == [] || (CanApply(s, ops[0]) && CanRun(Apply(s, ops[0]), ops[1..]))
  }

  ghost function Run(s: State, ops: seq<Op>): State
    requires CanRun(s, ops)
    decreases ops
  {
    if ops == [] then s else Run(Apply(s, ops[0]), ops[1..])
  }

  lemma ClearedPacksAlike(ps: seq<Param>, n: nat)
    ensures Packed(Cleared(ps, n)) == Packed(ps)
    ensures AllSet(Cleared(ps, n)) <==> AllSet(ps)
  {
    assert forall i | 0 <= i < |ps| :: Cleared(ps, n)[i].ty == ps[i].ty && Cleared(ps, n)[i].curValue == ps[i].curValue;
    SameValuesPackAlike(ps, Cleared(ps, n));
  }

  lemma {:induction false} SameValuesPackAlike(ps: seq<Param>, qs: seq<Param>)
    requires |ps| == |qs|
    requires forall i | 0 <= i < |ps| :: qs[i].(changed := false) == ps[i].(changed := false)
    ensures Packed(ps) == Packed(qs)
  {
    if ps != [] {
      SameValuesPackAlike(ps[..|ps| - 1], qs[..|qs| - 1]);
    }
  }

  /** What becomes of an upload, of the flags and of the bytes on the device. */
  lemma UploadOutcome(s: State, mapOk: bool)
    ensures var (t, r) := Upload(s, mapOk);
            && (r == NotAllSet <==> !AllSet(s.params))
            && (r == InvalidSize <==> AllSet(s.params) && |Packed(s.params)| != s.constantSize)
            && (r == MapFailed <==> s.Fits() && AnyChanged(s.params) && !mapOk)
            && (r == Done ==> s.Fits() && !AnyChanged(t.params))
            && (r == Done && AnyChanged(s.params) ==> t.gpu == Packed(s.params))
            && (r != Done || !AnyChanged(s.params) ==> t.gpu == s.gpu)
            && |t.params| == |s.params| && t.constantSize == s.constantSize
            && forall i | 0 <= i < |s.params| ::
                 && t.params[i].(changed := s.params[i].changed) == s.params[i]
                 && (t.params[i].changed ==> s.params[i].changed)
  {
    ClearedPacksAlike(s.params, FirstUnset(s.params));
    var n := FirstUnset(s.params);
    assert n < |s.params| ==> !AllSet(s.params);
  }

  lemma UploadKeepsCoherence(s: State)
    requires s.Coherent()
    ensures Upload(s, true).0.Coherent()
  {
    ClearedPacksAlike(s.params, FirstUnset(s.params));
  }

  lemma SetKeepsCoherence(s: State, i: nat, data: Bytes)
    requires s.Coherent() && i < |s.params|
    ensures SetParam(s, i, data).Coherent()
  {
    var p := s.params[i];
    var t := SetParam(s, i, data);
    if data == p.curValue {
      assert t.params == s.params;
    } else if p.ty.Texture? {
      TexturesDoNotPack(s.params, i, p.Set(data));
      assert forall k | 0 <= k < |s.params| && !t.params[k].ty.Texture? :: t.params[k] == s.params[k];
      assert forall k | 0 <= k < |s.params| && !s.params[k].ty.Texture? :: t.params[k] == s.params[k];
    } else {
      assert t.params[i].changed;
    }
  }

  lemma {:induction false} TexturesDoNotPack(ps: seq<Param>, i: nat, q: Param)
    requires i < |ps| && ps[i].ty.Texture? && q.ty.Texture?
    ensures Packed(ps[i := q]) == Packed(ps)
  {
    var n := |ps| - 1;
    if i < n {
      TexturesDoNotPack(ps[..n], i, q);
      assert ps[i := q][..n] == ps[..n][i := q];
    } else {
      assert ps[i := q][..n] == ps[..n];
    }
  }

  lemma RebuildKeepsCoherence(s: State, junk: Bytes)
    requires |junk| == s.constantSize
    ensures Rebuild(s, junk).Coherent()
  {
    var t := Rebuild(s, junk);
    if t.Fits() && !AnyChanged(t.params) {
      forall i | 0 <= i < |t.params|
        ensures t.params[i].ty.Texture?
      {
        assert t.params[i] == s.params[i].Rebuilt();
      }
      OnlyTextures(t.params);
    }
  }

  lemma {:induction false} OnlyTextures(ps: seq<Param>)
    requires forall i | 0 <= i < |ps| :: ps[i].ty.Texture?
    ensures Packed(ps) == []
  {
    if ps != [] {
      OnlyTextures(ps[..|ps| - 1]);
    }
  }

  lemma {:induction false} RunsKeepCoherence(s: State, ops: seq<Op>)
    requires s.Coherent() && CanRun(s, ops)
    ensures Run(s, ops).Coherent()
    decreases ops
  {
    if ops != [] {
      match ops[0] {
        case SetOp(i, data) => SetKeepsCoherence(s, i, data);
        case UploadOp => UploadKeepsCoherence(s);
        case RebuildOp(junk) => RebuildKeepsCoherence(s, junk);
      }
      RunsKeepCoherence(Apply(s, ops[0]), ops[1..]);
    }
  }

  /**
    After any run of sets, uploads (also ones refused part-way, with some flags already lowered) and
    rebuilds, an upload that returns normally leaves exactly the current values on the GPU.
   */
  lemma NormalUploadIsCurrent(s: State, ops: seq<Op>)
    requires s.Coherent() && CanRun(s, ops)
    ensures var t := Run(s, ops);
            var (u, r) := Upload(t, true);
            r == Done ==> u.gpu == Packed(t.params) == Packed(u.params)
  {
    RunsKeepCoherence(s, ops);
    var t := Run(s, ops);
    ClearedPacksAlike(t.params, FirstUnset(t.params));
  }

  // ---------- What was given last ----------

  /** The bytes that a parameter was given last: set by a caller, or its default if the device was rebuilt since. */
  function LastGiven(p: Param, i: nat, ops: seq<Op>): Bytes {
    if ops == [] then p.curValue
    else
      match ops[|ops| - 1]
      case SetOp(k, data) => if k == i then data else LastGiven(p, i, ops[..|ops| - 1])
      case UploadOp => LastGiven(p, i, ops[..|ops| - 1])
      case RebuildOp(_) => p.defaultValue
  }

  /** The same parameters at the same places. */
  ghost predicate SamePlaces(ps: seq<Param>, qs: seq<Param>) {
    |ps| == |qs| && forall k | 0 <= k < |ps| :: SamePlace(ps[k], qs[k])
  }

  ghost predicate SamePlace(p: Param, q: Param) {
    p == q.(curValue := p.curValue, changed := p.changed)
  }

  lemma ApplyGives(s: State, op: Op, i: nat)
    requires CanApply(s, op) && i < |s.params|
    ensures SamePlaces(s.params, Apply(s, op).params) && s.constantSize == Apply(s, op).constantSize
    ensures var q := Apply(s, op).params[i];
            match op
            case SetOp(k, data) => q.curValue == if k == i then data else s.params[i].curValue
            case UploadOp => q.curValue == s.params[i].curValue
            case RebuildOp(_) => q.curValue == s.params[i].defaultValue
  {
  }

  lemma {:induction false} RunEnds(s: State, ops: seq<Op>, op: Op)
    requires CanRun(s, ops + [op])
    ensures CanRun(s, ops) && CanApply(Run(s, ops), op) && Run(s, ops + [op]) == Apply(Run(s, ops), op)
    decreases ops
  {
    if ops == [] {
      assert ([] + [op])[1..] == [];
    } else {
      assert (ops + [op])[0] == ops[0] && (ops + [op])[1..] == ops[1..] + [op];
      RunEnds(Apply(s, ops[0]), ops[1..], op);
    }
  }

  /** After any run a parameter holds what it was given last, and is where it was. */
  lemma {:induction false} RunGives(s: State, ops: seq<Op>, i: nat)
    requires CanRun(s, ops) && i < |s.params|
    ensures var t := Run(s, ops);
            && SamePlaces(s.params, t.params) && s.constantSize == t.constantSize
            && t.params[i].curValue == LastGiven(s.params[i], i, ops)
    decreases |ops|
  {
    hide Apply, CanApply;
    if ops != [] {
      var init, op := ops[..|ops| - 1], ops[|ops| - 1];
      assert ops == init + [op];
      RunEnds(s, init, op);
      RunGives(s, init, i);
      ApplyGives(Run(s, init), op, i);
    }
  }

  /**
    When an upload returns normally after any run, the buffer holds what each parameter was given last: at its offset,
    unless a parameter before it was given too much.
   */
  lemma LastGivenIsUploaded(s: State, ops: seq<Op>, i: nat)
    requires s.Coherent() && CanRun(s, ops) && Greedy(s.params) && i < |s.params| && s.params[i].IsNumeric()
    requires Upload(Run(s, ops), true).1 == Done
    ensures var given, pos := LastGiven(s.params[i], i, ops), s.params[i].pos;
            var t, gpu := Run(s, ops), Upload(Run(s, ops), true).0.gpu;
            && i < |t.params|
            && (|Packed(t.params[..i])| <= pos ==> pos + |given| <= |gpu| && gpu[pos..pos + |given|] == given)
            && (NoneOverlong(t.params, i) ==> |Packed(t.params[..i])| <= pos)
  {
    hide Upload, Run, Packed, Greedy;
    var t := Run(s, ops);
    NormalUploadIsCurrent(s, ops);
    RunGives(s, ops, i);
    PackedAt(t.params, i);
    if NoneOverlong(t.params, i) {
      PlacesKeepGreedy(s.params, t.params);
      GreedyPrefix(t.params, i);
      PackedWithin(t.params[..i]);
      GreedyAt(t.params, i);
    }
  }

  /** A failed mapping loses the flags: coherence survives it exactly when there was nothing new to send. */
  lemma FailedMapCoherence(s: State)
    requires s.Coherent()
    ensures Upload(s, false).0.Coherent() <==>
            (Upload(s, true).1 == Done && AnyChanged(s.params) ==> s.gpu == Packed(s.params))
  {
    ClearedPacksAlike(s.params, FirstUnset(s.params));
  }

  /** A concrete loss: the next upload reports success while the GPU still holds the old value. */
  lemma FailedMapExample()
    ensures var p := Param(Float, 0, [], 0, [1, 2, 3, 4], true);
            var s := State([p], 4, [0, 0, 0, 0]);
            var t := Upload(s, false).0;
            && s.Coherent() && Upload(s, false).1 == MapFailed
            && Upload(t, true).1 == Done && Upload(t, true).0.gpu != Packed(t.params)
  {
    var p := Param(Float, 0, [], 0, [1, 2, 3, 4], true);
    var s := State([p], 4, [0, 0, 0, 0]);
    assert [p][..0] == [];
    assert Packed([p]) == [1, 2, 3, 4];
    assert s.params[0].changed;
    var t := Upload(s, false).0;
    assert t.params == [p.(changed := false)];
    assert t.params[..0] == [];
    assert Packed(t.params) == [1, 2, 3, 4];
  }

  /** Values of their declared sizes are never refused for their size. */
  lemma DeclaredValuesUpload(s: State, mapOk: bool)
    requires Greedy(s.params) && s.constantSize == End(s.params) && DeclaredValues(s.params)
    ensures Upload(s, mapOk).1 == Done || Upload(s, mapOk).1 == MapFailed
    ensures Upload(s, true).1 == Done
  {
    PackedLength(s.params);
    forall i | 0 <= i < |s.params| && !s.params[i].ty.Texture?
      ensures s.params[i].curValue != []
    {
      DeclaredSizePositive(s.params[i]);
    }
  }

  // ---------- The shader ----------

  class Shader {
    var params: seq<Param>
    var constantSize: nat
    var byteWidth: nat
    ghost var gpu: Bytes  // what the constant buffer holds

    ghost function Snapshot(): State
      reads this
    {
      State(params, constantSize, gpu)
    }

    constructor (ps: seq<Param>)
      requires forall p | p in ps :: p.IsNumeric() || p.ty.Texture?
      requires forall p | p in ps :: p.curValue == [] && !p.changed
      ensures |params| == |ps|
      ensures forall k | 0 <= k < |ps| ::
                params[k].(pos := ps[k].pos)
                == ps[k].(curValue := ps[k].defaultValue, changed := ps[k].defaultValue != [])
      ensures Greedy(params) && constantSize == End(params)
      ensures Snapshot().Coherent()
    {
      params := ps;
      constantSize := 0;
      byteWidth := 0;
      gpu := [];
      new;
      BuildConstantBuffer();
    }

    /** Places every constant, creates the buffer and sets the defaults. */
    method BuildConstantBuffer()
      requires constantSize == 0
      requires forall p | p in params :: p.curValue == [] && !p.changed
      modifies this
      ensures |params| == |old(params)|
      ensures forall k | 0 <= k < |params| ::
                var p := old(params)[k];
                params[k].(pos := p.pos) == p.(curValue := p.defaultValue, changed := p.defaultValue != [])
      ensures Greedy(params) && constantSize == End(params)
      ensures constantSize + 15 < Pow2(32) ==> constantSize <= byteWidth < constantSize + 16 && byteWidth % 16 == 0
      ensures Snapshot().Coherent()
    {
      hide Pow2, And, Greedy, End, Packed;
      PlaceConstants();
      byteWidth := 0;
      if constantSize != 0 {
        byteWidth := And(constantSize + 15, 0xFFFFFFF0);
        ByteWidthHolds(constantSize);
      }
      gpu := Zeros(constantSize);
      ghost var placed := Snapshot();
      SetDefaults();
      assert Snapshot().params == Rebuild(placed, gpu).params;
      RebuildKeepsCoherence(placed, gpu);
      PlacesKeepGreedy(placed.params, params);
    }

    /** The first loop of `BuildConstantBuffer`. */
    method PlaceConstants()
      requires constantSize == 0
      modifies this`params, this`constantSize
      ensures |params| == |old(params)|
      ensures forall k | 0 <= k < |params| :: params[k].(pos := 0) == old(params)[k].(pos := 0)
      ensures Greedy(params) && constantSize == End(params)
    {
      hide Greedy, End, Place, LeastLegal;
      NothingPlaced();
      var i := 0;
      assert params[..0] == [];
      while i < |params|
        invariant 0 <= i <= |params| == |old(params)|
        invariant forall k | 0 <= k < |params| :: params[k].(pos := 0) == old(params)[k].(pos := 0)
        invariant Greedy(params[..i]) && constantSize == End(params[..i])
      {
        var param := params[i];
        ghost var placed := params[..i];
        if param.IsNumeric() {
          var size := param.DeclaredSize();
          DeclaredSizePositive(param);
          PlaceIsLeastLegal(constantSize, size);
          constantSize := Place(constantSize, size);
          params := params[i := param.(pos := constantSize)];
          constantSize := constantSize + size;
        }
        GreedyExtends(placed, params[i]);
        assert params[..i + 1] == placed + [params[i]];
        i := i + 1;
      }
      assert params[..i] == params;
    }

    /** The second loop of `BuildConstantBuffer`. */
    method SetDefaults()
      modifies this`params
      ensures |params| == |old(params)|
      ensures forall k | 0 <= k < |params| :: params[k] == old(params)[k].SetDefault()
    {
      var i := 0;
      while i < |params|
        invariant 0 <= i <= |params| == |old(params)|
        invariant forall k | 0 <= k < i :: params[k] == old(params)[k].SetDefault()
        invariant forall k | i <= k < |params| :: params[k] == old(params)[k]
      {
        params := params[i := params[i].SetDefault()];
        i := i + 1;
      }
    }

    method SetValue(i: nat, data: Bytes)
      requires i < |params|
      modifies this
      ensures Snapshot() == SetParam(old(Snapshot()), i, data)
      ensures var p := old(params)[i];
              params == old(params)[i := p.(curValue := data, changed := p.changed || data != p.curValue)]
      ensures gpu == old(gpu) && constantSize == old(constantSize)
      ensures byteWidth == old(byteWidth)
    {
      var sizeChanged := |params[i].curValue| != |data|;
      if sizeChanged || params[i].curValue != data {
        params := params[i := params[i].(curValue := data, changed := true)];
      }
    }

    method UploadParams(mapOk: bool) returns (r: UploadResult)
      modifies this
      ensures (Snapshot(), r) == Upload(old(Snapshot()), mapOk)
      ensures byteWidth == old(byteWidth)
    {
      hide AnyChanged, Packed, Cleared;
      ghost var ps := params;
      var constData: Bytes := [];
      var upload := false;
      NothingGathered(ps);
      var i := 0;
      while i < |params|
        invariant 0 <= i <= |params| == |ps|
        invariant gpu == old(gpu) && constantSize == old(constantSize) && byteWidth == old(byteWidth)
        invariant params == Cleared(ps, i) && params[i..] == ps[i..]
        invariant forall k | 0 <= k < i :: !IsUnset(ps[k])
        invariant constData == Packed(ps[..i])
        invariant upload <==> AnyChanged(ps[..i])
      {
        var param := params[i];
        assert param == params[i..][0] == ps[i];
        OneMoreGathered(ps, i);
        if !param.ty.Texture? {
          if |param.curValue| == 0 {
            return NotAllSet;
          }
          if param.pos > |constData| {
            constData := constData + Zeros(param.pos - |constData|);
          }
          constData := constData + param.curValue;
          if param.changed {
            upload := true;
            params := params[i := param.(changed := false)];
          }
        }
        i := i + 1;
      }
      assert ps[..i] == ps;
      if |constData| != constantSize {
        return InvalidSize;
      }
      if upload {
        if !mapOk {
          return MapFailed;
        }
        gpu := constData;
      }
      return Done;
    }

    /** What `RebuildDevice` does to a shader; the new buffer's contents are arbitrary. */
    method RebuildShader(ghost junk: Bytes)
      requires |junk| == constantSize
      modifies this
      ensures Snapshot() == Rebuild(old(Snapshot()), junk)
      ensures |params| == |old(params)|
      ensures forall k | 0 <= k < |params| ::
                var p := old(params)[k];
                params[k] == p.(curValue := p.defaultValue, changed := p.changed || p.defaultValue != [])
      ensures byteWidth == old(byteWidth)
    {
      gpu := junk;
      var i := 0;
      while i < |params|
        invariant 0 <= i <= |params| == |old(params)|
        invariant gpu == junk && constantSize == old(constantSize) && byteWidth == old(byteWidth)
        invariant forall k | 0 <= k < i :: params[k] == old(params)[k].Rebuilt()
        invariant forall k | i <= k < |params| :: params[k] == old(params)[k]
      {
        params := params[i := params[i].(curValue := [])];
        params := params[i := params[i].SetDefault()];
        i := i + 1;
      }
    }
  }

  lemma NothingGathered(ps: seq<Param>)
    ensures Cleared(ps, 0) == ps && Packed(ps[..0]) == [] && !AnyChanged(ps[..0])
  {
  }

  /** What one turn of the gathering loop adds. */
  lemma OneMoreGathered(ps: seq<Param>, i: nat)
    requires i < |ps|
    ensures var p, before := ps[i], Packed(ps[..i]);
            && Packed(ps[..i + 1]) == (if p.ty.Texture? then before else Append(before, p))
            && (AnyChanged(ps[..i + 1]) <==> AnyChanged(ps[..i]) || (!p.ty.Texture? && p.changed))
            && |Cleared(ps, i)| == |ps|
            && Cleared(ps, i + 1) == Cleared(ps, i)[i := if p.ty.Texture? then p else p.(changed := false)]
            && Cleared(ps, i)[i..] == ps[i..]
  {
    var all := ps[..i + 1];
    assert all[..i] == ps[..i] && all[i] == ps[i];
    assert forall k | 0 <= k < i :: all[k] == ps[..i][k];
  }

  lemma ByteWidthHolds(size: nat)
    ensures size + 15 < Pow2(32) ==>
              var width := And(size + 15, 0xFFFFFFF0); size <= width < size + 16 && width % 16 == 0
  {
    hide And;
    if size + 15 < Pow2(32) {
      MaskWithin(size + 15, 4, 32);
      PowersOfTwo();
      RoundedDown(size + 15);
    }
  }

  lemma PowersOfTwo()
    ensures Pow2(4) == 16 && Pow2(32) == 0x1_0000_0000
  {
    assert Pow2(8) == 0x100 && Pow2(16) == 0x1_0000 && Pow2(24) == 0x100_0000;
  }

  lemma RoundedDown(x: nat)
    ensures var r := x - x % 16; x - 16 < r <= x && r % 16 == 0
  {
    assert x == 16 * (x / 16) + x % 16;
  }

  lemma PlacesKeepGreedy(ps: seq<Param>, qs: seq<Param>)
    requires SamePlaces(ps, qs) && Greedy(ps)
    ensures Greedy(qs) && End(qs) == End(ps)
  {
    forall n | 0 <= n <= |ps|
      ensures End(qs[..n]) == End(ps[..n])
    {
      SamePlacesSameEnd(ps[..n], qs[..n]);
    }
    assert ps[..|ps|] == ps && qs[..|qs|] == qs;
  }

  lemma {:induction false} SamePlacesSameEnd(ps: seq<Param>, qs: seq<Param>)
    requires SamePlaces(ps, qs)
    ensures End(ps) == End(qs)
  {
    if ps != [] {
      assert SamePlace(ps[|ps| - 1], qs[|ps| - 1]);
      SamePlacesSameEnd(ps[..|ps| - 1], qs[..|qs| - 1]);
    }
  }

  lemma NothingPlaced()
    ensures Greedy([]) && End([]) == 0
  {
  }

  lemma GreedyExtends(ps: seq<Param>, p: Param)
    requires Greedy(ps)
    requires p.IsNumeric() ==> LeastLegal(p.pos, End(ps), p.DeclaredSize())
    ensures Greedy(ps + [p])
    ensures End(ps + [p]) == if p.IsNumeric() then p.pos + p.DeclaredSize() else End(ps)
  {
    var all := ps + [p];
    assert all[..|ps|] == ps;
    forall i | 0 <= i < |all| && all[i].IsNumeric()
      ensures LeastLegal(all[i].pos, End(all[..i]), all[i].DeclaredSize())
    {
      assert i < |ps| ==> all[..i] == ps[..i];
    }
  }
}
