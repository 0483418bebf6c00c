/**
  The uniform data of a Metal shader: the offsets given to the uniforms, and the byte array into
  which their values are written before a draw.
 */
module MetalUniforms {
  import opened Bits
  import opened ByteStrings
  import opened Wrappers

  datatype ParamType = Bool | Int | Float | Int2 | Vec2 | Int3 | Vec3 | Int4 | Vec4 | Matrix4x4
                     | Texture | String | Unknown

  /** The SIMD types of three components take the room of four. */
  function MtlSize(ty: ParamType): nat {
    match ty
    case Bool | Int | Float => 4
    case Int2 | Vec2 => 8
    case Int3 | Vec3 => 16
    case Int4 | Vec4 => 16
    case Matrix4x4 => 64
    case Texture => 16
    case String | Unknown => 0
  }

  function MtlAlignment(ty: ParamType): nat {
    match ty
    case Bool | Int | Float => 4
    case Int2 | Vec2 => 8
    case Int3 | Vec3 | Int4 | Vec4 | Matrix4x4 => 16
    case Texture | String | Unknown => 0
  }

  predicate IsNumeric(ty: ParamType) {
    !ty.Texture? && !ty.String? && !ty.Unknown?
  }

  lemma AlignmentIsPowerOfTwo(ty: ParamType) returns (k: nat)
    requires IsNumeric(ty)
    ensures MtlAlignment(ty) == Pow2(k)
  {
    assert Pow2(2) == 4 && Pow2(3) == 8 && Pow2(4) == 16;
    k := if MtlAlignment(ty) == 4 then 2 else if MtlAlignment(ty) == 8 then 3 else 4;
  }

  /** A uniform as the transpiler saw it; `isTexture` marks the textures of a fragment shader. */
  datatype Declaration = Declaration(ty: ParamType, isTexture: bool, defaultValues: Bytes)

  /** `(used + (alignment - 1)) & ~(alignment - 1)`; the left operand is -1 only for alignment 0, and -1 & m is m. */
  function Align(used: nat, alignment: nat): int {
    var x := used + (alignment - 1);
    if x < 0 then Not(alignment - 1) else And(x, Not(alignment - 1))
  }

  lemma AlignIsLeast(used: nat, ty: ParamType)
    requires IsNumeric(ty)
    ensures Align(used, MtlAlignment(ty)) >= 0
    ensures LeastAligned(Align(used, MtlAlignment(ty)), used, MtlAlignment(ty))
  {
    var k := AlignmentIsPowerOfTwo(ty);
    MaskRoundsUp(used, k);
  }

  lemma {:induction false} AndZero(x: nat)
    ensures And(x, 0) == 0
  {
    if x != 0 {
      AndZero(x / 2);
    }
  }

  lemma AlignIsNat(used: nat, ty: ParamType)
    ensures Align(used, MtlAlignment(ty)) >= 0
  {
    if IsNumeric(ty) {
      AlignIsLeast(used, ty);
    } else if used > 0 {
      AndZero(used - 1);
    }
  }

  /** An offset stays at or after its predecessor's end exactly for the types that have an alignment. */
  lemma AlignAdvancesIff(used: nat, ty: ParamType)
    ensures Align(used, MtlAlignment(ty)) >= used <==> IsNumeric(ty) || used == 0
  {
    if IsNumeric(ty) {
      AlignIsLeast(used, ty);
    } else if used > 0 {
      AndZero(used - 1);
    }
  }

  class ShaderUniform {
    const ty: ParamType
    const isTexture: bool
    const textureSlot: nat
    const byteOffset: nat
    const defaultValues: Bytes
    var currentValues: Bytes
    var hasUpdates: bool
    ghost var wasSet: bool             // SetParameter was called
    ghost var uploaded: Option<Bytes>  // the value last copied into the uniform data

    constructor (d: Declaration, textureSlot: nat, byteOffset: nat)
      ensures this.ty == d.ty && this.isTexture == d.isTexture && this.defaultValues == d.defaultValues
      ensures this.textureSlot == textureSlot && this.byteOffset == byteOffset
      ensures currentValues == d.defaultValues && !hasUpdates && !wasSet && uploaded == None
    {
      this.ty, this.isTexture, this.defaultValues := d.ty, d.isTexture, d.defaultValues;
      this.textureSlot, this.byteOffset := textureSlot, byteOffset;
      currentValues, hasUpdates := d.defaultValues, false;
      wasSet, uploaded := false, None;
    }

    /** A missing data pointer is ignored. */
    method SetParameter(data: Option<Bytes>)
      modifies this
      ensures data.None? ==> unchanged(this)
      ensures data.Some? ==> currentValues == data.value && hasUpdates && wasSet && uploaded == old(uploaded)
    {
      if data.Some? {
        currentValues, hasUpdates, wasSet := data.value, true, true;
      }
    }

    function Size(): nat {
      if isTexture then 0 else MtlSize(ty)
    }

    ghost predicate InStep()
      reads this
    {
      && (hasUpdates ==> wasSet)
      && (uploaded.Some? ==> wasSet && |uploaded.value| <= Size())
      && (wasSet ==> |currentValues| <= Size())
      && (wasSet && !hasUpdates ==> uploaded == Some(currentValues))
    }

    /** The uniform's bytes begin with the value last uploaded, and are untouched before the first upload. */
    ghost predicate HeldBy(data: Bytes)
      reads this
      requires byteOffset + Size() <= |data|
    {
      match uploaded
      case Some(v) => |v| <= Size() && data[byteOffset..byteOffset + |v|] == v
      case None => forall k | byteOffset <= k < byteOffset + Size() :: data[k] == 0
    }

    /** The bytes begin with the current value once it was ever set, and are zero otherwise. */
    ghost predicate ShownBy(data: Bytes)
      reads this
    {
      && byteOffset + Size() <= |data|
      && if wasSet then |currentValues| <= Size() && data[byteOffset..byteOffset + |currentValues|] == currentValues
         else forall k | byteOffset <= k < byteOffset + Size() :: data[k] == 0
    }
  }

  /** A default that was never set reaches the shader exactly when it is zero. */
  lemma DefaultShownIff(u: ShaderUniform, data: Bytes)
    requires u.ShownBy(data) && !u.wasSet && |u.defaultValues| <= u.Size()
    ensures data[u.byteOffset..u.byteOffset + |u.defaultValues|] == u.defaultValues
            <==> forall k | 0 <= k < |u.defaultValues| :: u.defaultValues[k] == 0
  {
    var n := |u.defaultValues|;
    var shown := data[u.byteOffset..u.byteOffset + n];
    assert forall k | 0 <= k < n :: shown[k] == data[u.byteOffset + k] == 0;
    if forall k | 0 <= k < n :: u.defaultValues[k] == 0 {
      assert shown == u.defaultValues;
    } else {
      var k :| 0 <= k < n && u.defaultValues[k] != 0;
      assert shown[k] != u.defaultValues[k];
    }
  }

  ghost function EndOf(uniforms: seq<ShaderUniform>): nat {
    if uniforms == [] then 0 else uniforms[|uniforms| - 1].byteOffset + uniforms[|uniforms| - 1].Size()
  }

  /** The offsets are those of a C struct: each is the first aligned one after the predecessor's end. */
  ghost predicate CStructLayout(uniforms: seq<ShaderUniform>) {
    forall i | 0 <= i < |uniforms| ::
      if uniforms[i].isTexture then uniforms[i].byteOffset == EndOf(uniforms[..i])
      else
        && IsNumeric(uniforms[i].ty)
        && LeastAligned(uniforms[i].byteOffset, EndOf(uniforms[..i]), MtlAlignment(uniforms[i].ty))
  }

  /** The offsets are those that the layout loop computes, whatever the types. */
  ghost predicate Laid(uniforms: seq<ShaderUniform>) {
    forall i | 0 <= i < |uniforms| :: LaidAt(uniforms[i], EndOf(uniforms[..i]))
  }

  ghost predicate LaidAt(u: ShaderUniform, used: nat) {
    u.byteOffset == if u.isTexture then used else Align(used, MtlAlignment(u.ty))
  }

  /** The computed layout is that of a C struct exactly if all uniforms but the textures have a numeric type. */
  lemma LaidIsCStructIff(uniforms: seq<ShaderUniform>)
    requires Laid(uniforms)
    ensures CStructLayout(uniforms)
       <==> forall i | 0 <= i < |uniforms| :: uniforms[i].isTexture || IsNumeric(uniforms[i].ty)
  {
    hide EndOf, LeastAligned, Align;
    forall i | 0 <= i < |uniforms| && !uniforms[i].isTexture && IsNumeric(uniforms[i].ty)
      ensures LeastAligned(uniforms[i].byteOffset, EndOf(uniforms[..i]), MtlAlignment(uniforms[i].ty))
    {
      AlignIsLeast(EndOf(uniforms[..i]), uniforms[i].ty);
      assert LaidAt(uniforms[i], EndOf(uniforms[..i]));
    }
  }

  /** Every uniform lies behind its predecessor exactly if one without an alignment comes before all of some size. */
  lemma LaidAdvancesIff(uniforms: seq<ShaderUniform>)
    requires Laid(uniforms)
    ensures (forall i | 0 <= i < |uniforms| :: EndOf(uniforms[..i]) <= uniforms[i].byteOffset)
       <==> forall i | 0 <= i < |uniforms| ::
              uniforms[i].isTexture || IsNumeric(uniforms[i].ty) || EndOf(uniforms[..i]) == 0
  {
    hide EndOf, Align, MtlAlignment, IsNumeric;
    forall i | 0 <= i < |uniforms|
      ensures EndOf(uniforms[..i]) <= uniforms[i].byteOffset
         <==> uniforms[i].isTexture || IsNumeric(uniforms[i].ty) || EndOf(uniforms[..i]) == 0
    {
      AlignAdvancesIff(EndOf(uniforms[..i]), uniforms[i].ty);
      assert LaidAt(uniforms[i], EndOf(uniforms[..i]));
    }
  }

  lemma {:induction false} LayoutOrdered(uniforms: seq<ShaderUniform>, i: nat, n: nat)
    requires CStructLayout(uniforms) && i < n <= |uniforms|
    ensures uniforms[i].byteOffset + uniforms[i].Size() <= EndOf(uniforms[..n])
    decreases n
  {
    if i < n - 1 {
      LayoutOrdered(uniforms, i, n - 1);
    }
  }

  /** Two uniforms never share a byte. */
  lemma LayoutDisjoint(uniforms: seq<ShaderUniform>, i: nat, j: nat)
    requires CStructLayout(uniforms) && i < j < |uniforms|
    ensures uniforms[i].byteOffset + uniforms[i].Size() <= uniforms[j].byteOffset
  {
    LayoutOrdered(uniforms, i, j);
  }

  /** A new uniform for declaration `i`: textures are numbered in order, defaults are current but not uploaded. */
  ghost predicate Built(u: ShaderUniform, decls: seq<Declaration>, i: nat)
    requires i < |decls|
    reads u
  {
    && u.ty == decls[i].ty && u.isTexture == decls[i].isTexture
    && u.textureSlot == (if decls[i].isTexture then TexturesIn(decls[..i]) else 0)
    && u.currentValues == decls[i].defaultValues == u.defaultValues
    && !u.hasUpdates && !u.wasSet && u.uploaded == None
  }

  /** The layout loop of `buildMetadata`. */
  method BuildUniforms(decls: seq<Declaration>) returns (uniforms: seq<ShaderUniform>, bufferSize: nat)
    ensures |uniforms| == |decls|
    ensures forall i | 0 <= i < |decls| :: fresh(uniforms[i])
    ensures forall i | 0 <= i < |decls| :: Built(uniforms[i], decls, i)
    ensures forall i, j | 0 <= i < j < |uniforms| :: uniforms[i] != uniforms[j]
    ensures Laid(uniforms) && bufferSize == EndOf(uniforms)
    ensures CStructLayout(uniforms) <==> forall d | d in decls :: d.isTexture || IsNumeric(d.ty)
  {
    hide CStructLayout, Laid, EndOf, LeastAligned, Align, MtlSize, MtlAlignment, IsNumeric, TexturesIn;
    uniforms, bufferSize := [], 0;
    var textureSlot := 0;
    NoUniforms();
    assert decls[..0] == [];
    for n := 0 to |decls|
      invariant |uniforms| == n
      invariant forall i | 0 <= i < n :: fresh(uniforms[i])
      invariant forall i | 0 <= i < n :: Built(uniforms[i], decls, i)
      invariant forall i, j | 0 <= i < j < n :: uniforms[i] != uniforms[j]
      invariant Laid(uniforms) && bufferSize == EndOf(uniforms)
      invariant textureSlot == TexturesIn(decls[..n])
    {
      var d := decls[n];
      var byteSize, bufferOffset := 0, bufferSize;
      if !d.isTexture {
        AlignIsNat(bufferSize, d.ty);
        byteSize := MtlSize(d.ty);
        bufferOffset := Align(bufferSize, MtlAlignment(d.ty));
      }
      var uniform := new ShaderUniform(d, if d.isTexture then textureSlot else 0, bufferOffset);
      LayoutExtends(uniforms, uniform);
      OneMoreTexture(decls, n);
      if d.isTexture {
        textureSlot := textureSlot + 1;
      }
      bufferSize := bufferOffset + byteSize;
      uniforms := uniforms + [uniform];
    }
    LaidIsCStructIff(uniforms);
    SameTypes(uniforms, decls);
  }

  lemma SameTypes(uniforms: seq<ShaderUniform>, decls: seq<Declaration>)
    requires |uniforms| == |decls| && forall i | 0 <= i < |decls| :: Built(uniforms[i], decls, i)
    ensures (forall i | 0 <= i < |uniforms| :: uniforms[i].isTexture || IsNumeric(uniforms[i].ty))
       <==> forall d | d in decls :: d.isTexture || IsNumeric(d.ty)
  {
    hide IsNumeric, TexturesIn;
    if forall i | 0 <= i < |uniforms| :: uniforms[i].isTexture || IsNumeric(uniforms[i].ty) {
      forall d | d in decls
        ensures d.isTexture || IsNumeric(d.ty)
      {
        var i :| 0 <= i < |decls| && decls[i] == d;
        assert Built(uniforms[i], decls, i);
      }
    } else {
      var i :| 0 <= i < |uniforms| && !(uniforms[i].isTexture || IsNumeric(uniforms[i].ty));
      assert Built(uniforms[i], decls, i) && decls[i] in decls;
    }
  }

  function TexturesIn(decls: seq<Declaration>): nat {
    if decls == [] then 0
    else TexturesIn(decls[..|decls| - 1]) + if decls[|decls| - 1].isTexture then 1 else 0
  }

  lemma OneMoreTexture(decls: seq<Declaration>, n: nat)
    requires n < |decls|
    ensures TexturesIn(decls[..n + 1]) == TexturesIn(decls[..n]) + if decls[n].isTexture then 1 else 0
  {
    assert decls[..n + 1][..n] == decls[..n];
  }

  /** Textures are numbered one after the other from 0. */
  lemma {:induction false} TexturesAreNumbered(decls: seq<Declaration>, i: nat, j: nat)
    requires i < j <= |decls| && forall k | i < k < j :: !decls[k].isTexture
    ensures decls[i].isTexture ==> TexturesIn(decls[..j]) == TexturesIn(decls[..i]) + 1
    ensures (forall k | 0 <= k < i :: !decls[k].isTexture) ==> TexturesIn(decls[..i]) == 0
  {
    if i > 0 {
      assert decls[..i][..i - 1] == decls[..i - 1];
      TexturesAreNumbered(decls, i - 1, i);
    }
    if j > i + 1 {
      assert decls[..j][..j - 1] == decls[..j - 1];
      TexturesAreNumbered(decls, i, j - 1);
    } else {
      assert decls[..j][..i] == decls[..i];
    }
  }

  lemma NoUniforms()
    ensures Laid([]) && EndOf([]) == 0 && TexturesIn([]) == 0
  {
  }

  lemma LayoutExtends(uniforms: seq<ShaderUniform>, u: ShaderUniform)
    requires Laid(uniforms) && LaidAt(u, EndOf(uniforms))
    ensures Laid(uniforms + [u]) && EndOf(uniforms + [u]) == u.byteOffset + u.Size()
  {
    var all := uniforms + [u];
    assert all[..|uniforms|] == uniforms;
    assert forall i | 0 <= i < |uniforms| :: all[..i] == uniforms[..i];
  }

  // ---------- Writing ----------

  /** A write inside one range leaves every other range and the size of the data alone. */
  lemma WriteElsewhere(data: Bytes, start: nat, v: Bytes, u: ShaderUniform)
    requires start + |v| <= |data| && u.byteOffset + u.Size() <= |data|
    requires start + |v| <= u.byteOffset || u.byteOffset + u.Size() <= start
    requires u.HeldBy(data)
    ensures u.HeldBy(data[..start] + v + data[start + |v|..])
  {
    var data' := data[..start] + v + data[start + |v|..];
    assert forall k | u.byteOffset <= k < u.byteOffset + u.Size() :: data'[k] == data[k];
  }

  lemma RoundedSize(size: nat)
    ensures size <= And(size + 0x0F, Not(0x0F)) < size + 16
  {
    assert Pow2(4) == 16;
    MaskRoundsDown(size + 0x0F, 4);
  }

  class MetalShader {
    const uniforms: seq<ShaderUniform>
    const uniformSize: nat
    var uniformData: Bytes

    ghost predicate Valid()
      reads this, uniforms
    {
      && |uniformData| == uniformSize
      && EndOf(uniforms) <= uniformSize < EndOf(uniforms) + 16
      && CStructLayout(uniforms)
      && (forall i, j | 0 <= i < j < |uniforms| :: uniforms[i] != uniforms[j])
      && forall i | 0 <= i < |uniforms| :: SlotValid(i)
    }

    ghost predicate SlotValid(i: nat)
      requires i < |uniforms|
      reads this, uniforms
    {
      var u := uniforms[i];
      u.byteOffset + u.Size() <= |uniformData| && (u.isTexture || (u.InStep() && u.HeldBy(uniformData)))
    }

    constructor (uniforms: seq<ShaderUniform>, bufferSize: nat)
      requires CStructLayout(uniforms) && bufferSize == EndOf(uniforms)
      requires forall i, j | 0 <= i < j < |uniforms| :: uniforms[i] != uniforms[j]
      requires forall i | 0 <= i < |uniforms| ::
                 !uniforms[i].hasUpdates && !uniforms[i].wasSet && uniforms[i].uploaded == None
      ensures Valid() && this.uniforms == uniforms
      ensures uniformData == seq(uniformSize, _ => 0)
    {
      hide And, Not, Pow2;
      RoundedSize(bufferSize);
      this.uniforms := uniforms;
      uniformSize := And(bufferSize + 0x0F, Not(0x0F));
      uniformData := seq(And(bufferSize + 0x0F, Not(0x0F)), _ => 0);
      new;
      forall i | 0 <= i < |uniforms|
        ensures SlotValid(i)
      {
        assert uniforms[..|uniforms|] == uniforms;
        LayoutOrdered(uniforms, i, |uniforms|);
      }
    }

    /** Setting a uniform leaves the data as it is until the next upload. */
    method SetUniform(i: nat, data: Bytes)
      requires Valid() && i < |uniforms|
      requires uniforms[i].isTexture || |data| <= uniforms[i].Size()
      modifies uniforms[i]
      ensures Valid() && uniformData == old(uniformData)
      ensures uniforms[i].currentValues == data && uniforms[i].wasSet && uniforms[i].hasUpdates
    {
      uniforms[i].SetParameter(Some(data));
      forall k | 0 <= k < |uniforms|
        ensures SlotValid(k)
      {
        assert old(SlotValid(k));
      }
    }

    /** The data after `replaceSubrange` at uniform `i`. */
    function Written(i: nat): Bytes
      requires i < |uniforms| && uniforms[i].byteOffset + |uniforms[i].currentValues| <= |uniformData|
      reads this, uniforms
    {
      var u := uniforms[i];
      uniformData[..u.byteOffset] + u.currentValues + uniformData[u.byteOffset + |u.currentValues|..]
    }

    lemma WriteKeepsOthers(i: nat)
      requires Valid() && i < |uniforms| && !uniforms[i].isTexture && uniforms[i].wasSet
      ensures uniforms[i].byteOffset + |uniforms[i].currentValues| <= |uniformData| == |Written(i)|
      ensures forall k | 0 <= k < |uniforms| && k != i && !uniforms[k].isTexture ::
                uniforms[k].byteOffset + uniforms[k].Size() <= |uniformData| && uniforms[k].HeldBy(Written(i))
    {
      hide CStructLayout, EndOf, ShaderUniform.HeldBy;
      assert SlotValid(i);
      forall k | 0 <= k < |uniforms| && k != i && !uniforms[k].isTexture
        ensures uniforms[k].byteOffset + uniforms[k].Size() <= |uniformData| && uniforms[k].HeldBy(Written(i))
      {
        assert SlotValid(k);
        LayoutDisjoint(uniforms, if k < i then k else i, if k < i then i else k);
        WriteElsewhere(uniformData, uniforms[i].byteOffset, uniforms[i].currentValues, uniforms[k]);
      }
    }

    /** The numeric branch of `updateUniform`; a texture goes to the render state instead. */
    method UpdateUniform(i: nat)
      requires Valid() && i < |uniforms|
      modifies this`uniformData, uniforms[i]
      ensures Valid()
      ensures !uniforms[i].hasUpdates
      ensures uniforms[i].wasSet == old(uniforms[i].wasSet)
      ensures uniforms[i].currentValues == old(uniforms[i].currentValues)
    {
      var uniform := uniforms[i];
      assert SlotValid(i);
      if !uniform.isTexture && uniform.hasUpdates {
        WriteKeepsOthers(i);
        uniformData := Written(i);
        uniform.uploaded := Some(uniform.currentValues);
      }
      uniform.hasUpdates := false;
      forall k | 0 <= k < |uniforms|
        ensures SlotValid(k)
      {
        assert old(SlotValid(k));
      }
    }

    /**
      Uploading before a draw: the bytes handed to the encoder hold, for every uniform that was ever
      set, its current value at its own offset.
     */
    method UploadShaderParameters() returns (bytes: Option<Bytes>)
      requires Valid()
      modifies this`uniformData, uniforms
      ensures Valid()
      ensures bytes == if uniformSize > 0 then Some(uniformData) else None
      ensures forall i | 0 <= i < |uniforms| ::
                && !uniforms[i].hasUpdates
                && uniforms[i].wasSet == old(uniforms[i].wasSet)
                && uniforms[i].currentValues == old(uniforms[i].currentValues)
      ensures forall i | 0 <= i < |uniforms| && !uniforms[i].isTexture :: uniforms[i].ShownBy(uniformData)
    {
      hide CStructLayout, EndOf;
      for n := 0 to |uniforms|
        invariant Valid()
        invariant forall i | 0 <= i < n :: !uniforms[i].hasUpdates
        invariant forall i | 0 <= i < |uniforms| ::
                    && uniforms[i].wasSet == old(uniforms[i].wasSet)
                    && uniforms[i].currentValues == old(uniforms[i].currentValues)
      {
        UpdateUniform(n);
      }
      forall i | 0 <= i < |uniforms| && !uniforms[i].isTexture
        ensures uniforms[i].ShownBy(uniformData)
      {
        assert SlotValid(i);
      }
      bytes := if uniformSize > 0 then Some(uniformData) else None;
    }
  }
}
