/**
  Binding vertex streams on the Direct3D 11 device. The device skips the binding when the current
  buffer and shader have the addresses of the last bound ones, and an address may be used again.
 */
module VertexBinding {
  import opened Wrappers
  import opened VertexStreams

  type Address = nat

  const NULL: Address := 0

  /** The streams `MakeBufferList` lists for a buffer and a shader. */
  function ListFor(vb: VertexData, vs: ShaderInfo): seq<Option<Stream>> {
    var streams := StreamsFor(vb, vs.hasNormals, vs.hasColors, vs.hasTangents, vs.nTexUnits);
    seq(|streams|, i requires 0 <= i < |streams| => Some(streams[i]))
  }

  /** The shader has the flags and the count of this layout. */
  ghost predicate IsFor(vs: ShaderInfo, raw: seq<Element>) {
    && vs.hasNormals == Has(raw, Normal) && vs.hasColors == Has(raw, Color) && vs.hasTangents == Has(raw, Tangent)
    && vs.nTexUnits == CountTex(raw)
  }

  /** At the slot of the element is the stream it must read. */
  ghost predicate FindsStream(raw: seq<Element>, i: nat, vb: VertexData, slots: seq<Option<Stream>>) {
    i < |Slotted(raw)| && var n := Slotted(raw)[i].slot;
    i < |raw| && n < |slots| && slots[n].Some? && Reads(raw[i], vb, slots[n].value)
  }

  /** Every element of any layout of the shader that the buffer provides for finds its stream. */
  ghost predicate EachFindsStream(vb: VertexData, vs: ShaderInfo, slots: seq<Option<Stream>>) {
    forall raw, i | WellFormed(raw) && IsFor(vs, raw) && Provides(vb, raw) && 0 <= i < |raw| ::
      FindsStream(raw, i, vb, slots)
  }

  lemma ListIsRead(vb: VertexData, vs: ShaderInfo, slots: seq<Option<Stream>>)
    requires ListFor(vb, vs) <= slots
    ensures EachFindsStream(vb, vs, slots)
  {
    hide WellFormed, Provides, Reads, Has, CountTex, StreamsFor, Slotted;
    forall raw, i | WellFormed(raw) && IsFor(vs, raw) && Provides(vb, raw) && 0 <= i < |raw|
      ensures FindsStream(raw, i, vb, slots)
    {
      StreamsAgree(vb, raw, i);
      SlottedKeeps(raw);
      SlottedLength(raw);
      var n := Slotted(raw)[i].slot;
      assert slots[n] == ListFor(vb, vs)[n];
    }
  }

  lemma SlottedLength(raw: seq<Element>)
    ensures |Slotted(raw)| == |raw|
  {
  }

  class Device {
    var curVertexBuffer: Address
    var curVertexShader: Address
    var lastVertexBuffer: Address
    var lastVertexShader: Address
    var buffers: map<Address, VertexData>   // the objects in memory
    var shaders: map<Address, ShaderInfo>
    ghost var slots: seq<Option<Stream>>    // the input slots of the context

    /** The slots begin with exactly these streams. */
    ghost predicate Bound(list: seq<Option<Stream>>)
      reads this
    {
      list <= slots
    }

    /** The streams of the pair bound last, if both objects still exist. */
    ghost predicate Valid()
      reads this
    {
      && ObjectsValid()
      && (lastVertexBuffer != NULL && lastVertexShader != NULL ==>
            && lastVertexBuffer in buffers && lastVertexShader in shaders
            && Bound(ListFor(buffers[lastVertexBuffer], shaders[lastVertexShader])))
    }

    /** A vertex buffer cannot be created without points. */
    ghost predicate ObjectsValid()
      reads this
    {
      && NULL !in buffers && NULL !in shaders
      && forall a | a in buffers :: buffers[a].vertexBuffer.Some?
    }

    constructor ()
      ensures Valid() && buffers == map[] && shaders == map[]
    {
      curVertexBuffer, curVertexShader, lastVertexBuffer, lastVertexShader := NULL, NULL, NULL, NULL;
      buffers, shaders, slots := map[], map[], [];
    }

    /** The allocator may return any address that is not in use, also one used before. */
    method CreateVertexBuffer(a: Address, data: VertexData)
      requires Valid() && a != NULL && a !in buffers && data.vertexBuffer.Some?
      modifies this`buffers
      ensures Valid() && buffers == old(buffers)[a := data]
    {
      buffers := buffers[a := data];
    }

    method CreateVertexShader(a: Address, info: ShaderInfo)
      requires Valid() && a != NULL && a !in shaders
      modifies this`shaders
      ensures Valid() && shaders == old(shaders)[a := info]
    {
      shaders := shaders[a := info];
    }

    method DestroyVertexBuffer(a: Address)
      requires Valid() && a in buffers
      modifies this`buffers, this`lastVertexBuffer
      ensures Valid() && buffers == old(buffers) - {a}
    {
      if lastVertexBuffer == a {
        lastVertexBuffer := NULL;
      }
      buffers := buffers - {a};
    }

    method DestroyShader(a: Address)
      requires Valid() && a in shaders
      modifies this`shaders, this`lastVertexShader
      ensures Valid() && shaders == old(shaders) - {a}
    {
      if lastVertexShader == a {
        lastVertexShader := NULL;
      }
      shaders := shaders - {a};
    }

    method LoadVertexBuffer(a: Address)
      modifies this`curVertexBuffer
      ensures curVertexBuffer == a && (old(Valid()) ==> Valid())
    {
      if curVertexBuffer == a {
        return;
      }
      curVertexBuffer := a;
    }

    method LoadVertexShader(a: Address)
      modifies this`curVertexShader
      ensures curVertexShader == a && (old(Valid()) ==> Valid())
    {
      if curVertexShader == a {
        return;
      }
      curVertexShader := a;
    }

    ghost predicate SkipsBinding()
      reads this
    {
      curVertexBuffer == lastVertexBuffer && curVertexShader == lastVertexShader
    }

    /** `LoadVertexBufferData`: without a buffer the expected slots are emptied, unless the binding is skipped. */
    method LoadVertexBufferData()
      requires ObjectsValid()
      requires curVertexBuffer == NULL || curVertexBuffer in buffers
      requires curVertexShader == NULL || curVertexShader in shaders
      modifies this`lastVertexBuffer, this`lastVertexShader, this`slots
      ensures old(Valid()) ==> Valid()
      ensures lastVertexBuffer == curVertexBuffer && lastVertexShader == curVertexShader
      ensures old(SkipsBinding()) ==> slots == old(slots)
      ensures !old(SkipsBinding()) && curVertexBuffer != NULL && curVertexShader != NULL ==>
                Bound(ListFor(buffers[curVertexBuffer], shaders[curVertexShader]))
      ensures (old(Valid()) || !old(SkipsBinding())) && curVertexBuffer != NULL && curVertexShader != NULL ==>
                EachFindsStream(buffers[curVertexBuffer], shaders[curVertexShader], slots)
      ensures !old(SkipsBinding()) && curVertexBuffer == NULL && curVertexShader != NULL ==>
                Bound(seq(shaders[curVertexShader].NumBuffersExpected(), _ => None))
    {
      if curVertexBuffer == lastVertexBuffer && curVertexShader == lastVertexShader {
        if Valid() && curVertexBuffer != NULL && curVertexShader != NULL {
          ListIsRead(buffers[curVertexBuffer], shaders[curVertexShader], slots);
        }
        return;
      }
      var list: seq<Option<Stream>> := [];
      if curVertexBuffer != NULL && curVertexShader != NULL {
        list := ListFor(buffers[curVertexBuffer], shaders[curVertexShader]);
      } else if curVertexShader != NULL {
        list := seq(shaders[curVertexShader].NumBuffersExpected(), _ => None);
      }
      slots := list + if |list| <= |slots| then slots[|list|..] else [];
      lastVertexBuffer := curVertexBuffer;
      lastVertexShader := curVertexShader;
      if curVertexBuffer != NULL && curVertexShader != NULL {
        ListIsRead(buffers[curVertexBuffer], shaders[curVertexShader], slots);
      }
    }

    /**
      A draw with a vertex buffer loaded reads the streams of the current buffer and shader, whatever
      addresses were used before. The flags say whether there is a pixel shader and a target, and whether
      the updates after the binding succeed.
     */
    method Draw(numVerts: nat, ready: bool, updated: bool) returns (drawn: bool)
      requires Valid()
      requires curVertexBuffer == NULL || curVertexBuffer in buffers
      requires curVertexShader == NULL || curVertexShader in shaders
      modifies this`lastVertexBuffer, this`lastVertexShader, this`slots
      ensures Valid()
      ensures drawn <==> curVertexShader != NULL && (curVertexBuffer != NULL || numVerts != 0) && ready && updated
      ensures drawn && curVertexBuffer != NULL ==>
                EachFindsStream(buffers[curVertexBuffer], shaders[curVertexShader], slots)
    {
      if curVertexShader == NULL || (curVertexBuffer == NULL && numVerts == 0) || !ready {
        return false;
      }
      LoadVertexBufferData();
      return updated;
    }

    /**
      `RebuildDevice` clears the context and recreates the buffers but keeps the addresses of the last
      binding: the state stays valid exactly when one of them was null.
     */
    method RebuildDevice(rebuilt: map<Address, VertexData>)
      requires Valid() && rebuilt.Keys == buffers.Keys
      requires forall a | a in rebuilt :: rebuilt[a].vertexBuffer.Some?
      modifies this
      ensures ObjectsValid() && buffers == rebuilt && shaders == old(shaders)
      ensures lastVertexBuffer == old(lastVertexBuffer) && lastVertexShader == old(lastVertexShader)
      ensures curVertexBuffer == NULL && curVertexShader == NULL && slots == []
      ensures Valid() <==> lastVertexBuffer == NULL || lastVertexShader == NULL
    {
      curVertexBuffer, curVertexShader, slots := NULL, NULL, [];
      buffers := rebuilt;
      if lastVertexBuffer != NULL && lastVertexShader != NULL {
        ListNotEmpty(buffers[lastVertexBuffer], shaders[lastVertexShader]);
      }
    }

    /** The first draw after a rebuild reads its streams exactly when it is not with the pair bound before. */
    method DrawAfterRebuild(rebuilt: map<Address, VertexData>, vb: Address, vs: Address)
      requires Valid() && rebuilt.Keys == buffers.Keys
      requires forall a | a in rebuilt :: rebuilt[a].vertexBuffer.Some?
      requires vb in buffers && vs in shaders
      modifies this
      ensures vb in buffers && vs in shaders
      ensures Bound(ListFor(buffers[vb], shaders[vs])) <==> (vb, vs) != (old(lastVertexBuffer), old(lastVertexShader))
      ensures if (vb, vs) != (old(lastVertexBuffer), old(lastVertexShader))
              then EachFindsStream(buffers[vb], shaders[vs], slots) else slots == []
    {
      RebuildDevice(rebuilt);
      LoadVertexBuffer(vb);
      LoadVertexShader(vs);
      ListNotEmpty(buffers[vb], shaders[vs]);
      LoadVertexBufferData();
    }
  }

  lemma ListNotEmpty(vb: VertexData, vs: ShaderInfo)
    requires vb.vertexBuffer.Some?
    ensures |ListFor(vb, vs)| > 0
  {
  }
}
