/**
  The depth-stencil, rasterizer and blend states of the Direct3D 11 device: setters change a requested
  state and raise a flag, and before a draw each requested state is looked up in, or added to, a list of
  state objects.
 */
module StateCaches {
  /** A state object on the GPU, created from the descriptor of a requested state. */
  class StateObject<K> {
    const descriptor: K

    constructor (descriptor: K)
      ensures this.descriptor == descriptor
    {
      this.descriptor := descriptor;
    }
  }

  /** A saved state: the key and its object, which is null while a lost device is being rebuilt. */
  datatype Saved<!K> = Saved(key: K, state: StateObject?<K>)

  ghost predicate Distinct<K>(saved: seq<Saved<K>>) {
    forall i, j | 0 <= i < j < |saved| :: saved[i].key != saved[j].key
  }

  /** One of the three identical caches of the device. */
  class StateCache<K(==)> {
    var requested: K
    var changed: bool
    var saved: seq<Saved<K>>
    var current: StateObject?<K>
    ghost var bound: StateObject?<K>  // what the context has bound

    ghost predicate Filled()
      reads this
    {
      forall i | 0 <= i < |saved| :: saved[i].state != null && saved[i].state.descriptor == saved[i].key
    }

    ghost predicate Valid()
      reads this
    {
      && Distinct(saved) && Filled()
      && bound == current
      && (!changed ==> current != null && current.descriptor == requested)
    }

    constructor (initial: K)
      ensures Valid() && requested == initial && saved == []
    {
      requested, changed, saved, current, bound := initial, true, [], null, null;
    }

    /** A setter that compares first: the flag is raised only when something changes. */
    method Request(k: K)
      requires Valid()
      modifies this`requested, this`changed
      ensures Valid() && requested == k
      ensures changed == (old(changed) || k != old(requested))
    {
      if k == requested {
        return;
      }
      requested := k;
      changed := true;
    }

    /** A setter that always raises the flag. */
    method RequestAlways(k: K)
      requires Valid()
      modifies this`requested, this`changed
      ensures Valid() && requested == k && changed
    {
      requested := k;
      changed := true;
    }

    /** `Add*State`; a missing object is a failed creation, which is thrown before the list grows. */
    method Add(created: StateObject?<K>) returns (state: StateObject?<K>)
      requires Valid()
      requires forall i | 0 <= i < |saved| :: saved[i].key != requested
      requires created != null ==> created.descriptor == requested
      modifies this`saved
      ensures Valid() && state == created
      ensures created == null ==> unchanged(this)
      ensures created != null ==> saved == old(saved) + [Saved(requested, created)]
    {
      if created != null {
        saved := saved + [Saved(requested, created)];
      }
      return created;
    }

    /**
      `Update*State`: unless a creation was needed and failed, the bound object is one created from
      exactly the requested state. A failed creation changes nothing.
     */
    method Update(created: StateObject?<K>) returns (ok: bool)
      requires Valid()
      requires created != null ==> created.descriptor == requested
      modifies this`changed, this`saved, this`current, this`bound
      ensures Valid()
      ensures ok
         <==> !old(changed) || created != null
              || exists i | 0 <= i < |old(saved)| :: old(saved)[i].key == requested
      ensures ok ==> !changed && bound != null && bound.descriptor == requested
      ensures !ok ==> unchanged(this)
      ensures old(saved) <= saved
    {
      if !changed {
        return true;
      }
      var state: StateObject?<K> := null;
      for i := 0 to |saved|
        invariant state == null
        invariant unchanged(this)
        invariant forall j | 0 <= j < i :: saved[j].key != requested
      {
        if saved[i].key == requested {
          state := saved[i].state;
          break;
        }
      }
      if state == null {
        state := Add(created);
        if state == null {
          return false;
        }
      }
      if state != current {
        bound := state;
        current := state;
      }
      changed := false;
      return true;
    }

    /** The part of `RebuildDevice` before the objects are recreated. */
    method Release()
      requires Valid()
      modifies this`saved, this`bound
      ensures |saved| == |old(saved)| && requested == old(requested)
      ensures forall i | 0 <= i < |saved| :: saved[i] == Saved(old(saved)[i].key, null)
      ensures bound == null
    {
      for i := 0 to |saved|
        invariant |saved| == |old(saved)|
        invariant forall j | 0 <= j < i :: saved[j] == Saved(old(saved)[j].key, null)
        invariant forall j | i <= j < |saved| :: saved[j] == old(saved)[j]
      {
        saved := saved[i := Saved(saved[i].key, null)];
      }
      bound := null;
    }

    /** The part of `RebuildDevice` that recreates every saved state from its own descriptor. */
    method Rebuild(created: seq<StateObject<K>>)
      requires Distinct(saved) && |created| == |saved| && bound == null
      requires forall i | 0 <= i < |saved| :: created[i].descriptor == saved[i].key
      modifies this`changed, this`current, this`saved
      ensures Valid() && changed && current == null
      ensures |saved| == |old(saved)| && forall i | 0 <= i < |saved| :: saved[i] == Saved(old(saved)[i].key, created[i])
    {
      changed := true;
      current := null;
      for i := 0 to |saved|
        invariant changed && current == null && |saved| == |old(saved)|
        invariant forall j | 0 <= j < i :: saved[j] == Saved(old(saved)[j].key, created[j])
        invariant forall j | i <= j < |saved| :: saved[j] == old(saved)[j]
      {
        saved := saved[i := Saved(saved[i].key, created[i])];
      }
    }
  }

  // ---------- The three states and their setters ----------

  datatype DepthTest = Never | Less | LEqual | Equal | GEqual | Greater | NotEqual | Always
  datatype StencilOp = Keep | ZeroOp | Replace | Incr | Decr | Invert
  datatype StencilSide = StencilSide(test: DepthTest, fail: StencilOp, zfail: StencilOp, zpass: StencilOp)
  datatype Side = Front | Back | Both

  datatype ZStencilState = ZStencilState(
    depthEnabled: bool, depthWriteEnabled: bool, depthFunc: DepthTest,
    stencilEnabled: bool, stencilWriteEnabled: bool, stencilFront: StencilSide, stencilBack: StencilSide)

  datatype CullMode = CullBack | CullFront | CullNeither
  datatype RasterState = RasterState(cullMode: CullMode, scissorEnabled: bool)

  datatype BlendType = ZeroFactor | One | SrcColor | InvSrcColor | SrcAlpha | InvSrcAlpha
                     | DstColor | InvDstColor | DstAlpha | InvDstAlpha | SrcAlphaSat
  datatype BlendOp = AddOp | Subtract | ReverseSubtract | MinOp | MaxOp
  datatype BlendState = BlendState(
    blendEnabled: bool, srcFactorC: BlendType, destFactorC: BlendType, srcFactorA: BlendType, destFactorA: BlendType,
    op: BlendOp, redEnabled: bool, greenEnabled: bool, blueEnabled: bool, alphaEnabled: bool)

  const PLAIN_SIDE := StencilSide(Always, Keep, Keep, Keep)

  class Device {
    const zstencil: StateCache<ZStencilState>
    const raster: StateCache<RasterState>
    const blend: StateCache<BlendState>

    ghost predicate Valid()
      reads this, zstencil, raster, blend
    {
      zstencil.Valid() && raster.Valid() && blend.Valid()
    }

    constructor ()
      ensures Valid() && fresh(zstencil) && fresh(raster) && fresh(blend)
    {
      zstencil := new StateCache(ZStencilState(true, true, Less, false, true, PLAIN_SIDE, PLAIN_SIDE));
      raster := new StateCache(RasterState(CullBack, false));
      blend := new StateCache(BlendState(true, SrcAlpha, InvSrcAlpha, One, InvSrcAlpha, AddOp, true, true, true, true));
    }

    method SetCullMode(mode: CullMode)
      requires Valid()
      modifies raster
      ensures Valid() && raster.requested == old(raster.requested).(cullMode := mode)
    {
      raster.Request(raster.requested.(cullMode := mode));
    }

    method SetScissorRect(present: bool)
      requires Valid()
      modifies raster
      ensures Valid() && raster.requested == old(raster.requested).(scissorEnabled := present)
    {
      raster.RequestAlways(raster.requested.(scissorEnabled := present));
    }

    method EnableBlending(enable: bool)
      requires Valid()
      modifies blend
      ensures Valid() && blend.requested == old(blend.requested).(blendEnabled := enable)
    {
      blend.Request(blend.requested.(blendEnabled := enable));
    }

    method EnableColor(red: bool, green: bool, blue: bool, alpha: bool)
      requires Valid()
      modifies blend
      ensures Valid()
      ensures blend.requested ==
              old(blend.requested).(redEnabled := red, greenEnabled := green, blueEnabled := blue,
                                    alphaEnabled := alpha)
    {
      blend.Request(
        blend.requested.(redEnabled := red, greenEnabled := green, blueEnabled := blue, alphaEnabled := alpha));
    }

    method BlendFunction(src: BlendType, dest: BlendType)
      requires Valid()
      modifies blend
      ensures Valid()
      ensures blend.requested ==
              old(blend.requested).(srcFactorC := src, destFactorC := dest, srcFactorA := src, destFactorA := dest)
    {
      BlendFunctionSeparate(src, dest, src, dest);
    }

    method BlendFunctionSeparate(srcC: BlendType, destC: BlendType, srcA: BlendType, destA: BlendType)
      requires Valid()
      modifies blend
      ensures Valid()
      ensures blend.requested ==
              old(blend.requested).(srcFactorC := srcC, destFactorC := destC, srcFactorA := srcA, destFactorA := destA)
    {
      blend.Request(
        blend.requested.(srcFactorC := srcC, destFactorC := destC, srcFactorA := srcA, destFactorA := destA));
    }

    method SetBlendOp(op: BlendOp)
      requires Valid()
      modifies blend
      ensures Valid() && blend.requested == old(blend.requested).(op := op)
    {
      blend.Request(blend.requested.(op := op));
    }

    method EnableDepthTest(enable: bool)
      requires Valid()
      modifies zstencil
      ensures Valid() && zstencil.requested == old(zstencil.requested).(depthEnabled := enable)
    {
      zstencil.Request(zstencil.requested.(depthEnabled := enable));
    }

    method EnableStencilTest(enable: bool)
      requires Valid()
      modifies zstencil
      ensures Valid() && zstencil.requested == old(zstencil.requested).(stencilEnabled := enable)
    {
      zstencil.Request(zstencil.requested.(stencilEnabled := enable));
    }

    method EnableStencilWrite(enable: bool)
      requires Valid()
      modifies zstencil
      ensures Valid() && zstencil.requested == old(zstencil.requested).(stencilWriteEnabled := enable)
    {
      zstencil.Request(zstencil.requested.(stencilWriteEnabled := enable));
    }

    method DepthFunction(test: DepthTest)
      requires Valid()
      modifies zstencil
      ensures Valid() && zstencil.requested == old(zstencil.requested).(depthFunc := test)
    {
      zstencil.Request(zstencil.requested.(depthFunc := test));
    }

    method StencilFunction(side: Side, test: DepthTest)
      requires Valid()
      modifies zstencil
      ensures Valid()
      ensures var was, now := old(zstencil.requested), zstencil.requested;
              && now.stencilFront == (if side == Back then was.stencilFront else was.stencilFront.(test := test))
              && now.stencilBack == (if side == Front then was.stencilBack else was.stencilBack.(test := test))
              && now == was.(stencilFront := now.stencilFront, stencilBack := now.stencilBack)
    {
      if side != Back {
        zstencil.Request(zstencil.requested.(stencilFront := zstencil.requested.stencilFront.(test := test)));
      }
      if side != Front {
        zstencil.Request(zstencil.requested.(stencilBack := zstencil.requested.stencilBack.(test := test)));
      }
    }

    method SetStencilOp(side: Side, fail: StencilOp, zfail: StencilOp, zpass: StencilOp)
      requires Valid()
      modifies zstencil
      ensures Valid()
      ensures var was, now := old(zstencil.requested), zstencil.requested;
              && now.stencilFront == (if side == Back then was.stencilFront
                                      else was.stencilFront.(fail := fail, zfail := zfail, zpass := zpass))
              && now.stencilBack == (if side == Front then was.stencilBack
                                     else was.stencilBack.(fail := fail, zfail := zfail, zpass := zpass))
              && now == was.(stencilFront := now.stencilFront, stencilBack := now.stencilBack)
    {
      if side != Back {
        zstencil.Request(zstencil.requested.(
          stencilFront := zstencil.requested.stencilFront.(fail := fail, zfail := zfail, zpass := zpass)));
      }
      if side != Front {
        zstencil.Request(zstencil.requested.(
          stencilBack := zstencil.requested.stencilBack.(fail := fail, zfail := zfail, zpass := zpass)));
      }
    }

    /**
      The three updates of a draw, in order; the first failed creation ends the draw. When the draw goes on, all
      three bound objects come from exactly the requested states.
     */
    method UpdateStates(b: StateObject?<BlendState>, r: StateObject?<RasterState>, z: StateObject?<ZStencilState>)
      returns (ok: bool)
      requires Valid()
      requires b != null ==> b.descriptor == blend.requested
      requires r != null ==> r.descriptor == raster.requested
      requires z != null ==> z.descriptor == zstencil.requested
      modifies zstencil, raster, blend
      ensures Valid()
      ensures blend.requested == old(blend.requested) && raster.requested == old(raster.requested)
      ensures zstencil.requested == old(zstencil.requested)
      ensures b != null && r != null && z != null ==> ok
      ensures ok ==>
                && blend.bound != null && blend.bound.descriptor == blend.requested
                && raster.bound != null && raster.bound.descriptor == raster.requested
                && zstencil.bound != null && zstencil.bound.descriptor == zstencil.requested
    {
      ok := blend.Update(b);
      if ok {
        ok := raster.Update(r);
      }
      if ok {
        ok := zstencil.Update(z);
      }
    }

    /** `RebuildDevice`: every saved object is released, then recreated from its own descriptor on the new device. */
    method RebuildStates(zs: seq<StateObject<ZStencilState>>, rs: seq<StateObject<RasterState>>,
                         bs: seq<StateObject<BlendState>>)
      requires Valid()
      requires |zs| == |zstencil.saved| && forall i | 0 <= i < |zs| :: zs[i].descriptor == zstencil.saved[i].key
      requires |rs| == |raster.saved| && forall i | 0 <= i < |rs| :: rs[i].descriptor == raster.saved[i].key
      requires |bs| == |blend.saved| && forall i | 0 <= i < |bs| :: bs[i].descriptor == blend.saved[i].key
      modifies zstencil, raster, blend
      ensures Valid()
      ensures zstencil.requested == old(zstencil.requested) && raster.requested == old(raster.requested)
      ensures blend.requested == old(blend.requested)
      ensures zstencil.bound == null && raster.bound == null && blend.bound == null
    {
      zstencil.Release();
      raster.Release();
      blend.Release();
      zstencil.Rebuild(zs);
      raster.Rebuild(rs);
      blend.Rebuild(bs);
    }
  }
}
