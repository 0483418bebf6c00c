/**
  Render targets of the Direct3D 11 device: output views are bound lazily, just before a draw, and a
  target that was not chosen explicitly is the one of the current swap chain.
 */
module OutputBinding {
  import opened Wrappers

  type View = nat

  datatype TextureType = Texture2D | Texture3D | TextureCube

  type Views = v: seq<Option<View>> | |v| == 6 witness [None, None, None, None, None, None]

  class Texture {
    const kind: TextureType
    var renderTarget: Views
    var renderTargetLinear: Views

    constructor (kind: TextureType, renderTarget: Views, renderTargetLinear: Views)
      ensures this.kind == kind
    {
      this.kind, this.renderTarget, this.renderTargetLinear := kind, renderTarget, renderTargetLinear;
    }
  }

  class ZStencil {
    var view: Option<View>

    constructor (view: Option<View>) {
      this.view := view;
    }
  }

  datatype ColorSpace = Srgb | Srgb16F | Extended709 | Scrgb709

  class SwapChain {
    const target: Texture
    const zs: ZStencil
    var space: ColorSpace

    constructor (renderTarget: Views, renderTargetLinear: Views, depth: Option<View>, space: ColorSpace)
      ensures fresh(target) && fresh(zs) && target.kind == Texture2D
    {
      target := new Texture(Texture2D, renderTarget, renderTargetLinear);
      zs := new ZStencil(depth);
      this.space := space;
    }
  }

  /** The output views bound on the context. */
  datatype Binding = Binding(rtv: Option<View>, dsv: Option<View>)

  const NOTHING := Binding(None, None)

  class Device {
    var curRenderTarget: Texture?
    var curZStencilBuffer: ZStencil?
    var curRenderSide: nat
    var curColorSpace: ColorSpace
    var curFramebufferSrgb: bool
    var curFramebufferInvalidate: bool
    var curSwapChain: SwapChain?
    ghost var bound: Binding             // what the context has bound
    ghost var chains: set<SwapChain>     // the swap chains that exist
    ghost var chosenColor: Texture?      // the caller's last accepted choices; null is the default
    ghost var chosenDepth: ZStencil?

    /** The views an eager device would have bound. */
    ghost function Selected(): Binding
      requires curRenderSide < 6
      reads this, curRenderTarget, curZStencilBuffer
    {
      Binding(
        if curRenderTarget == null then None
        else if curFramebufferSrgb then curRenderTarget.renderTargetLinear[curRenderSide]
        else curRenderTarget.renderTarget[curRenderSide],
        if curZStencilBuffer == null then None else curZStencilBuffer.view)
    }

    ghost predicate Coherent()
      requires curRenderSide < 6
      reads this, curRenderTarget, curZStencilBuffer
    {
      !curFramebufferInvalidate ==> bound == Selected()
    }

    /** No two swap chains share a target, and every target is a plain 2D texture. */
    ghost predicate ChainsValid()
      reads this
    {
      && (forall s | s in chains :: s.target.kind == Texture2D)
      && (forall s, t | s in chains && t in chains && (s.target == t.target || s.zs == t.zs) :: s == t)
      && (curSwapChain != null ==> curSwapChain in chains)
    }

    /** The texture is the caller's own, not the target of a swap chain. */
    ghost predicate OwnTexture(tex: Texture?)
      reads this
    {
      forall s | s in chains :: s.target != tex
    }

    ghost predicate OwnDepth(zs: ZStencil?)
      reads this
    {
      forall s | s in chains :: s.zs != zs
    }

    function ResolveColor(tex: Texture?): Texture?
      reads this
    {
      if tex == null && curSwapChain != null then curSwapChain.target else tex
    }

    function ResolveDepth(zs: ZStencil?): ZStencil?
      reads this
    {
      if zs == null && curSwapChain != null then curSwapChain.zs else zs
    }

    /** What holds also in the middle of a swap chain switch. */
    ghost predicate Basic()
      reads this, curRenderTarget, curZStencilBuffer
    {
      && ChainsValid()
      && curRenderSide < 6
      && (curRenderTarget != null ==> curRenderTarget.kind != Texture3D)
      && (curRenderSide != 0 ==> curRenderTarget != null && curRenderTarget.kind == TextureCube)
      && OwnTexture(chosenColor) && OwnDepth(chosenDepth)
      && Coherent()
    }

    /** An explicit choice is in force, and a default one is the current swap chain's own. */
    ghost predicate Valid()
      reads this, curRenderTarget, curZStencilBuffer
    {
      && Basic()
      && curRenderTarget == ResolveColor(chosenColor)
      && curZStencilBuffer == ResolveDepth(chosenDepth)
    }

    constructor ()
      ensures Valid() && chosenColor == null && chosenDepth == null && curSwapChain == null
    {
      curRenderTarget, curZStencilBuffer, curRenderSide := null, null, 0;
      curColorSpace, curFramebufferSrgb, curFramebufferInvalidate := Srgb, false, false;
      curSwapChain := null;
      bound, chains, chosenColor, chosenDepth := NOTHING, {}, null, null;
    }

    method CreateSwapChain(renderTarget: Views, renderTargetLinear: Views, depth: Option<View>, space: ColorSpace)
      returns (s: SwapChain)
      requires Valid()
      modifies this`chains
      ensures Valid() && fresh(s) && chains == old(chains) + {s}
    {
      s := new SwapChain(renderTarget, renderTargetLinear, depth, space);
      chains := chains + {s};
    }

    /** Whether these targets are in force, whatever the side. */
    predicate HasTargets(tex: Texture?, zs: ZStencil?)
      reads this
    {
      curRenderTarget == ResolveColor(tex) && curZStencilBuffer == ResolveDepth(zs)
    }

    /** `device_set_render_target_internal`; a texture that is not 2D is refused. */
    method SetRenderTargetInternal(tex: Texture?, zs: ZStencil?, space: ColorSpace) returns (accepted: bool)
      requires Basic()
      modifies this`curRenderTarget, this`curZStencilBuffer, this`curRenderSide, this`curColorSpace,
               this`curFramebufferInvalidate
      ensures Basic()
      ensures accepted <==> ResolveColor(tex) == null || ResolveColor(tex).kind == Texture2D
      ensures accepted ==> curRenderTarget == ResolveColor(tex) && curZStencilBuffer == ResolveDepth(zs)
      ensures accepted ==> curRenderSide == 0 && curColorSpace == space
      ensures !accepted ==> unchanged(this`curRenderTarget, this`curZStencilBuffer, this`curRenderSide)
      ensures !accepted ==> curColorSpace == if old(HasTargets(tex, zs)) then space else old(curColorSpace)
      ensures curFramebufferInvalidate
         <==> old(curFramebufferInvalidate) || (accepted && !old(HasTargets(tex, zs) && curRenderSide == 0))
    {
      var target, depth := ResolveColor(tex), ResolveDepth(zs);
      if curRenderTarget == target && curZStencilBuffer == depth {
        curColorSpace := space;
      }
      if target != null && target.kind != Texture2D {
        return false;
      }
      if curRenderTarget != target || curRenderSide != 0 || curZStencilBuffer != depth {
        curRenderTarget, curZStencilBuffer, curRenderSide := target, depth, 0;
        curColorSpace := space;
        curFramebufferInvalidate := true;
      }
      return true;
    }

    method SetRenderTarget(tex: Texture?, zs: ZStencil?, space: ColorSpace)
      requires Valid() && OwnTexture(tex) && OwnDepth(zs)
      modifies this`curRenderTarget, this`curZStencilBuffer, this`curRenderSide, this`curColorSpace,
               this`curFramebufferInvalidate, this`chosenColor, this`chosenDepth
      ensures Valid()
      ensures if tex == null || tex.kind == Texture2D
              then chosenColor == tex && chosenDepth == zs && curRenderSide == 0 && curColorSpace == space
              else unchanged(this`chosenColor, this`chosenDepth, this`curRenderSide, this`curFramebufferInvalidate)
                   && curColorSpace == if old(HasTargets(tex, zs)) then space else old(curColorSpace)
    {
      var accepted := SetRenderTargetInternal(tex, zs, space);
      if accepted {
        chosenColor, chosenDepth := tex, zs;
      }
    }

    /** Whether the requested cube side is already in force. */
    predicate InForce(tex: Texture?, side: nat, zs: ZStencil?)
      reads this
    {
      HasTargets(tex, zs) && curRenderSide == if tex == null && curSwapChain != null then 0 else side
    }

    /** `device_set_cube_render_target`; a texture that is not a cube is refused unless it is already in force. */
    method SetCubeRenderTargetInternal(tex: Texture?, side: nat, zs: ZStencil?) returns (accepted: bool)
      requires Basic() && side < 6
      requires ResolveColor(tex) == null ==> InForce(tex, side, zs)
      modifies this`curRenderTarget, this`curZStencilBuffer, this`curRenderSide, this`curColorSpace,
               this`curFramebufferInvalidate
      ensures Basic()
      ensures accepted <==> old(InForce(tex, side, zs)) || ResolveColor(tex).kind == TextureCube
      ensures accepted ==> InForce(tex, side, zs)
      ensures !accepted || old(InForce(tex, side, zs)) ==> unchanged(this)
      ensures accepted && !old(InForce(tex, side, zs)) ==> curColorSpace == Srgb && curFramebufferInvalidate
    {
      var target, depth, face := tex, zs, side;
      if curSwapChain != null {
        if target == null {
          target, face := curSwapChain.target, 0;
        }
        if depth == null {
          depth := curSwapChain.zs;
        }
      }
      if curRenderTarget == target && curRenderSide == face && curZStencilBuffer == depth {
        return true;
      }
      if target.kind != TextureCube {
        return false;
      }
      if curRenderTarget != target || curRenderSide != face || curZStencilBuffer != depth {
        curRenderTarget, curZStencilBuffer, curRenderSide := target, depth, face;
        curColorSpace := Srgb;
        curFramebufferInvalidate := true;
      }
      return true;
    }

    method SetCubeRenderTarget(tex: Texture?, side: nat, zs: ZStencil?)
      requires Valid() && OwnTexture(tex) && OwnDepth(zs) && side < 6
      requires ResolveColor(tex) == null ==> InForce(tex, side, zs)
      modifies this`curRenderTarget, this`curZStencilBuffer, this`curRenderSide, this`curColorSpace,
               this`curFramebufferInvalidate, this`chosenColor, this`chosenDepth
      ensures Valid()
      ensures if old(InForce(tex, side, zs)) || (tex != null && tex.kind == TextureCube)
              then chosenColor == tex && chosenDepth == zs && InForce(tex, side, zs)
              else unchanged(this`chosenColor, this`chosenDepth, this`curRenderSide)
      ensures if !old(InForce(tex, side, zs)) && tex != null && tex.kind == TextureCube
              then curColorSpace == Srgb && curFramebufferInvalidate
              else unchanged(this`curColorSpace, this`curFramebufferInvalidate)
    {
      var accepted := SetCubeRenderTargetInternal(tex, side, zs);
      if accepted {
        chosenColor, chosenDepth := tex, zs;
      }
    }

    method EnableFramebufferSrgb(enable: bool)
      requires Valid()
      modifies this`curFramebufferSrgb, this`curFramebufferInvalidate
      ensures Valid() && curFramebufferSrgb == enable
    {
      if curFramebufferSrgb != enable {
        curFramebufferSrgb := enable;
        curFramebufferInvalidate := true;
      }
    }

    /** Switching swap chains keeps explicit choices, and the side, and moves default choices to the new chain. */
    method LoadSwapChain(swap: SwapChain?)
      requires Valid() && (swap != null ==> swap in chains)
      modifies this`curRenderTarget, this`curZStencilBuffer, this`curRenderSide, this`curColorSpace,
               this`curFramebufferInvalidate, this`curSwapChain
      ensures Valid() && curSwapChain == swap && curRenderSide == old(curRenderSide)
      ensures chosenColor != null ==> curRenderTarget == chosenColor == old(curRenderTarget)
      ensures chosenColor == null ==> curRenderTarget == if swap == null then null else swap.target
      ensures chosenDepth != null ==> curZStencilBuffer == chosenDepth == old(curZStencilBuffer)
      ensures chosenDepth == null ==> curZStencilBuffer == if swap == null then null else swap.zs
    {
      var target, zs := curRenderTarget, curZStencilBuffer;
      var isCube := curRenderTarget != null && curRenderTarget.kind == TextureCube;
      if curSwapChain != null {
        if target == curSwapChain.target {
          target := null;
        }
        if zs == curSwapChain.zs {
          zs := null;
        }
      }
      assert target == chosenColor && zs == chosenDepth;
      curSwapChain := swap;
      if isCube {
        var _ := SetCubeRenderTargetInternal(target, curRenderSide, zs);
      } else {
        var _ := SetRenderTargetInternal(target, zs, if swap != null then swap.space else Srgb);
      }
    }

    /** After a swap chain is destroyed nothing of it is a current target. */
    method DestroySwapChain(swap: SwapChain)
      requires Valid() && swap in chains
      modifies this`curRenderTarget, this`curZStencilBuffer, this`curRenderSide, this`curColorSpace,
               this`curFramebufferInvalidate, this`curSwapChain, this`chains
      ensures Valid() && chains == old(chains) - {swap} && curRenderSide == old(curRenderSide)
      ensures curSwapChain == if old(curSwapChain) == swap then null else old(curSwapChain)
      ensures curRenderTarget != swap.target && curZStencilBuffer != swap.zs
    {
      if curSwapChain == swap {
        LoadSwapChain(null);
      }
      chains := chains - {swap};
    }

    /**
      `device_resize` of the current swap chain, whose views become the given ones. When the resize fails
      after the outputs were unbound, the bindings still agree exactly if a flush was pending or no view is selected.
     */
    method Resize(ok: bool, renderTarget: Views, renderTargetLinear: Views, depth: Option<View>, space: ColorSpace)
      requires Valid()
      modifies this`curFramebufferInvalidate, this`bound
      modifies if curSwapChain == null then {} else {curSwapChain, curSwapChain.target, curSwapChain.zs}
      ensures ok || curSwapChain == null ==> Valid()
      ensures !ok && curSwapChain != null ==> (Valid() <==> old(curFramebufferInvalidate) || Selected() == NOTHING)
      ensures curSwapChain != null ==>
                && bound == NOTHING && curSwapChain.target.renderTarget == renderTarget
                && curSwapChain.target.renderTargetLinear == renderTargetLinear && curSwapChain.zs.view == depth
                && curFramebufferInvalidate == (old(curFramebufferInvalidate) || ok)
    {
      if curSwapChain == null {
        return;
      }
      bound := NOTHING;
      curSwapChain.target.renderTarget := renderTarget;
      curSwapChain.target.renderTargetLinear := renderTargetLinear;
      curSwapChain.zs.view := depth;
      if !ok {
        return;
      }
      curSwapChain.space := space;
      curFramebufferInvalidate := true;
    }

    /** `device_present`; a lost device is rebuilt, which forgets every choice. */
    method Present(lost: bool)
      requires Valid()
      modifies this`curRenderTarget, this`curZStencilBuffer, this`curRenderSide, this`curFramebufferInvalidate,
               this`curSwapChain, this`bound, this`chosenColor, this`chosenDepth
      ensures Valid()
      ensures if lost && old(curSwapChain) != null
              then chosenColor == null && chosenDepth == null && curSwapChain == null && curRenderTarget == null
              else unchanged(this`chosenColor, this`chosenDepth, this`curSwapChain, this`curRenderSide)
      ensures old(curSwapChain) == null ==> unchanged(this)
    {
      if curSwapChain != null {
        bound := NOTHING;
        curFramebufferInvalidate := true;
        if lost {
          curRenderTarget, curZStencilBuffer, curRenderSide := null, null, 0;
          curSwapChain := null;
          chosenColor, chosenDepth := null, null;
        }
      }
    }

    /** Returns early, leaving everything as it was, when the target has no view for the side and mode. */
    method FlushOutputViews()
      requires Basic()
      modifies this`bound, this`curFramebufferInvalidate
      ensures Basic()
      ensures if old(curFramebufferInvalidate) && curRenderTarget != null && Selected().rtv.None?
              then unchanged(this) else !curFramebufferInvalidate && bound == Selected()
      ensures old(curFramebufferInvalidate) && !curFramebufferInvalidate && curRenderTarget != null ==>
                && bound.rtv.Some?
                && (curFramebufferSrgb ==> bound.rtv == curRenderTarget.renderTargetLinear[curRenderSide])
                && (!curFramebufferSrgb ==> bound.rtv == curRenderTarget.renderTarget[curRenderSide])
      ensures !curFramebufferInvalidate ==>
                && (curRenderTarget == null ==> bound.rtv == None) && (curZStencilBuffer == null ==> bound.dsv == None)
                && (curZStencilBuffer != null ==> bound.dsv == curZStencilBuffer.view)
    {
      if curFramebufferInvalidate {
        var rtv: Option<View> := None;
        if curRenderTarget != null {
          rtv := if curFramebufferSrgb then curRenderTarget.renderTargetLinear[curRenderSide]
                 else curRenderTarget.renderTarget[curRenderSide];
          if rtv.None? {
            return;
          }
        }
        var dsv: Option<View> := None;
        if curZStencilBuffer != null {
          dsv := curZStencilBuffer.view;
        }
        bound := Binding(rtv, dsv);
        curFramebufferInvalidate := false;
      }
    }

    /**
      A draw renders into the selected views, unless a flush was pending and the selected target has no
      view: then it still renders into the views bound before. Without a target it is refused. The flags say
      whether there are shaders and vertices, and whether the updates after the flush succeed.
     */
    method Draw(ready: bool, updated: bool) returns (drawn: bool, ghost into: Binding)
      requires Valid()
      modifies this`bound, this`curFramebufferInvalidate
      ensures Valid()
      ensures drawn <==> ready && (curSwapChain != null || curRenderTarget != null) && updated
      ensures drawn ==>
                into == if old(curFramebufferInvalidate) && curRenderTarget != null && Selected().rtv.None?
                        then old(bound) else Selected()
    {
      into := NOTHING;
      if !ready || (curSwapChain == null && curRenderTarget == null) {
        return false, into;
      }
      FlushOutputViews();
      return updated, bound;
    }
  }
}
