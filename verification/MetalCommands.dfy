/**
  The command-ordering protocol of the Metal device: clears, draws and some copies are encoded into
  an open command buffer, staging copies go into buffers of their own that are committed at once, and
  no copy may read a texture ahead of rendering into it that was issued earlier.
 */
module MetalCommands {
  import opened Wrappers

  class MetalTexture {
    var hasPendingWrites: bool

    constructor ()
      ensures !hasPendingWrites
    {
      hasPendingWrites := false;
    }
  }

  /** An encoded command; `id` numbers the commands in the order the caller issued them. */
  datatype Command =
    | Render(id: nat, target: MetalTexture)  // a clear or a draw
    | Copy(id: nat, source: MetalTexture, destination: Option<MetalTexture>)
    | Mipmaps(id: nat, texture: MetalTexture)
  {
    function Written(): Option<MetalTexture> {
      match this
      case Render(_, target) => Some(target)
      case Copy(_, _, destination) => destination
      case Mipmaps(_, texture) => Some(texture)
    }
  }

  /** Why a command must stay behind one that was issued earlier. */
  datatype Hazard = ReadAfterRender | ReadAfterWrite | WriteAfterWrite | WriteAfterRead

  predicate DependsOn(hazard: Hazard, later: Command, earlier: Command) {
    && earlier.id < later.id
    && match hazard
       case ReadAfterRender => later.Copy? && earlier.Render? && earlier.target == later.source
       case ReadAfterWrite => later.Copy? && earlier.Written() == Some(later.source)
       case WriteAfterWrite => later.Written().Some? && earlier.Written() == later.Written()
       case WriteAfterRead => earlier.Copy? && later.Written() == Some(earlier.source)
  }

  /** In this order of commands no command comes before one it depends on. */
  ghost predicate Ordered(order: seq<Command>, hazard: Hazard) {
    forall p, q | 0 <= p < q < |order| :: !DependsOn(hazard, order[p], order[q])
  }

  ghost predicate IssuedBefore(order: seq<Command>, id: nat) {
    forall p | 0 <= p < |order| :: order[p].id < id
  }

  /** The command issued last may always be placed last. */
  lemma AppendKeepsOrder(order: seq<Command>, c: Command)
    requires IssuedBefore(order, c.id)
    ensures forall hazard :: Ordered(order, hazard) ==> Ordered(order + [c], hazard)
  {
  }

  /** Placed ahead of `after`, the command issued last keeps the order exactly when it depends on none of them. */
  lemma InsertKeepsOrderIff(before: seq<Command>, after: seq<Command>, c: Command, hazard: Hazard)
    requires IssuedBefore(before + after, c.id) && Ordered(before + after, hazard)
    ensures Ordered(before + [c] + after, hazard) <==> forall q | 0 <= q < |after| :: !DependsOn(hazard, c, after[q])
    ensures IssuedBefore(before + [c] + after, c.id + 1)
  {
    hide Ordered;
    var order, longer := before + after, before + [c] + after;
    InsertIssued(before, after, c);
    InsertShifts(before, after, c);
    assert forall p | 0 <= p < |before| :: order[p].id < c.id;
    InsertAt(order, |before|, longer, hazard);
    assert forall q | 0 <= q < |after| :: after[q] == order[|before| + q];
    assert forall q | |before| <= q < |order| :: order[q] == after[q - |before|];
  }

  lemma InsertIssued(before: seq<Command>, after: seq<Command>, c: Command)
    requires IssuedBefore(before + after, c.id)
    ensures IssuedBefore(before + [c] + after, c.id + 1)
  {
    InsertShifts(before, after, c);
  }

  lemma InsertShifts(before: seq<Command>, after: seq<Command>, c: Command)
    ensures var order, longer := before + after, before + [c] + after;
            && |longer| == |order| + 1 && longer[|before|] == c
            && (forall p | 0 <= p < |before| :: longer[p] == order[p] == before[p])
            && (forall q | |before| < q < |longer| :: longer[q] == order[q - 1])
  {
  }

  lemma InsertAt(order: seq<Command>, n: nat, longer: seq<Command>, hazard: Hazard)
    requires n <= |order| && |longer| == |order| + 1
    requires forall p | 0 <= p < n :: longer[p] == order[p]
    requires forall q | n < q < |longer| :: longer[q] == order[q - 1]
    requires Ordered(order, hazard)
    requires forall p | 0 <= p < n :: !DependsOn(hazard, order[p], longer[n])
    ensures Ordered(longer, hazard) <==> forall q | n <= q < |order| :: !DependsOn(hazard, longer[n], order[q])
  {
    if Ordered(longer, hazard) {
      forall q | n <= q < |order|
        ensures !DependsOn(hazard, longer[n], order[q])
      {
        assert longer[q + 1] == order[q];
      }
    }
  }

  /** A copy into `b` does not flag `b`, so staging `b` next reads it before the copy has run. */
  lemma UnflaggedCopyExample(a: MetalTexture, b: MetalTexture)
    ensures var copy, stage := Copy(0, a, Some(b)), Copy(1, b, None);
            && Ordered([copy], ReadAfterWrite) && Ordered([stage] + [copy], ReadAfterRender)
            && !Ordered([stage] + [copy], ReadAfterWrite)
  {
    var copy, stage := Copy(0, a, Some(b)), Copy(1, b, None);
    assert DependsOn(ReadAfterWrite, ([stage] + [copy])[0], ([stage] + [copy])[1]);
  }

  class MetalDevice {
    var commandBuffer: Option<seq<Command>>
    var inFlightRenderTargets: set<MetalTexture>
    var renderTarget: MetalTexture?
    var passTarget: MetalTexture?  // the color attachment of the render pass descriptor
    var useSRGBGamma: bool
    var isRendertargetChanged: bool
    ghost var queue: seq<Command>  // the committed commands
    var issued: nat  // numbers the commands; bookkeeping of the model

    ghost function Buffered(): seq<Command>
      reads this
    {
      if commandBuffer.Some? then commandBuffer.value else []
    }

    /** The order in which the GPU will run everything encoded so far. */
    ghost function CommitOrder(): seq<Command>
      reads this
    {
      queue + Buffered()
    }

    ghost predicate Valid()
      reads this, inFlightRenderTargets
    {
      && (commandBuffer.None? ==> inFlightRenderTargets == {})
      && (forall t | t in inFlightRenderTargets :: t.hasPendingWrites)
      && (forall p | 0 <= p < |Buffered()| && Buffered()[p].Render? :: Buffered()[p].target in inFlightRenderTargets)
      && (renderTarget != null ==> isRendertargetChanged)
      && IssuedBefore(CommitOrder(), issued)
      && Ordered(CommitOrder(), ReadAfterRender)
    }

    /** Whether an uncommitted command writes into the texture. */
    ghost predicate BufferWrites(t: MetalTexture)
      reads this
    {
      exists q | 0 <= q < |Buffered()| :: Buffered()[q].Written() == Some(t)
    }

    /** Whether an uncommitted command copies out of the texture. */
    ghost predicate BufferReads(t: MetalTexture)
      reads this
    {
      exists q | 0 <= q < |Buffered()| :: Buffered()[q].Copy? && Buffered()[q].source == t
    }

    /** Whether a copy that is committed at once comes before a command it has to follow. */
    ghost predicate Overtakes(hazard: Hazard, source: MetalTexture, destination: Option<MetalTexture>)
      reads this
    {
      match hazard
      case ReadAfterRender => false
      case ReadAfterWrite => BufferWrites(source)
      case WriteAfterWrite => destination.Some? && BufferWrites(destination.value)
      case WriteAfterRead => destination.Some? && BufferReads(destination.value)
    }

    /** Nothing that was in order before is out of order. */
    twostate predicate KeepsOrder()
      reads this
    {
      forall hazard :: Ordered(old(CommitOrder()), hazard) ==> Ordered(CommitOrder(), hazard)
    }

    constructor ()
      ensures Valid() && CommitOrder() == [] && inFlightRenderTargets == {} && renderTarget == null
    {
      commandBuffer, inFlightRenderTargets := None, {};
      renderTarget, passTarget := null, null;
      useSRGBGamma, isRendertargetChanged := false, false;
      queue, issued := [], 0;
    }

    method SetRenderTarget(tex: MetalTexture?, hasZStencil: bool)
      requires Valid()
      modifies this`renderTarget, this`isRendertargetChanged
      ensures Valid() && renderTarget == tex
    {
      renderTarget := tex;
      if tex != null || hasZStencil {
        isRendertargetChanged := true;
      }
    }

    method EnableFramebufferSrgb(enable: bool)
      requires Valid()
      modifies this`useSRGBGamma, this`isRendertargetChanged
      ensures Valid() && useSRGBGamma == enable
    {
      if useSRGBGamma != enable {
        useSRGBGamma := enable;
        isRendertargetChanged := true;
      }
    }

    /** `device_load_swapchain`; a missing texture means that its creation failed. */
    method LoadSwapchain(target: MetalTexture?, srgb: bool)
      requires Valid()
      modifies this`renderTarget, this`useSRGBGamma, this`isRendertargetChanged
      ensures Valid() && renderTarget == if target != null then target else old(renderTarget)
    {
      useSRGBGamma := srgb;
      if target != null {
        renderTarget := target;
        isRendertargetChanged := true;
      }
    }

    method EnsureCommandBuffer(available: bool) returns (ok: bool)
      requires Valid()
      modifies this`commandBuffer
      ensures Valid() && Buffered() == old(Buffered())
      ensures ok <==> old(commandBuffer.Some?) || available
      ensures ok <==> commandBuffer.Some?
    {
      if commandBuffer.None? {
        if !available {
          return false;
        }
        commandBuffer := Some([]);
      }
      return true;
    }

    /** Appends a command to the open buffer. */
    method Encode(c: Command)
      requires Valid() && commandBuffer.Some? && c.id == issued
      requires c.Render? ==> c.target in inFlightRenderTargets
      modifies this`commandBuffer, this`issued
      ensures Valid() && commandBuffer == Some(old(Buffered()) + [c])
      ensures KeepsOrder()
    {
      AppendKeepsOrder(CommitOrder(), c);
      assert CommitOrder() + [c] == queue + (Buffered() + [c]);
      commandBuffer := Some(commandBuffer.value + [c]);
      issued := issued + 1;
    }

    method Mark(t: MetalTexture)
      requires Valid() && commandBuffer.Some?
      modifies this`inFlightRenderTargets, t
      ensures Valid() && t.hasPendingWrites && inFlightRenderTargets == old(inFlightRenderTargets) + {t}
    {
      t.hasPendingWrites := true;
      inFlightRenderTargets := inFlightRenderTargets + {t};
    }

    /** Returns whether a command was encoded; the flags say which creation steps succeed. */
    method Clear(bufferOk: bool, stateOk: bool, encoderOk: bool) returns (encoded: bool)
      requires Valid()
      modifies this`commandBuffer, this`inFlightRenderTargets, this`issued
      modifies if renderTarget == null then {} else {renderTarget}
      ensures Valid()
      ensures encoded <==> renderTarget != null && (old(commandBuffer.Some?) || bufferOk) && stateOk && encoderOk
      ensures Buffered() == old(Buffered()) + if encoded then [Render(old(issued), renderTarget)] else []
      ensures inFlightRenderTargets == old(inFlightRenderTargets)
                + if renderTarget != null && (old(commandBuffer.Some?) || bufferOk) && stateOk then {renderTarget}
                  else {}
      ensures KeepsOrder()
    {
      var ok := EnsureCommandBuffer(bufferOk);
      if !ok || renderTarget == null || !stateOk {
        return false;
      }
      Mark(renderTarget);
      if !encoderOk {
        return false;
      }
      Encode(Render(issued, renderTarget));
      return true;
    }

    /** `ready` says whether the shaders and vertices a draw needs are set. */
    method Draw(bufferOk: bool, ready: bool, stateOk: bool, encoderOk: bool) returns (encoded: bool)
      requires Valid()
      modifies this`commandBuffer, this`inFlightRenderTargets, this`issued, this`passTarget
      modifies if renderTarget == null then {} else {renderTarget}
      ensures Valid()
      ensures encoded <==>
              renderTarget != null && (old(commandBuffer.Some?) || bufferOk) && ready && stateOk && encoderOk
      ensures Buffered() == old(Buffered()) + if encoded then [Render(old(issued), renderTarget)] else []
      ensures inFlightRenderTargets == old(inFlightRenderTargets)
                + if renderTarget != null && (old(commandBuffer.Some?) || bufferOk) && ready then {renderTarget} else {}
      ensures KeepsOrder()
    {
      var ok := EnsureCommandBuffer(bufferOk);
      if !ok || renderTarget == null || !ready {
        return false;
      }
      if isRendertargetChanged {
        passTarget := renderTarget;
        Mark(renderTarget);
      }
      if !stateOk || !encoderOk {
        return false;
      }
      Encode(Render(issued, passTarget));
      return true;
    }

    /** `device_present` and `device_flush` do only this. */
    method FinishPendingCommands()
      requires Valid()
      modifies this`commandBuffer, this`inFlightRenderTargets, this`queue, inFlightRenderTargets
      ensures Valid() && CommitOrder() == old(CommitOrder())
      ensures commandBuffer == None && inFlightRenderTargets == {}
      ensures forall t | t in old(inFlightRenderTargets) :: !t.hasPendingWrites
    {
      if commandBuffer.None? {
        return;
      }
      queue := queue + commandBuffer.value;
      var rest := inFlightRenderTargets;
      while rest != {}
        invariant inFlightRenderTargets == old(inFlightRenderTargets) && commandBuffer == old(commandBuffer)
        invariant queue == old(queue) + commandBuffer.value
        invariant rest <= inFlightRenderTargets
        invariant forall t | t in inFlightRenderTargets && t !in rest :: !t.hasPendingWrites
      {
        var t :| t in rest;
        t.hasPendingWrites := false;
        rest := rest - {t};
      }
      inFlightRenderTargets := {};
      commandBuffer := None;
      assert CommitOrder() == old(CommitOrder());
    }

    /** The guard every blit begins with. */
    method FlushIfPending(source: MetalTexture)
      requires Valid()
      modifies this`commandBuffer, this`inFlightRenderTargets, this`queue, inFlightRenderTargets
      ensures Valid() && CommitOrder() == old(CommitOrder())
      ensures commandBuffer == if old(source.hasPendingWrites) then None else old(commandBuffer)
      ensures !old(source.hasPendingWrites) ==> queue == old(queue)
      ensures forall t | t in old(inFlightRenderTargets) :: t.hasPendingWrites == !old(source.hasPendingWrites)
      ensures inFlightRenderTargets == if old(source.hasPendingWrites) then {} else old(inFlightRenderTargets)
      ensures forall q | 0 <= q < |Buffered()| :: !(Buffered()[q].Render? && Buffered()[q].target == source)
    {
      if source.hasPendingWrites {
        FinishPendingCommands();
      }
    }

    /** The copy is encoded into the open buffer, after everything already there. */
    method CopyTexture(source: MetalTexture, destination: MetalTexture, bufferOk: bool, encoderOk: bool)
      returns (encoded: bool)
      requires Valid()
      modifies this`commandBuffer, this`inFlightRenderTargets, this`queue, this`issued, inFlightRenderTargets
      ensures Valid()
      ensures encoded <==> ((old(commandBuffer.Some?) && !old(source.hasPendingWrites)) || bufferOk) && encoderOk
      ensures CommitOrder() ==
              old(CommitOrder()) + if encoded then [Copy(old(issued), source, Some(destination))] else []
      ensures inFlightRenderTargets == if old(source.hasPendingWrites) then {} else old(inFlightRenderTargets)
      ensures KeepsOrder()
    {
      FlushIfPending(source);
      assert issued == old(issued);
      var ok := EnsureCommandBuffer(bufferOk);
      if !ok || !encoderOk {
        return false;
      }
      ghost var before := CommitOrder();
      Encode(Copy(issued, source, Some(destination)));
      assert CommitOrder() == before + [Copy(old(issued), source, Some(destination))];
      return true;
    }

    /** Mipmap generation after a texture upload writes the texture without flagging it. */
    method GenerateMipmaps(t: MetalTexture, bufferOk: bool, encoderOk: bool) returns (encoded: bool)
      requires Valid()
      modifies this`commandBuffer, this`issued
      ensures Valid()
      ensures encoded <==> (old(commandBuffer.Some?) || bufferOk) && encoderOk
      ensures Buffered() == old(Buffered()) + if encoded then [Mipmaps(old(issued), t)] else []
      ensures KeepsOrder()
    {
      var ok := EnsureCommandBuffer(bufferOk);
      if !ok || !encoderOk {
        return false;
      }
      Encode(Mipmaps(issued, t));
      return true;
    }

    /**
      The copies with a command buffer of their own: `stageTexture`, `stageTextureToBuffer` (no
      destination texture) and `copyTextureRegion`. The copy is committed ahead of whatever is still
      buffered. It stays behind every rendering into its source. It stays behind every other command it
      has to follow exactly when the source was flagged or no such command is uncommitted: one that writes
      the source, or that writes or copies the destination.
     */
    method StageTexture(source: MetalTexture, destination: Option<MetalTexture>, encoderOk: bool)
      returns (encoded: bool)
      requires Valid()
      modifies this`commandBuffer, this`inFlightRenderTargets, this`queue, this`issued, inFlightRenderTargets
      ensures Valid() && encoded == encoderOk
      ensures !encoded ==> CommitOrder() == old(CommitOrder())
      ensures encoded && old(source.hasPendingWrites) ==>
                CommitOrder() == old(CommitOrder()) + [Copy(old(issued), source, destination)]
      ensures encoded && !old(source.hasPendingWrites) ==>
                && queue == old(queue) + [Copy(old(issued), source, destination)]
                && Buffered() == old(Buffered())
      ensures inFlightRenderTargets == if old(source.hasPendingWrites) then {} else old(inFlightRenderTargets)
      ensures encoded ==> forall hazard | old(Ordered(CommitOrder(), hazard)) ::
                Ordered(CommitOrder(), hazard)
                <==> old(source.hasPendingWrites) || !old(Overtakes(hazard, source, destination))
    {
      FlushIfPending(source);
      if !encoderOk {
        return false;
      }
      CommitAlone(source, destination);
      return true;
    }

    /** A copy in a command buffer of its own, committed at once. */
    method CommitAlone(source: MetalTexture, destination: Option<MetalTexture>)
      requires Valid()
      requires forall q | 0 <= q < |Buffered()| :: !(Buffered()[q].Render? && Buffered()[q].target == source)
      modifies this`queue, this`issued
      ensures Valid()
      ensures queue == old(queue) + [Copy(old(issued), source, destination)]
      ensures Buffered() == old(Buffered())
      ensures forall hazard | old(Ordered(CommitOrder(), hazard)) ::
                Ordered(CommitOrder(), hazard) <==> !old(Overtakes(hazard, source, destination))
    {
      ghost var c := Copy(issued, source, destination);
      forall hazard | Ordered(CommitOrder(), hazard)
        ensures Ordered(queue + [c] + Buffered(), hazard) <==> !Overtakes(hazard, source, destination)
        ensures IssuedBefore(queue + [c] + Buffered(), issued + 1)
      {
        InsertKeepsOrderIff(queue, Buffered(), c, hazard);
        OvertakesIff(hazard, c);
      }
      queue := queue + [c];
      issued := issued + 1;
    }

    lemma OvertakesIff(hazard: Hazard, c: Command)
      requires Valid() && c.Copy? && c.id == issued
      requires forall q | 0 <= q < |Buffered()| :: !(Buffered()[q].Render? && Buffered()[q].target == c.source)
      ensures Overtakes(hazard, c.source, c.destination)
         <==> exists q :: 0 <= q < |Buffered()| && DependsOn(hazard, c, Buffered()[q])
    {
      assert forall q | 0 <= q < |Buffered()| :: Buffered()[q] == CommitOrder()[|queue| + q];
      if Overtakes(hazard, c.source, c.destination) {
        var q :| 0 <= q < |Buffered()| && if hazard.WriteAfterRead?
                   then Buffered()[q].Copy? && Buffered()[q].source == c.destination.value
                   else Buffered()[q].Written() == if hazard.ReadAfterWrite? then Some(c.source) else c.destination;
        assert DependsOn(hazard, c, Buffered()[q]);
      }
    }
  }

  /** A copy into a cleared texture is committed ahead of the clear, which then wipes it out. */
  method OvertakenClearRun() returns (device: MetalDevice)
    ensures device.Valid() && device.Buffered() == [] && !Ordered(device.CommitOrder(), WriteAfterWrite)
  {
    device := new MetalDevice();
    var source := new MetalTexture();
    var target := new MetalTexture();
    device.SetRenderTarget(target, false);
    var cleared := device.Clear(true, true, true);
    assert device.Buffered()[0] == device.CommitOrder()[0];
    var copied := device.StageTexture(source, Some(target), true);
    assert DependsOn(WriteAfterWrite, device.CommitOrder()[0], device.CommitOrder()[1]);
    device.FinishPendingCommands();
  }
}
