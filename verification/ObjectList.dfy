/**
  The intrusive list of the objects of a Direct3D 11 device, and the walk over it that recreates every
  object after the device was lost.
 */
module ObjectList {
  import opened Wrappers

  type Resource = nat

  datatype ObjType = VertexBuffer | IndexBuffer | Texture2D | ZStencilBuffer | StageSurface | SamplerState
                   | VertexShader | PixelShader | Duplicator | SwapChain | Timer | TimerRange | Texture3D

  /** Where the pointer to an object is stored: `prev_next`. */
  datatype Link = NoLink | First | NextOf(obj: GsObj)

  class GsObj {
    const kind: ObjType
    var next: GsObj?
    var prevNext: Link

    var pairedTexture: GsObj?  // the other half of a Y/UV pair of textures
    var chroma: bool           // this is the UV half
    var resource: Option<Resource>
    ghost var rebuilds: nat    // how often the object was recreated
    ghost var born: nat        // how often the device had been lost when the object was registered

    /** An object that is not registered with a device. */
    constructor (kind: ObjType)
      ensures this.kind == kind && next == null && prevNext == NoLink
      ensures pairedTexture == null && !chroma && resource == None && rebuilds == 0
    {
      this.kind := kind;
      next, prevNext := null, NoLink;
      pairedTexture, chroma, resource, rebuilds, born := null, false, None, 0, 0;
    }

    method Release()
      modifies this`resource
      ensures resource == None
    {
      resource := None;
    }

    /** Takes a resource of the new device; a second half takes its first half's. */
    method Recreate(r: Option<Resource>)
      modifies this`resource, this`rebuilds
      ensures resource == r && rebuilds == old(rebuilds) + 1
    {
      resource := r;
      rebuilds := rebuilds + 1;
    }
  }

  datatype Slot = Slot(resource: Option<Resource>, rebuilds: nat)

  /** The registered objects, the partners of the paired ones, and the UV halves. */
  datatype Pairing = Pairs(objs: seq<GsObj>, partner: map<GsObj, GsObj>, uv: set<GsObj>) {
    ghost predicate Valid() {
      && (forall i, j | 0 <= i < j < |objs| :: objs[i] != objs[j])
      && forall o | o in partner ::
           o in objs && partner[o] in objs && partner[o] in partner && partner[partner[o]] == o
           && (o in uv <==> partner[o] !in uv) && o.kind == Texture2D
    }

    /** The objects recreated before position `n`: at their own turn, or at their Y half's. */
    ghost function DoneBy(n: nat): set<GsObj>
      requires n <= |objs|
    {
      set o | o in objs && (if o in partner && o in uv then partner[o] in objs[..n] else o in objs[..n])
    }

    /** The objects recreated at position `n`. */
    ghost function TurnOf(n: nat): set<GsObj>
      requires n < |objs|
    {
      var o := objs[n];
      if o !in partner then {o} else if o in uv then {} else {o, partner[o]}
    }

    lemma TurnsAreDisjoint(n: nat)
      requires Valid() && n < |objs|
      ensures DoneBy(n + 1) == DoneBy(n) + TurnOf(n) && DoneBy(n) !! TurnOf(n)
    {
      assert objs[..n + 1] == objs[..n] + [objs[n]];
      assert objs[n] !in objs[..n];
    }

    lemma AllTurns()
      requires Valid()
      ensures DoneBy(0) == {} && DoneBy(|objs|) == set o | o in objs
    {
      assert objs[..|objs|] == objs;
    }

    /** The objects in `done` are recreated, once and with resources from `start` on, and the others hold nothing. */
    ghost predicate Rebuilt(s: map<GsObj, Slot>, next: Resource, done: set<GsObj>, before: map<GsObj, Slot>,
                            start: Resource, running: set<GsObj>) {
      && start <= next
      && (forall o | o in objs :: o in s && o in before)
      && (forall o | o in objs :: s[o].rebuilds == before[o].rebuilds + if o in done then 1 else 0)
      && (forall o | o in objs :: s[o].resource.Some? <==> o in done && (o.kind == Duplicator ==> o in running))
      && (forall o | o in objs && s[o].resource.Some? :: start <= s[o].resource.value < next)
      && (forall o | o in objs && o in partner :: partner[o] in s && s[o].resource == s[partner[o]].resource)
    }

    /** Only the halves of a pair share a resource. */
    ghost predicate Unshared(s: map<GsObj, Slot>) {
      forall o, p | o in objs && p in objs && o in s && p in s && s[o].resource.Some?
                    && s[o].resource == s[p].resource ::
        o == p || (o in partner && partner[o] == p)
    }

    /** What one turn does to an object: a duplicator may fail to start, anything else gets the next resource. */
    ghost function TurnSlot(s: Slot, o: GsObj, next: Resource, running: set<GsObj>): Slot {
      Slot(if o.kind == Duplicator && o !in running then None else Some(next), s.rebuilds + 1)
    }

    ghost predicate Turned(s: map<GsObj, Slot>, t: map<GsObj, Slot>, next: Resource, next': Resource, n: nat,
                           running: set<GsObj>)
      requires n < |objs|
    {
      && next <= next'
      && (forall o | o in objs :: o in s && o in t)
      && (forall o | o in objs :: t[o] == if o in TurnOf(n) then TurnSlot(s[o], o, next, running) else s[o])
      && (forall o | o in objs && o in TurnOf(n) && t[o].resource.Some? :: next < next')
    }

    lemma TurnKeepsRebuilt(s: map<GsObj, Slot>, t: map<GsObj, Slot>, next: Resource, next': Resource, n: nat,
                           before: map<GsObj, Slot>, start: Resource, running: set<GsObj>)
      requires Valid() && n < |objs|
      requires Rebuilt(s, next, DoneBy(n), before, start, running)
      requires Turned(s, t, next, next', n, running)
      ensures Rebuilt(t, next', DoneBy(n + 1), before, start, running)
    {
      TurnsAreDisjoint(n);
      forall o | o in objs && o in partner
        ensures partner[o] in t && t[o].resource == t[partner[o]].resource
      {
        PartnersTurnTogether(n, o);
      }
    }

    lemma InUseIsOlder(s: map<GsObj, Slot>, next: Resource, done: set<GsObj>, before: map<GsObj, Slot>,
                       start: Resource, running: set<GsObj>)
      requires Rebuilt(s, next, done, before, start, running)
      ensures forall o | o in objs :: o in s && (s[o].resource.Some? ==> s[o].resource.value < next)
    {
    }

    lemma PartnersTurnTogether(n: nat, o: GsObj)
      requires Valid() && n < |objs| && o in partner
      ensures o in TurnOf(n) <==> partner[o] in TurnOf(n)
    {
    }

    /** A new resource is newer than every resource in use. */
    lemma TurnKeepsUnshared(s: map<GsObj, Slot>, t: map<GsObj, Slot>, next: Resource, next': Resource, n: nat,
                            running: set<GsObj>)
      requires Valid() && n < |objs|
      requires forall o | o in objs :: o in s && (s[o].resource.Some? ==> s[o].resource.value < next)
      requires Turned(s, t, next, next', n, running)
      requires Unshared(s)
      ensures Unshared(t)
    {
      forall o, p | o in objs && p in objs && o in t && p in t && t[o].resource.Some? && t[o].resource == t[p].resource
        ensures o == p || (o in partner && partner[o] == p)
      {
        assert o in TurnOf(n) <==> p in TurnOf(n);
      }
    }
  }

  /** The neighbours of a list: the object at a position, and where the pointer to it is stored. */
  function NextIn(s: seq<GsObj>, i: nat): GsObj? {
    if i < |s| then s[i] else null
  }

  function LinkIn(s: seq<GsObj>, i: nat): Link
    requires i < |s|
  {
    if i == 0 then First else NextOf(s[i - 1])
  }

  class Device {
    var firstObj: GsObj?
    var nextResource: Resource  // the next resource the driver hands out
    ghost var objs: seq<GsObj>  // the registered objects, newest first
    ghost var losses: nat       // how often the device was rebuilt

    ghost predicate Valid()
      reads this`firstObj, this`objs, objs`next, objs`prevNext
    {
      && (forall i, j | 0 <= i < j < |objs| :: objs[i] != objs[j])
      && firstObj == At(0)
      && (forall i {:trigger objs[i].next} | 0 <= i < |objs| :: objs[i].next == At(i + 1))
      && (forall i {:trigger objs[i].prevNext} | 0 <= i < |objs| :: objs[i].prevNext == LinkTo(i))
    }

    /** Where the pointer to the object at a position is stored. */
    ghost function LinkTo(i: nat): Link
      requires i < |objs|
      reads this`objs
    {
      if i == 0 then First else NextOf(objs[i - 1])
    }

    /** The object at a position, or null after the last one. */
    ghost function At(i: nat): GsObj?
      reads this`objs
    {
      if i < |objs| then objs[i] else null
    }

    /** Every object was recreated once for each time the device was lost during the object's life. */
    ghost predicate Current()
      reads this`objs, this`losses, objs`born, objs`rebuilds
    {
      forall o | o in objs :: o.born + o.rebuilds == losses
    }

    constructor ()
      ensures Valid() && PairsValid() && Current() && objs == []
    {
      firstObj, nextResource, objs, losses := null, 0, [], 0;
    }

    /** `*link = value` */
    method Store(link: Link, value: GsObj?)
      requires link != NoLink
      modifies this`firstObj
      modifies (if link.NextOf? then {link.obj} else {})`next
      ensures link == First ==> firstObj == value
      ensures link.NextOf? ==> firstObj == old(firstObj) && link.obj.next == value
    {
      if link == First {
        firstObj := value;
      } else {
        link.obj.next := value;
      }
    }

    /** The constructor of a registered object. */
    method Register(o: GsObj)
      requires Valid() && o !in objs
      modifies this`firstObj, this`objs, o`next, o`prevNext, o`born, objs`prevNext
      ensures Valid() && objs == [o] + old(objs)
      ensures old(PairsValid()) ==> (PairsValid() <==> o.pairedTexture == null)
      ensures old(Current()) ==> (Current() <==> o.rebuilds == 0)
    {
      o.prevNext := First;
      o.next := firstObj;
      firstObj := o;
      if o.next != null {
        o.next.prevNext := NextOf(o);
      }
      objs := [o] + objs;
      o.born := losses;
    }

    /**
      `device_texture_create_nv12`, which p010 textures share: both halves are registered, the Y half first, and share
      a resource. The flags say which of the two can be created; if only the second fails, the first stays registered.
     */
    method CreatePair(supported: bool, yOk: bool, uvOk: bool) returns (y: GsObj?, uv: GsObj?)
      requires Valid() && PairsValid()
      modifies this`firstObj, this`objs, this`nextResource, objs`prevNext
      ensures Valid() && PairsValid() && (old(Current()) ==> Current())
      ensures y != null <==> supported && yOk && uvOk
      ensures uv != null <==> y != null
      ensures y != null ==>
                && fresh(y) && fresh(uv) && objs == [uv, y] + old(objs)
                && y.pairedTexture == uv && uv.pairedTexture == y && uv.chroma && !y.chroma
                && y.resource == uv.resource == Some(old(nextResource)) && y.rebuilds == uv.rebuilds == 0
      ensures y == null && !(supported && yOk) ==> objs == old(objs)
      ensures y == null && supported && yOk ==>
                && |objs| > 0 && fresh(objs[0]) && objs == [objs[0]] + old(objs)
                && objs[0].pairedTexture == null && objs[0].rebuilds == 0
    {
      hide Valid, PairsValid, Current;
      y, uv := null, null;
      if !supported || !yOk {
        return;
      }
      var first := CreateTexture(false);
      var r := NewResource();
      first.resource := Some(r);
      if !uvOk {
        return;
      }
      var second := CreateTexture(true);
      second.resource := first.resource;
      assert objs == [second, first] + old(objs);
      Join(first, second);
      y, uv := first, second;
    }

    /** A new texture without a partner. */
    method CreateTexture(chroma: bool) returns (o: GsObj)
      requires Valid() && PairsValid()
      modifies this`firstObj, this`objs, objs`prevNext
      ensures Valid() && PairsValid() && fresh(o) && objs == [o] + old(objs)
      ensures o.kind == Texture2D && o.chroma == chroma && o.pairedTexture == null && o.rebuilds == 0
      ensures old(Current()) ==> Current()
    {
      o := new GsObj(Texture2D);
      o.chroma := chroma;
      Register(o);
    }

    /** Two textures become the halves of a pair. */
    method Join(y: GsObj, uv: GsObj)
      requires PairsValid() && y in objs && uv in objs && y.kind == Texture2D && uv.kind == Texture2D
      requires y.pairedTexture == null && uv.pairedTexture == null && !y.chroma && uv.chroma
      modifies y`pairedTexture, uv`pairedTexture
      ensures PairsValid() && y.pairedTexture == uv && uv.pairedTexture == y
    {
      y.pairedTexture, uv.pairedTexture := uv, y;
    }

    /**
      The destructor; an object that was never registered leaves the list alone. Half a pair must not stay behind
      alone: the pairs are valid afterwards exactly if the object was none, or its other half is already gone.
     */
    method Unregister(o: GsObj) returns (ghost k: nat)
      requires Valid()
      requires o in objs || (o.prevNext == NoLink && o.next == null)
      modifies this`firstObj, this`objs, objs`next, objs`prevNext
      ensures Valid() && o !in objs
      ensures if o in old(objs) then k < |old(objs)| && old(objs)[k] == o && objs == old(objs)[..k] + old(objs)[k + 1..]
              else objs == old(objs)
      ensures old(PairsValid()) ==> (PairsValid() <==> o !in old(objs) || o.pairedTexture == null)
      ensures old(PairsValid()) && o in old(objs) && o.pairedTexture != null ==> PairsValidBut(o.pairedTexture)
      ensures old(PairsValidBut(o)) && o.pairedTexture !in old(objs) ==> PairsValid()
      ensures old(Current()) ==> Current()
    {
      k := UnlinkObject(o);
      assert forall p | p in objs :: p in old(objs);
      assert forall p | p in old(objs) && p != o :: p in objs;
      if old(PairsValid()) && o in old(objs) && o.pairedTexture != null {
        assert old(PairValid(o));
        assert !PairValid(o.pairedTexture);
      }
    }

    method UnlinkObject(o: GsObj) returns (ghost k: nat)
      requires Valid()
      requires o in objs || (o.prevNext == NoLink && o.next == null)
      modifies this`firstObj, this`objs, objs`next, objs`prevNext
      ensures Valid() && o !in objs
      ensures if o in old(objs) then k < |old(objs)| && old(objs)[k] == o && objs == old(objs)[..k] + old(objs)[k + 1..]
              else objs == old(objs)
    {
      k := 0;
      if o in objs {
        RegisteredIsLinked(o);
      }
      if o.prevNext != NoLink {
        k :| k < |objs| && objs[k] == o;
        assert objs[k].prevNext == LinkTo(k) && objs[k].next == At(k + 1);
        Unlink(o, k);
      }
    }

    lemma RegisteredIsLinked(o: GsObj)
      requires Valid() && o in objs
      ensures o.prevNext != NoLink
    {
      var j :| 0 <= j < |objs| && objs[j] == o;
      assert objs[j].prevNext == LinkTo(j);
    }

    /** The unlinking itself, for the registered object at position `k`. */
    method Unlink(o: GsObj, ghost k: nat)
      requires Valid() && k < |objs| && objs[k] == o && o.prevNext == LinkTo(k) && o.next == At(k + 1)
      modifies this`firstObj, this`objs, objs`next, objs`prevNext
      ensures Valid() && o !in objs && objs == old(objs)[..k] + old(objs)[k + 1..]
    {
      ghost var was := objs;
      Store(o.prevNext, o.next);
      assert forall i {:trigger was[i].next} | 0 <= i < |was| && i != k - 1 :: was[i].next == old(was[i].next);
      if o.next != null {
        o.next.prevNext := o.prevNext;
      }
      assert forall i {:trigger was[i].prevNext} | 0 <= i < |was| && i != k + 1 ::
               was[i].prevNext == old(was[i].prevNext);
      objs := was[..k] + was[k + 1..];
      UnlinkedIsValid(was, k);
    }

    lemma UnlinkedIsValid(was: seq<GsObj>, k: nat)
      requires k < |was| && objs == was[..k] + was[k + 1..]
      requires forall i, j | 0 <= i < j < |was| :: was[i] != was[j]
      requires firstObj == if k == 0 then NextIn(was, 1) else NextIn(was, 0)
      requires forall i {:trigger was[i].next} | 0 <= i < |was| && i != k ::
                 was[i].next == NextIn(was, if i == k - 1 then k + 1 else i + 1)
      requires forall i {:trigger was[i].prevNext} | 0 <= i < |was| && i != k ::
                 was[i].prevNext == LinkIn(was, if i == k + 1 then k else i)
      ensures Valid() && was[k] !in objs
    {
      assert forall i | 0 <= i < |objs| :: objs[i] == was[if i < k then i else i + 1];
      forall i {:trigger objs[i].next} | 0 <= i < |objs|
        ensures objs[i].next == At(i + 1)
      {
        assert objs[i].next == was[if i < k then i else i + 1].next;
      }
      forall i {:trigger objs[i].prevNext} | 0 <= i < |objs|
        ensures objs[i].prevNext == LinkTo(i)
      {
        assert objs[i].prevNext == was[if i < k then i else i + 1].prevNext;
      }
    }

    // ---------- Device loss ----------

    /** The halves of a pair point at each other, are both registered, and exactly one of them is the UV half. */
    ghost predicate PairsValid()
      reads this`objs, objs`pairedTexture, objs`chroma
    {
      forall o | o in objs && o.pairedTexture != null :: PairValid(o)
    }

    ghost predicate PairValid(o: GsObj)
      requires o in objs && o.pairedTexture != null
      reads this`objs, objs`pairedTexture, objs`chroma
    {
      && o.kind == Texture2D && o.pairedTexture.kind == Texture2D
      && o.pairedTexture in objs && o.pairedTexture.pairedTexture == o
      && o.pairedTexture.chroma != o.chroma
    }

    /** One object may have lost its other half. */
    ghost predicate PairsValidBut(orphan: GsObj)
      reads this`objs, objs`pairedTexture, objs`chroma
    {
      forall o | o in objs && o != orphan && o.pairedTexture != null :: PairValid(o)
    }

    method NewResource() returns (r: Resource)
      modifies this`nextResource
      ensures r == old(nextResource) && nextResource == r + 1
    {
      r := nextResource;
      nextResource := nextResource + 1;
    }

    ghost function Paired(): Pairing
      reads this`objs, objs`pairedTexture, objs`chroma
    {
      Pairs(objs, map o | o in objs && o.pairedTexture != null :: o.pairedTexture, set o | o in objs && o.chroma)
    }

    /** The state of the walk: what every object holds and how often it was recreated. */
    ghost function Snapshot(): map<GsObj, Slot>
      reads this`objs, objs`resource, objs`rebuilds
    {
      map o | o in objs :: Slot(o.resource, o.rebuilds)
    }

    /** `RebuildPaired_Y`, which also rebuilds the UV half on the new resource. */
    method RebuildPairedY(y: GsObj)
      requires y.pairedTexture != null && y.pairedTexture != y
      modifies this`nextResource, y`resource, y`rebuilds, y.pairedTexture`resource, y.pairedTexture`rebuilds
      ensures nextResource == old(nextResource) + 1
      ensures y.resource == y.pairedTexture.resource == Some(old(nextResource))
      ensures y.rebuilds == old(y.rebuilds) + 1 && y.pairedTexture.rebuilds == old(y.pairedTexture.rebuilds) + 1
    {
      var r := NewResource();
      y.Recreate(Some(r));
      y.pairedTexture.Recreate(y.resource);
    }

    /** One step of the second walk. */
    method RebuildObject(obj: GsObj, running: set<GsObj>)
      requires PairsValid() && obj in objs
      modifies this`nextResource, obj`resource, obj`rebuilds
      modifies (if obj.pairedTexture == null then {} else {obj.pairedTexture})`resource,
               (if obj.pairedTexture == null then {} else {obj.pairedTexture})`rebuilds
      ensures obj.pairedTexture == null ==>
                && obj.rebuilds == old(obj.rebuilds) + 1
                && if obj.kind == Duplicator && obj !in running
                   then obj.resource == None && nextResource == old(nextResource)
                   else obj.resource == Some(old(nextResource)) && nextResource == old(nextResource) + 1
      ensures obj.pairedTexture != null && obj.chroma ==>
                && nextResource == old(nextResource)
                && obj.resource == old(obj.resource) && obj.rebuilds == old(obj.rebuilds)
                && obj.pairedTexture.resource == old(obj.pairedTexture.resource)
                && obj.pairedTexture.rebuilds == old(obj.pairedTexture.rebuilds)
      ensures obj.pairedTexture != null && !obj.chroma ==>
                && nextResource == old(nextResource) + 1
                && obj.resource == Some(old(nextResource)) && obj.rebuilds == old(obj.rebuilds) + 1
                && obj.pairedTexture.resource == Some(old(nextResource))
                && obj.pairedTexture.rebuilds == old(obj.pairedTexture.rebuilds) + 1
    {
      if obj.kind == Texture2D && obj.pairedTexture != null {
        if !obj.chroma {
          RebuildPairedY(obj);
        }
      } else if obj.kind == Duplicator && obj !in running {
        obj.Recreate(None);
      } else {
        var r := NewResource();
        obj.Recreate(Some(r));
      }
    }

    /** The step seen as a turn of the walk. */
    method RebuildTurn(obj: GsObj, ghost n: nat, running: set<GsObj>)
      requires PairsValid() && n < |objs| && obj == objs[n]
      modifies this`nextResource, objs`resource, objs`rebuilds
      ensures PairsValid() && Paired() == old(Paired())
      ensures Paired().Turned(old(Snapshot()), Snapshot(), old(nextResource), nextResource, n, running)
    {
      RebuildObject(obj, running);
    }

    lemma WalkStarts(running: set<GsObj>)
      requires Valid() && PairsValid()
      requires forall o | o in objs :: o.resource == None
      ensures Paired().Valid()
      ensures Paired().Rebuilt(Snapshot(), nextResource, Paired().DoneBy(0), Snapshot(), nextResource, running)
      ensures Paired().Unshared(Snapshot()) && Paired().objs == objs
    {
      PairingValid();
      Paired().AllTurns();
    }

    lemma PairingValid()
      requires Valid() && PairsValid()
      ensures Paired().Valid()
    {
    }

    lemma RebuiltMeans(before: map<GsObj, Slot>, start: Resource, running: set<GsObj>)
      requires PairsValid() && Paired().Rebuilt(Snapshot(), nextResource, (set o | o in objs), before, start, running)
      ensures forall o | o in objs :: o in before && o.rebuilds == before[o].rebuilds + 1
      ensures forall o | o in objs && (o.kind == Duplicator ==> o in running) :: o.resource.Some?
      ensures forall o | o in objs && o.resource.Some? :: start <= o.resource.value
      ensures forall o | o in objs && o.pairedTexture != null :: o.resource == o.pairedTexture.resource
    {
      assert forall o | o in objs :: Snapshot()[o] == Slot(o.resource, o.rebuilds);
      assert forall o | o in objs && o.pairedTexture != null :: Paired().partner[o] == o.pairedTexture;
    }

    lemma UnsharedMeans()
      requires Paired().Unshared(Snapshot())
      ensures forall o, p | o in objs && p in objs && o.resource.Some? && o.resource == p.resource ::
                o == p || o.pairedTexture == p
    {
      forall o, p | o in objs && p in objs && o.resource.Some? && o.resource == p.resource
        ensures o == p || o.pairedTexture == p
      {
        assert Snapshot()[o].resource == Snapshot()[p].resource;
      }
    }

    /**
      `RebuildDevice`: every registered object loses its resource and is recreated exactly once on the new
      device, no two of them share a resource, except that the UV half of a pair gets its Y half's.
      `running` are the duplicators that start again.
     */
    method RebuildDevice(running: set<GsObj>)
      requires Valid() && PairsValid()
      modifies this`nextResource, this`losses, objs`resource, objs`rebuilds
      ensures Valid() && PairsValid() && losses == old(losses) + 1 && (old(Current()) ==> Current())
      ensures forall o | o in objs :: o.rebuilds == old(o.rebuilds) + 1
      ensures Rebuilt(old(nextResource), running)
    {
      RebuildObjects(running);
      losses := losses + 1;
    }

    /** Every object has a resource of its own or its other half's, none of them older than the device. */
    ghost predicate Rebuilt(start: Resource, running: set<GsObj>)
      reads this`objs, objs`pairedTexture, objs`resource
    {
      && (forall o | o in objs && (o.kind == Duplicator ==> o in running) :: o.resource.Some?)
      && (forall o | o in objs && o.resource.Some? :: start <= o.resource.value)
      && (forall o | o in objs && o.pairedTexture != null && o.pairedTexture in objs ::
            o.resource == o.pairedTexture.resource)
      && (forall o, p | o in objs && p in objs && o.resource.Some? && o.resource == p.resource ::
            o == p || o.pairedTexture == p)
    }

    /** The two walks. */
    method RebuildObjects(running: set<GsObj>)
      requires Valid() && PairsValid()
      modifies this`nextResource, objs`resource, objs`rebuilds
      ensures Valid() && PairsValid()
      ensures forall o | o in objs :: o.rebuilds == old(o.rebuilds) + 1
      ensures Rebuilt(old(nextResource), running)
    {
      ReleaseAll();
      ghost var released := Snapshot();
      RebuildAll(running);
      RebuiltMeans(released, old(nextResource), running);
      UnsharedMeans();
    }

    /** The first walk. */
    method ReleaseAll()
      requires Valid()
      modifies objs`resource
      ensures Valid()
      ensures forall o | o in objs :: o.resource == None
    {
      var obj := firstObj;
      ghost var n := 0;
      while obj != null
        invariant n <= |objs| && obj == At(n) && Valid()
        invariant forall o | o in objs[..n] :: o.resource == None
        decreases |objs| - n
      {
        assert objs[..n + 1] == objs[..n] + [obj];
        assert objs[n].next == At(n + 1);
        obj.Release();
        obj, n := obj.next, n + 1;
      }
      assert objs[..n] == objs;
    }

    /** The second walk. */
    method RebuildAll(running: set<GsObj>)
      requires Valid() && PairsValid()
      requires forall o | o in objs :: o.resource == None
      modifies this`nextResource, objs`resource, objs`rebuilds
      ensures Valid() && PairsValid() && Paired() == old(Paired())
      ensures Paired().Rebuilt(Snapshot(), nextResource, (set o | o in objs), old(Snapshot()), old(nextResource),
                                running)
      ensures Paired().Unshared(Snapshot())
    {
      hide Pairing.Rebuilt, Pairing.Unshared, Pairing.Turned, Pairing.DoneBy, PairsValid, Snapshot, Paired;
      ghost var before, pairing := Snapshot(), Paired();
      WalkStarts(running);
      pairing.AllTurns();
      var obj := firstObj;
      ghost var n := 0;
      while obj != null
        invariant n <= |objs| && obj == At(n) && Valid() && PairsValid() && Paired() == pairing
        invariant pairing.objs == objs
        invariant pairing.Rebuilt(Snapshot(), nextResource, pairing.DoneBy(n), before, old(nextResource), running)
        invariant pairing.Unshared(Snapshot())
        decreases |objs| - n
      {
        assert objs[n].next == At(n + 1);
        ghost var s, next := Snapshot(), nextResource;
        RebuildTurn(obj, n, running);
        pairing.TurnKeepsRebuilt(s, Snapshot(), next, nextResource, n, before, old(nextResource), running);
        pairing.InUseIsOlder(s, next, pairing.DoneBy(n), before, old(nextResource), running);
        pairing.TurnKeepsUnshared(s, Snapshot(), next, nextResource, n, running);
        obj, n := obj.next, n + 1;
      }
    }

    // ---------- Runs ----------

    /** The object at a position, for a caller that has kept a pointer to it. */
    method Find(n: nat) returns (obj: GsObj?)
      requires Valid()
      ensures obj == At(n)
      ensures obj != null ==> obj in objs
    {
      obj := firstObj;
      var i := 0;
      while i < n && obj != null
        invariant i <= n && obj == At(i)
        invariant obj == null ==> |objs| <= i
      {
        assert objs[i].next == At(i + 1);
        obj, i := obj.next, i + 1;
      }
    }

    /** A caller destroys a texture with its other half, or any other object. */
    method Destroy(o: GsObj)
      requires Valid() && PairsValid() && o in objs
      modifies this`firstObj, this`objs, objs`next, objs`prevNext
      ensures Valid() && PairsValid() && (old(Current()) ==> Current())
      ensures forall p :: p in objs <==> p in old(objs) && p != o && p != o.pairedTexture
    {
      ghost var was := objs;
      var half := o.pairedTexture;
      var k := Unregister(o);
      RemovedAt(was, k);
      if half != null {
        ghost var left := objs;
        var j := Unregister(half);
        RemovedAt(left, j);
      }
    }
  }

  lemma RemovedAt(s: seq<GsObj>, k: nat)
    requires k < |s| && forall i, j | 0 <= i < j < |s| :: s[i] != s[j]
    ensures forall p :: p in s[..k] + s[k + 1..] <==> p in s && p != s[k]
  {
  }

  /** A creation, a destruction or a loss of the device, with any outcome. */
  method AnyStep(device: Device)
    requires device.Valid() && device.PairsValid() && device.Current()
    modifies device, device.objs
    ensures device.Valid() && device.PairsValid() && device.Current()
    ensures forall o | o in device.objs :: o in old(device.objs) || fresh(o)
  {
    var choice: nat := *;
    if choice == 0 {
      var kind: ObjType := *;
      var o := new GsObj(kind);
      device.Register(o);
    } else if choice == 1 {
      var supported: bool := *;
      var yOk: bool := *;
      var uvOk: bool := *;
      var _, _ := device.CreatePair(supported, yOk, uvOk);
    } else if choice == 2 {
      var n: nat := *;
      var o := device.Find(n);
      if o != null {
        device.Destroy(o);
      }
    } else {
      var running: set<GsObj> := *;
      device.RebuildDevice(running);
    }
  }

  /**
    Any run of creations, destructions and device losses. Throughout, the list, the pairs and the count of recreations
    are right, so that every loss can be handled.
   */
  method AnyRun(steps: nat) returns (device: Device)
    ensures device.Valid() && device.PairsValid() && device.Current()
  {
    device := new Device();
    for i := 0 to steps
      invariant fresh(device)
      invariant forall k | 0 <= k < |device.objs| :: fresh(device.objs[k])
      invariant device.Valid() && device.PairsValid() && device.Current()
    {
      assert fresh(device.objs);
      ghost var was := device.objs;
      AnyStep(device);
      forall k | 0 <= k < |device.objs| ensures fresh(device.objs[k]) {
        assert device.objs[k] in device.objs;
      }
    }
  }
}
