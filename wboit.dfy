/** The weighted blended order-independent transparency renderer (`WBOITRenderer`): its
    lifecycle state machine over the abstract device, the accumulation pass and the
    composite pass. Only the control flow, the handle bookkeeping and the integer
    arithmetic are modelled; the blending itself lives in shaders the source never binds. */
module Wboit {
  import opened Common
  import opened Device

  datatype Vector2i = Vector2i(x: Int32, y: Int32)

  /** The size a freshly constructed renderer assumes. */
  const DefaultViewportSize: Vector2i := Vector2i(1920, 1080)

  /** What reading the two shader files yields at the time they are read: their text,
      or "" for a file that cannot be opened. */
  datatype ShaderSources = ShaderSources(accumulate: string, composite: string)

  predicate Loaded(sources: ShaderSources) {
    |sources.accumulate| > 0 && |sources.composite| > 0
  }

  /** An entry of the `objects` array: a `MeshInstance3D` with its mesh's handle (None for
      a null mesh), or anything else, a null entry included. */
  datatype SceneObject = MeshInstance3D(mesh: Option<Rid>) | OtherObject

  /** Every `MeshInstance3D` entry has a mesh: the accumulation loop dereferences the mesh
      without checking it. */
  predicate MeshesPresent(objects: seq<SceneObject>) {
    forall i :: 0 <= i < |objects| && objects[i].MeshInstance3D? ==> objects[i].mesh.Some?
  }

  /** The mesh handles of the `MeshInstance3D` entries, in order; other entries are skipped. */
  function MeshHandles(objects: seq<SceneObject>): (hs: seq<Rid>)
    ensures |hs| <= |objects|
    ensures forall h :: h in hs <==> MeshInstance3D(Some(h)) in objects
  {
    if objects == [] then []
    else
      var init, last := objects[..|objects| - 1], objects[|objects| - 1];
      assert objects == init + [last];
      MeshHandles(init) + (if last.MeshInstance3D? && last.mesh.Some? then [last.mesh.value] else [])
  }

  lemma {:induction false} MeshHandlesAppend(a: seq<SceneObject>, b: seq<SceneObject>)
    ensures MeshHandles(a + b) == MeshHandles(a) + MeshHandles(b)
    decreases |b|
  {
    if b == [] {
      assert a + b == a;
    } else {
      var init := b[..|b| - 1];
      assert (a + b)[..|a + b| - 1] == a + init;
      assert (a + b)[|a + b| - 1] == b[|b| - 1];
      MeshHandlesAppend(a, init);
    }
  }

  /** An array holding no `MeshInstance3D` yields no handles, however long it is. */
  lemma {:induction false} MeshHandlesSkipOthers(objects: seq<SceneObject>)
    requires forall i :: 0 <= i < |objects| ==> objects[i] == OtherObject
    ensures MeshHandles(objects) == []
  {
    if objects != [] {
      MeshHandlesSkipOthers(objects[..|objects| - 1]);
    }
  }

  /** The number of 8-wide work groups the composite dispatch uses along one axis:
      `(extent + 7) / 8` on C++ `int`s. */
  function GroupCount(extent: Int32): (g: Int32)
    ensures 0 <= extent <= MaxInt32 - 7 ==> 0 <= g && extent <= 8 * g < extent + 8
    ensures extent < 0 ==> g <= 0
    ensures MaxInt32 - 7 < extent ==> g < 0
  {
    TruncDiv(WrapInt32(extent + 7), 8)
  }

  /** The calls `create_render_targets` makes on a present device. */
  function TargetCommands(size: Vector2i): seq<Command> {
    [TextureCreate(R16G16B16A16Sfloat, size.x, size.y), TextureCreate(R16Sfloat, size.x, size.y)]
  }

  /** The calls `create_shaders` makes on a present device, given the handles the two
      creations return: each shader is released when the local `Ref<Shader>` holding it goes
      out of scope at the end of the function, the one declared last first. */
  function ShaderCommands(sources: ShaderSources, accumulate: Rid, composite: Rid): seq<Command> {
    if Loaded(sources) then
      [ShaderCreate(sources.accumulate), ShaderCreate(sources.composite), FreeRid(composite), FreeRid(accumulate)]
    else []
  }

  /** `r` is the invalid handle or one the device issued for the call `c`. */
  ghost predicate MadeBy(rd: RenderingDevice, r: Rid, c: Command)
    reads rd
  {
    IsValid(r) ==> r in rd.made && rd.made[r] == c
  }

  /** Every handle issued in `before` is still recorded with the same creation call. */
  ghost predicate Grows(before: map<Rid, Command>, after: map<Rid, Command>) {
    forall r :: r in before ==> r in after && after[r] == before[r]
  }

  function FreeIfValid(r: Rid): seq<Command> {
    if IsValid(r) then [FreeRid(r)] else []
  }

  /** The calls one accumulation pass makes once it has passed its guards. */
  function AccumulationCommands(accumulation: Rid, revealage: Rid, framebuffer: Rid): seq<Command> {
    [TextureClear(accumulation, Transparent), TextureClear(revealage, OpaqueWhite),
     FramebufferCreate([accumulation, revealage])]
    + if IsValid(framebuffer) then
        [DrawListBegin(framebuffer, [Transparent, OpaqueWhite]), DrawListEnd, Submit, Sync,
         FreeRid(framebuffer)]
      else []
  }

  /** The calls one composite pass makes once it has passed its guards. */
  function CompositeCommands(accumulation: Rid, revealage: Rid, shader: Rid, uniformSet: Rid,
                             size: Vector2i): seq<Command> {
    [UniformSetCreate([SamplerWithTexture(0, accumulation), SamplerWithTexture(1, revealage)], shader, 0)]
    + if IsValid(uniformSet) then
        [ComputeListBegin, ComputeListBindPipeline(shader), ComputeListBindUniformSet(uniformSet, 0),
         ComputeListDispatch(GroupCount(size.x), GroupCount(size.y), 1), ComputeListEnd,
         Submit, Sync, FreeRid(uniformSet)]
      else []
  }

  /** Every call the accumulation pass makes after creating its framebuffer, and the last
      call frees it: the pass never ends with the framebuffer alive. */
  lemma AccumulationFreesFramebuffer(accumulation: Rid, revealage: Rid, framebuffer: Rid)
    requires IsValid(framebuffer)
    ensures var cs := AccumulationCommands(accumulation, revealage, framebuffer);
      |cs| == 8 && cs[7] == FreeRid(framebuffer) && cs[3].DrawListBegin? && cs[3].framebuffer == framebuffer
      && forall k :: 0 <= k < 3 ==> !cs[k].DrawListBegin? && !cs[k].FreeRid?
  {
  }

  /** A successful composite pass dispatches, inside one compute list, the least number of
      8-wide work groups that covers each axis of a viewport no wider than `MaxInt32 - 7`,
      one deep, and frees its uniform set last. */
  lemma CompositeDispatchCovers(accumulation: Rid, revealage: Rid, shader: Rid, uniformSet: Rid,
                                size: Vector2i)
    requires IsValid(uniformSet)
    requires 0 <= size.x <= MaxInt32 - 7 && 0 <= size.y <= MaxInt32 - 7
    ensures var cs := CompositeCommands(accumulation, revealage, shader, uniformSet, size);
      |cs| == 9 && cs[1] == ComputeListBegin && cs[5] == ComputeListEnd && cs[8] == FreeRid(uniformSet)
      && cs[4].ComputeListDispatch? && cs[4].z == 1
      && size.x <= 8 * cs[4].x && (forall g: int :: size.x <= 8 * g ==> cs[4].x <= g)
      && size.y <= 8 * cs[4].y && (forall g: int :: size.y <= 8 * g ==> cs[4].y <= g)
  {
    var gx, gy := GroupCount(size.x), GroupCount(size.y);
    forall g: int | size.x <= 8 * g
      ensures gx <= g
    {
      assert 8 * g > 8 * gx - 8;
    }
    forall g: int | size.y <= 8 * g
      ensures gy <= g
    {
      assert 8 * g > 8 * gy - 8;
    }
  }

  class WboitRenderer {
    /** `m_accumulation_fb`: declared by the source and never assigned. */
    var accumulationFb: Rid
    var accumulationTexture: Rid
    var revealageTexture: Rid
    var compositeShader: Rid
    var accumulateShader: Rid
    var initialized: bool
    var viewportSize: Vector2i

    ghost function Textures(): set<Rid>
      reads this
    {
      {accumulationTexture, revealageTexture}
    }

    constructor ()
      ensures !initialized && viewportSize == DefaultViewportSize
      ensures accumulationFb == InvalidRid && accumulationTexture == InvalidRid
      ensures revealageTexture == InvalidRid
      ensures compositeShader == InvalidRid && accumulateShader == InvalidRid
    {
      accumulationFb, accumulationTexture, revealageTexture := InvalidRid, InvalidRid, InvalidRid;
      compositeShader, accumulateShader := InvalidRid, InvalidRid;
      initialized := false;
      viewportSize := DefaultViewportSize;
    }

    /** Stores the size, creates the targets and the shaders, and marks the renderer
        initialized whatever the device and the shader files gave. */
    method Initialize(size: Vector2i, rd: RenderingDevice?, sources: ShaderSources)
      requires rd != null ==> rd.Valid()
      modifies this, rd
      ensures viewportSize == size && initialized && accumulationFb == old(accumulationFb)
      ensures rd == null ==>
        accumulationTexture == old(accumulationTexture) && revealageTexture == old(revealageTexture)
      ensures rd == null || !Loaded(sources) ==>
        accumulateShader == old(accumulateShader) && compositeShader == old(compositeShader)
      ensures rd != null ==> rd.Valid() && Grows(old(rd.made), rd.made)
      ensures rd != null ==>
        rd.log == old(rd.log) + TargetCommands(size) + ShaderCommands(sources, accumulateShader, compositeShader)
      ensures rd != null ==>
        MadeBy(rd, accumulationTexture, TextureCreate(R16G16B16A16Sfloat, size.x, size.y))
        && MadeBy(rd, revealageTexture, TextureCreate(R16Sfloat, size.x, size.y))
        && (IsValid(accumulationTexture) && IsValid(revealageTexture) ==> accumulationTexture != revealageTexture)
      ensures rd != null ==> forall h :: h in ValidOnes(Textures()) ==> h !in old(rd.live) && old(rd.next) <= h
      ensures rd != null && Loaded(sources) ==>
        IsValid(accumulateShader) && IsValid(compositeShader) && accumulateShader != compositeShader
        && MadeBy(rd, accumulateShader, ShaderCreate(sources.accumulate))
        && MadeBy(rd, compositeShader, ShaderCreate(sources.composite))
        && accumulateShader !in rd.live && compositeShader !in rd.live
      ensures rd != null ==> rd.live == old(rd.live) + ValidOnes(Textures())
    {
      viewportSize := size;
      CreateRenderTargets(rd);
      CreateShaders(rd, sources);
      initialized := true;
    }

    /** Creates both targets at the current size; each may come back invalid. Without a
        device nothing happens. The old handles are overwritten, not freed. */
    method CreateRenderTargets(rd: RenderingDevice?)
      requires rd != null ==> rd.Valid()
      modifies this`accumulationTexture, this`revealageTexture, rd
      ensures rd == null ==>
        accumulationTexture == old(accumulationTexture) && revealageTexture == old(revealageTexture)
      ensures rd != null ==> rd.Valid() && rd.log == old(rd.log) + TargetCommands(viewportSize)
      ensures rd != null ==>
        MadeBy(rd, accumulationTexture, TextureCreate(R16G16B16A16Sfloat, viewportSize.x, viewportSize.y))
        && MadeBy(rd, revealageTexture, TextureCreate(R16Sfloat, viewportSize.x, viewportSize.y))
        && (IsValid(accumulationTexture) && IsValid(revealageTexture) ==> accumulationTexture != revealageTexture)
        && Grows(old(rd.made), rd.made)
      ensures rd != null ==> rd.live == old(rd.live) + ValidOnes(Textures())
      ensures rd != null ==> forall h :: h in ValidOnes(Textures()) ==> h !in old(rd.live) && old(rd.next) <= h
      ensures rd != null ==> old(rd.next) <= rd.next
    {
      if rd == null {
        return;
      }
      accumulationTexture := rd.CreateTexture(R16G16B16A16Sfloat, viewportSize.x, viewportSize.y);
      revealageTexture := rd.CreateTexture(R16Sfloat, viewportSize.x, viewportSize.y);
    }

    /** Creates the two shaders when a device is present and both sources are non-empty;
        otherwise leaves the shader handles as they were. The shader objects are locals, so
        both are released on return: the stored handles no longer name live shaders. */
    method CreateShaders(rd: RenderingDevice?, sources: ShaderSources)
      requires rd != null ==> rd.Valid()
      modifies this`accumulateShader, this`compositeShader, rd
      ensures rd == null || !Loaded(sources) ==>
        accumulateShader == old(accumulateShader) && compositeShader == old(compositeShader)
      ensures rd != null ==>
        rd.Valid() && rd.log == old(rd.log) + ShaderCommands(sources, accumulateShader, compositeShader)
        && rd.live == old(rd.live) && Grows(old(rd.made), rd.made)
      ensures rd != null && Loaded(sources) ==>
        IsValid(accumulateShader) && IsValid(compositeShader) && accumulateShader != compositeShader
        && MadeBy(rd, accumulateShader, ShaderCreate(sources.accumulate))
        && MadeBy(rd, compositeShader, ShaderCreate(sources.composite))
        && accumulateShader !in rd.live && compositeShader !in rd.live
      ensures rd != null ==> old(rd.next) <= rd.next
    {
      if rd == null {
        return;
      }
      if |sources.accumulate| == 0 || |sources.composite| == 0 {
        return;
      }
      accumulateShader := rd.CreateShader(sources.accumulate);
      compositeShader := rd.CreateShader(sources.composite);
      rd.Free(compositeShader);
      rd.Free(accumulateShader);
    }

    /** The accumulation pass. Without initialization or a device it calls nothing. Otherwise
        it clears both targets, creates a framebuffer over them and, if that succeeded, walks
        the objects, submits, syncs and frees the framebuffer. It returns the mesh handles the
        walk fetched, and the framebuffer handle as a ghost. */
    method RenderTransparentObjects(objects: seq<SceneObject>, rd: RenderingDevice?)
      returns (drawn: seq<Rid>, ghost framebuffer: Rid)
      requires rd != null ==> rd.Valid()
      requires initialized && rd != null ==> MeshesPresent(objects)
      modifies rd
      ensures rd != null ==> rd.Valid()
      ensures !initialized || rd == null ==> drawn == [] && (rd != null ==> unchanged(rd))
      ensures initialized && rd != null ==>
        rd.log == old(rd.log) + AccumulationCommands(accumulationTexture, revealageTexture, framebuffer)
        && rd.live == old(rd.live) && Grows(old(rd.made), rd.made)
        && (IsValid(framebuffer) ==> framebuffer !in old(rd.live))
        && drawn == (if IsValid(framebuffer) then MeshHandles(objects) else [])
    {
      drawn, framebuffer := [], InvalidRid;
      if !initialized {
        return;
      }
      if rd == null {
        return;
      }
      ghost var log0, live0 := rd.log, rd.live;
      rd.Issue(TextureClear(accumulationTexture, Transparent));
      rd.Issue(TextureClear(revealageTexture, OpaqueWhite));
      var fb := rd.CreateFramebuffer([accumulationTexture, revealageTexture]);
      framebuffer := fb;
      ghost var prefix := AccumulationCommands(accumulationTexture, revealageTexture, InvalidRid);
      assert rd.log == log0 + prefix;
      if !IsValid(fb) {
        return;
      }
      drawn := DrawTransparentObjects(objects, rd, fb);
      if IsValid(fb) {
        rd.Free(fb);
      }
      assert rd.log == log0 + AccumulationCommands(accumulationTexture, revealageTexture, fb);
      assert rd.live == live0;
    }

    /** The composite pass. Without initialization or a device it calls nothing. Otherwise
        it creates a uniform set over both targets and, if that succeeded, dispatches the
        composite shader over `GroupCount(width) x GroupCount(height) x 1` work groups,
        submits, syncs and frees the uniform set (returned as a ghost). `inTree` says the
        renderer is in the scene tree: the pass looks up its viewport without a null check. */
    method CompositeToScreen(rd: RenderingDevice?, inTree: bool) returns (ghost uniformSet: Rid)
      requires rd != null ==> rd.Valid()
      requires initialized && rd != null ==> inTree
      modifies rd
      ensures rd != null ==> rd.Valid()
      ensures (!initialized || rd == null) && rd != null ==> unchanged(rd)
      ensures initialized && rd != null ==>
        rd.log == old(rd.log)
          + CompositeCommands(accumulationTexture, revealageTexture, compositeShader, uniformSet, viewportSize)
        && rd.live == old(rd.live) && Grows(old(rd.made), rd.made)
        && (IsValid(uniformSet) ==> uniformSet !in old(rd.live))
    {
      uniformSet := InvalidRid;
      if !initialized {
        return;
      }
      if rd == null {
        return;
      }
      var uniforms := [SamplerWithTexture(0, accumulationTexture), SamplerWithTexture(1, revealageTexture)];
      ghost var log0, live0 := rd.log, rd.live;
      var us := rd.CreateUniformSet(uniforms, compositeShader, 0);
      uniformSet := us;
      ghost var prefix := [UniformSetCreate(uniforms, compositeShader, 0)];
      assert rd.log == log0 + prefix;
      if !IsValid(us) {
        return;
      }
      DispatchComposite(rd, us);
      if IsValid(us) {
        rd.Free(us);
      }
      assert rd.log == log0
        + CompositeCommands(accumulationTexture, revealageTexture, compositeShader, us, viewportSize);
      assert rd.live == live0;
    }

    /** The part of the accumulation pass between creating and freeing the framebuffer:
        opens a draw list on it, walks the objects fetching each `MeshInstance3D`'s mesh
        handle (the draw calls themselves are not issued by the source), closes the list,
        submits and syncs. */
    method DrawTransparentObjects(objects: seq<SceneObject>, rd: RenderingDevice, fb: Rid)
      returns (drawn: seq<Rid>)
      requires rd.Valid() && MeshesPresent(objects)
      modifies rd`log
      ensures rd.Valid()
      ensures rd.log == old(rd.log) + [DrawListBegin(fb, [Transparent, OpaqueWhite]), DrawListEnd, Submit, Sync]
      ensures drawn == MeshHandles(objects)
    {
      rd.Issue(DrawListBegin(fb, [Transparent, OpaqueWhite]));
      drawn := [];
      var i := 0;
      while i < |objects|
        modifies {}
        invariant 0 <= i <= |objects|
        invariant drawn == MeshHandles(objects[..i])
      {
        var obj := objects[i];
        if obj.MeshInstance3D? {
          drawn := drawn + [obj.mesh.value];
        }
        assert objects[..i + 1] == objects[..i] + [obj];
        MeshHandlesAppend(objects[..i], [obj]);
        i := i + 1;
      }
      assert objects[..i] == objects;
      rd.Issue(DrawListEnd);
      rd.Issue(Submit);
      rd.Issue(Sync);
    }

    /** The part of the composite pass between creating and freeing the uniform set: binds
        the composite shader and the set, dispatches `GroupCount(width) x GroupCount(height)
        x 1` work groups, closes the list, submits and syncs. */
    method DispatchComposite(rd: RenderingDevice, uniformSet: Rid)
      requires rd.Valid()
      modifies rd`log
      ensures rd.Valid()
      ensures rd.log == old(rd.log)
        + [ComputeListBegin, ComputeListBindPipeline(compositeShader), ComputeListBindUniformSet(uniformSet, 0),
           ComputeListDispatch(GroupCount(viewportSize.x), GroupCount(viewportSize.y), 1), ComputeListEnd,
           Submit, Sync]
    {
      rd.Issue(ComputeListBegin);
      rd.Issue(ComputeListBindPipeline(compositeShader));
      rd.Issue(ComputeListBindUniformSet(uniformSet, 0));
      var groupsX := GroupCount(viewportSize.x);
      var groupsY := GroupCount(viewportSize.y);
      rd.Issue(ComputeListDispatch(groupsX, groupsY, 1));
      rd.Issue(ComputeListEnd);
      rd.Issue(Submit);
      rd.Issue(Sync);
    }

    /** Stores a changed size; when initialized, tears the resources down and rebuilds them
        at that size. An unchanged size is a no-op. */
    method SetViewportSize(size: Vector2i, rd: RenderingDevice?, sources: ShaderSources)
      requires rd != null ==> rd.Valid()
      modifies this, rd
      ensures viewportSize == size
      ensures rd != null ==> rd.Valid()
      ensures old(viewportSize) == size ==> unchanged(this) && (rd != null ==> unchanged(rd))
      ensures old(viewportSize) != size && !old(initialized) ==>
        !initialized && accumulationFb == old(accumulationFb)
        && accumulationTexture == old(accumulationTexture) && revealageTexture == old(revealageTexture)
        && accumulateShader == old(accumulateShader) && compositeShader == old(compositeShader)
        && (rd != null ==> unchanged(rd))
      ensures old(viewportSize) != size && old(initialized) ==>
        initialized && accumulationFb == old(accumulationFb)
      ensures old(viewportSize) != size && old(initialized) && rd == null ==>
        accumulationTexture == old(accumulationTexture) && revealageTexture == old(revealageTexture)
        && accumulateShader == old(accumulateShader) && compositeShader == old(compositeShader)
      ensures old(viewportSize) != size && old(initialized) && rd != null ==>
        rd.log == old(rd.log) + FreeIfValid(old(accumulationTexture)) + FreeIfValid(old(revealageTexture))
          + TargetCommands(size) + ShaderCommands(sources, accumulateShader, compositeShader)
        && rd.live == old(rd.live) - old(Textures()) + ValidOnes(Textures())
        && Grows(old(rd.made), rd.made)
        && MadeBy(rd, accumulationTexture, TextureCreate(R16G16B16A16Sfloat, size.x, size.y))
        && MadeBy(rd, revealageTexture, TextureCreate(R16Sfloat, size.x, size.y))
        && (Loaded(sources) ==>
              MadeBy(rd, accumulateShader, ShaderCreate(sources.accumulate))
              && MadeBy(rd, compositeShader, ShaderCreate(sources.composite)))
        && (!Loaded(sources) ==>
              accumulateShader == old(accumulateShader) && compositeShader == old(compositeShader))
      ensures old(viewportSize) != size && old(initialized) && rd != null ==>
        (forall h :: h in ValidOnes(Textures()) ==> h !in old(rd.live))
        && (IsValid(accumulationTexture) && IsValid(revealageTexture) ==> accumulationTexture != revealageTexture)
        && (Loaded(sources) ==>
              IsValid(accumulateShader) && IsValid(compositeShader) && accumulateShader != compositeShader
              && accumulateShader !in rd.live && compositeShader !in rd.live)
    {
      if viewportSize != size {
        viewportSize := size;
        if initialized {
          CleanupResources(rd);
          Initialize(size, rd, sources);
        }
      }
    }

    method GetViewportSize() returns (size: Vector2i)
      ensures size == viewportSize
    {
      size := viewportSize;
    }

    /** Frees whichever of the two targets is valid when a device is present, and always
        clears the initialized flag. The handles are kept as they were and the shaders are
        not freed. */
    method CleanupResources(rd: RenderingDevice?)
      requires rd != null ==> rd.Valid()
      modifies this`initialized, rd
      ensures !initialized
      ensures rd != null ==> rd.Valid() && rd.next == old(rd.next) && rd.made == old(rd.made)
      ensures rd != null ==> rd.live == old(rd.live) - Textures()
      ensures rd != null ==>
        rd.log == old(rd.log) + FreeIfValid(accumulationTexture) + FreeIfValid(revealageTexture)
    {
      if rd != null {
        if IsValid(accumulationTexture) {
          rd.Free(accumulationTexture);
        }
        if IsValid(revealageTexture) {
          rd.Free(revealageTexture);
        }
      }
      initialized := false;
    }
  }
}
