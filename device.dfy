/** An abstract GPU device standing in for Godot's RenderingServer and its RenderingDevice.
    It hands out resource handles (RIDs), keeps the set of handles currently alive and
    records every call it receives, so that "no device call" and "no leaked handle" can be
    stated. Whether a texture, framebuffer or uniform set can be created is the device's
    choice: those calls may return the invalid handle. */
module Device {

  /** A resource handle; 0 is the invalid handle (an unset RID). */
  type Rid = nat

  const InvalidRid: Rid := 0

  predicate IsValid(r: Rid) {
    r != InvalidRid
  }

  /** The valid handles among `rs`. */
  function ValidOnes(rs: set<Rid>): (v: set<Rid>)
    ensures forall r :: r in v <==> r in rs && IsValid(r)
  {
    rs - {InvalidRid}
  }

  datatype DataFormat = R16G16B16A16Sfloat | R16Sfloat

  datatype Color = Color(r: real, g: real, b: real, a: real)

  const Transparent: Color := Color(0.0, 0.0, 0.0, 0.0)
  const OpaqueWhite: Color := Color(1.0, 1.0, 1.0, 1.0)

  /** A uniform of type "sampler with texture" at a binding slot. */
  datatype Uniform = SamplerWithTexture(binding: nat, texture: Rid)

  /** The calls a client can make; the device logs each one it receives. */
  datatype Command =
    | ShaderCreate(code: string)
    | TextureCreate(format: DataFormat, width: int, height: int)
    | TextureClear(texture: Rid, color: Color)
    | FramebufferCreate(textures: seq<Rid>)
    | DrawListBegin(framebuffer: Rid, clearColors: seq<Color>)
    | DrawListEnd
    | UniformSetCreate(uniforms: seq<Uniform>, shader: Rid, setIndex: nat)
    | ComputeListBegin
    | ComputeListBindPipeline(shader: Rid)
    | ComputeListBindUniformSet(uniformSet: Rid, setIndex: nat)
    | ComputeListDispatch(x: int, y: int, z: int)
    | ComputeListEnd
    | Submit
    | Sync
    | FreeRid(rid: Rid)

  class RenderingDevice {
    /** Handles allocated and not yet freed. */
    var live: set<Rid>
    /** Every handle ever issued is below `next`, so a new handle is never a reused one. */
    var next: Rid
    /** Every call received, oldest first. */
    var log: seq<Command>
    /** For every handle ever issued, the creation call that returned it. */
    ghost var made: map<Rid, Command>

    ghost predicate Valid()
      reads this
    {
      0 < next && InvalidRid !in live && (forall r :: r in live ==> r < next)
      && forall r :: r in made ==> IsValid(r) && r < next
    }

    constructor ()
      ensures Valid() && live == {} && log == [] && made == map[]
    {
      live, next, log, made := {}, 1, [], map[];
    }

    /** Issues, for the creation call `c`, a handle that has never been issued before. */
    method Allocate(ghost c: Command) returns (r: Rid)
      requires Valid()
      modifies this`live, this`next, this`made
      ensures Valid() && IsValid(r) && r !in old(live) && r !in old(made) && old(next) <= r < next
      ensures live == old(live) + {r} && made == old(made)[r := c]
    {
      r := next;
      live, next, made := live + {r}, next + 1, made[r := c];
    }

    /** Either issues a new handle for `c` or fails with the invalid handle, at the device's
        choice. */
    method TryAllocate(ghost c: Command) returns (r: Rid)
      requires Valid()
      modifies this`live, this`next, this`made
      ensures Valid()
      ensures IsValid(r) ==>
        r !in old(live) && r !in old(made) && old(next) <= r < next
        && live == old(live) + {r} && made == old(made)[r := c]
      ensures !IsValid(r) ==> live == old(live) && next == old(next) && made == old(made)
    {
      var ok: bool :| true;
      if ok {
        r := Allocate(c);
      } else {
        r := InvalidRid;
      }
    }

    method CreateShader(code: string) returns (r: Rid)
      requires Valid()
      modifies this
      ensures Valid() && IsValid(r) && r !in old(live) && r !in old(made) && old(next) <= r < next
      ensures live == old(live) + {r} && log == old(log) + [ShaderCreate(code)]
      ensures made == old(made)[r := ShaderCreate(code)]
    {
      log := log + [ShaderCreate(code)];
      r := Allocate(ShaderCreate(code));
    }

    method CreateTexture(format: DataFormat, width: int, height: int) returns (r: Rid)
      requires Valid()
      modifies this
      ensures Valid() && log == old(log) + [TextureCreate(format, width, height)]
      ensures IsValid(r) ==>
        r !in old(live) && r !in old(made) && old(next) <= r < next
        && live == old(live) + {r} && made == old(made)[r := TextureCreate(format, width, height)]
      ensures !IsValid(r) ==> live == old(live) && next == old(next) && made == old(made)
    {
      log := log + [TextureCreate(format, width, height)];
      r := TryAllocate(TextureCreate(format, width, height));
    }

    method CreateFramebuffer(textures: seq<Rid>) returns (r: Rid)
      requires Valid()
      modifies this
      ensures Valid() && log == old(log) + [FramebufferCreate(textures)]
      ensures IsValid(r) ==>
        r !in old(live) && r !in old(made) && old(next) <= r < next
        && live == old(live) + {r} && made == old(made)[r := FramebufferCreate(textures)]
      ensures !IsValid(r) ==> live == old(live) && next == old(next) && made == old(made)
    {
      log := log + [FramebufferCreate(textures)];
      r := TryAllocate(FramebufferCreate(textures));
    }

    method CreateUniformSet(uniforms: seq<Uniform>, shader: Rid, setIndex: nat) returns (r: Rid)
      requires Valid()
      modifies this
      ensures Valid() && log == old(log) + [UniformSetCreate(uniforms, shader, setIndex)]
      ensures IsValid(r) ==>
        r !in old(live) && r !in old(made) && old(next) <= r < next
        && live == old(live) + {r} && made == old(made)[r := UniformSetCreate(uniforms, shader, setIndex)]
      ensures !IsValid(r) ==> live == old(live) && next == old(next) && made == old(made)
    {
      log := log + [UniformSetCreate(uniforms, shader, setIndex)];
      r := TryAllocate(UniformSetCreate(uniforms, shader, setIndex));
    }

    /** Frees a handle; freeing one that is not alive changes nothing but is still a call. */
    method Free(r: Rid)
      requires Valid()
      modifies this`live, this`log
      ensures Valid() && live == old(live) - {r} && log == old(log) + [FreeRid(r)]
    {
      log := log + [FreeRid(r)];
      live := live - {r};
    }

    /** Any call that allocates and frees nothing (clears, draw and compute lists,
        submit and sync). */
    method Issue(c: Command)
      requires Valid()
      requires !c.ShaderCreate? && !c.TextureCreate? && !c.FramebufferCreate?
      requires !c.UniformSetCreate? && !c.FreeRid?
      modifies this`log
      ensures Valid() && log == old(log) + [c]
    {
      log := log + [c];
    }
  }
}
