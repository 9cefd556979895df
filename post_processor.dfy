/**
 * The post-processing ping-pong state (src/core/post_processor.cpp).
 * Three off-screen buffers exist: the multisampled one, a primary one and
 * a secondary one, each a triple of GL names (framebuffer, colour texture,
 * depth renderbuffer). Filter passes read the "active" triple's texture,
 * draw into the "passive" triple's framebuffer and then swap the two.
 *
 * GL itself is abstracted: the names are parameters of the constructor,
 * the framebuffer binding for drawing is a field, and every blit or draw
 * call is appended to an event log.
 */
module PostProcessing {

  /** The three GL names that make up one off-screen buffer. */
  datatype Triple = Triple(frameBuffer: nat, texture: nat, depth: nat)

  /** The filter shaders loaded by the constructor. */
  datatype Shader = Default | Invert | BlurH | BlurV

  /** What the post-processor asks of GL, in order. */
  datatype Event =
    | Resample(source: nat, target: nat)
    | Drawn(shader: Shader, texture: nat, target: nat, count: nat)

  /** The handles that decide where the next pass reads and writes. */
  datatype Buffers = Buffers(primary: Triple, secondary: Triple, active: Triple, passive: Triple)

  /** GL hands out distinct names of each kind for the two buffers. */
  predicate Distinct(p: Triple, s: Triple)
  {
    p.frameBuffer != s.frameBuffer && p.texture != s.texture && p.depth != s.depth
  }

  /**
   * Active and passive are the primary and secondary buffers, one each, and
   * every component of a triple comes from the same buffer.
   */
  predicate Paired(b: Buffers)
  {
    Distinct(b.primary, b.secondary) &&
    ((b.active == b.primary && b.passive == b.secondary) ||
     (b.active == b.secondary && b.passive == b.primary))
  }

  /** bind_frame_buffer: primary becomes active, secondary passive. */
  function Bind(b: Buffers): (r: Buffers)
    ensures Distinct(b.primary, b.secondary) ==> Paired(r)
    ensures r.active == b.primary && r.passive == b.secondary
    ensures r.primary == b.primary && r.secondary == b.secondary
  {
    b.(active := b.primary, passive := b.secondary)
  }

  /**
   * swap_active_buffer: the branch looks at the active framebuffer name only, so
   * from any state (even one never bound) the result is a paired state.
   */
  function Swap(b: Buffers): (r: Buffers)
    ensures Distinct(b.primary, b.secondary) ==> Paired(r)
    ensures Paired(b) ==> r.active == b.passive && r.passive == b.active
    ensures r.primary == b.primary && r.secondary == b.secondary
  {
    if b.active.frameBuffer == b.primary.frameBuffer
    then b.(active := b.secondary, passive := b.primary)
    else b.(active := b.primary, passive := b.secondary)
  }

  /** Swapping twice restores a paired state. */
  lemma SwapTwice(b: Buffers)
    requires Paired(b)
    ensures Swap(Swap(b)) == b
  {
  }

  /**
   * In a paired state a pass never samples the texture of the framebuffer it
   * draws into, and active and passive are different buffers.
   */
  lemma ActiveNotPassive(b: Buffers)
    requires Paired(b)
    ensures b.active != b.passive
    ensures b.active.texture != b.passive.texture
    ensures b.active.frameBuffer != b.passive.frameBuffer
  {
  }

  /** Two passes after a bind leave the primary buffer active again. */
  lemma TwoPassesRestore(b: Buffers)
    requires Distinct(b.primary, b.secondary)
    ensures Swap(Swap(Bind(b))) == Bind(b)
    ensures Swap(Swap(Bind(b))).active == b.primary
  {
    SwapTwice(Bind(b));
  }

  /** The full-screen quad: two triangles over four corners. */
  const QuadIndices: seq<nat> := [0, 1, 2, 0, 2, 3]

  class PostProcessor {
    /** The multisample count of the msaa buffer. */
    const msaa: nat
    const msaaBuffer: Triple
    const primary: Triple
    const secondary: Triple
    /** Corners of the full-screen quad, as (x, y) pairs. */
    const positions: seq<(int, int)>
    const indices: seq<nat>

    var frameBufferActive: nat
    var textureActive: nat
    var depthActive: nat
    var frameBufferPassive: nat
    var texturePassive: nat
    var depthPassive: nat

    /** The framebuffer bound for drawing (0 is the screen). */
    var drawTarget: nat
    /** The blits and draws issued so far. */
    var events: seq<Event>

    function Active(): Triple
      reads this
    {
      Triple(frameBufferActive, textureActive, depthActive)
    }

    function Passive(): Triple
      reads this
    {
      Triple(frameBufferPassive, texturePassive, depthPassive)
    }

    function State(): Buffers
      reads this
    {
      Buffers(primary, secondary, Active(), Passive())
    }

    /**
     * The buffer names come from GL and are parameters here. The source
     * leaves the active and passive handles uninitialised; they start at 0.
     */
    constructor(msaaBuffer: Triple, primary: Triple, secondary: Triple)
      ensures this.msaa == 4
      ensures this.msaaBuffer == msaaBuffer && this.primary == primary && this.secondary == secondary
      ensures positions == [(-1, -1), (1, -1), (1, 1), (-1, 1)]
      ensures indices == QuadIndices
      ensures Active() == Triple(0, 0, 0) && Passive() == Triple(0, 0, 0)
      ensures drawTarget == 0 && events == []
    {
      this.msaa := 4;
      this.msaaBuffer := msaaBuffer;
      this.primary := primary;
      this.secondary := secondary;
      this.positions := [(-1, -1), (1, -1), (1, 1), (-1, 1)];
      this.indices := QuadIndices;
      frameBufferActive, textureActive, depthActive := 0, 0, 0;
      frameBufferPassive, texturePassive, depthPassive := 0, 0, 0;
      drawTarget := 0;
      events := [];
    }

    /** Bind the msaa framebuffer for the scene and reset the ping-pong pair. */
    method BindFrameBuffer()
      modifies this
      ensures State() == Bind(old(State()))
      ensures Distinct(primary, secondary) ==> Paired(State()) && Active() == primary
      ensures drawTarget == msaaBuffer.frameBuffer && events == old(events)
    {
      drawTarget := msaaBuffer.frameBuffer;

      frameBufferActive := primary.frameBuffer;
      textureActive := primary.texture;
      depthActive := primary.depth;

      frameBufferPassive := secondary.frameBuffer;
      texturePassive := secondary.texture;
      depthPassive := secondary.depth;
    }

    /** Return drawing to the screen. */
    method UnbindFrameBuffer()
      modifies this
      ensures drawTarget == 0
      ensures State() == old(State()) && events == old(events)
    {
      drawTarget := 0;
    }

    method SwapActiveBuffer()
      modifies this
      ensures State() == Swap(old(State()))
      ensures old(Paired(State())) ==> Active() == old(Passive()) && Passive() == old(Active())
      ensures Distinct(primary, secondary) ==> Paired(State())
      ensures drawTarget == old(drawTarget) && events == old(events)
    {
      if frameBufferActive == primary.frameBuffer {
        frameBufferActive := secondary.frameBuffer;
        textureActive := secondary.texture;
        depthActive := secondary.depth;

        frameBufferPassive := primary.frameBuffer;
        texturePassive := primary.texture;
        depthPassive := primary.depth;
      } else {
        frameBufferActive := primary.frameBuffer;
        textureActive := primary.texture;
        depthActive := primary.depth;

        frameBufferPassive := secondary.frameBuffer;
        texturePassive := secondary.texture;
        depthPassive := secondary.depth;
      }
    }

    /** Draw the quad with the active texture into the bound framebuffer. */
    method Render(shader: Shader)
      modifies this
      ensures events == old(events) + [Drawn(shader, textureActive, drawTarget, |indices|)]
      ensures State() == old(State()) && drawTarget == old(drawTarget)
    {
      events := events + [Drawn(shader, textureActive, drawTarget, |indices|)];
    }

    /** One filter pass: active texture into the passive framebuffer, then swap. */
    method Pass(shader: Shader)
      modifies this
      ensures events == old(events) + [Drawn(shader, old(textureActive), old(frameBufferPassive), |indices|)]
      ensures State() == Swap(old(State()))
      ensures old(Paired(State())) ==> Active() == old(Passive())
      ensures drawTarget == 0
    {
      drawTarget := frameBufferPassive;
      Render(shader);
      drawTarget := 0;
      SwapActiveBuffer();
    }

    /** The horizontal then the vertical blur. */
    method ApplyFilters()
      modifies this
      ensures State() == Swap(Swap(old(State())))
      ensures old(Paired(State())) ==> State() == old(State())
      ensures old(Paired(State())) ==>
        events == old(events) + [Drawn(BlurH, old(textureActive), old(frameBufferPassive), |indices|),
                                 Drawn(BlurV, old(texturePassive), old(frameBufferActive), |indices|)]
      ensures drawTarget == 0
    {
      ghost var before := State();
      Pass(BlurH);
      Pass(BlurV);
      if Paired(before) {
        SwapTwice(before);
      }
    }

    /** Blit the multisampled scene into the primary buffer. */
    method ResampleBuffer()
      modifies this
      ensures events == old(events) + [Resample(msaaBuffer.frameBuffer, primary.frameBuffer)]
      ensures drawTarget == 0 && State() == old(State())
    {
      events := events + [Resample(msaaBuffer.frameBuffer, primary.frameBuffer)];
      drawTarget := 0;
    }

    /**
     * Resample, filter and show. After bind_frame_buffer the filters run
     * primary -> secondary -> primary, so the screen gets the primary texture.
     */
    method Draw()
      requires Paired(State()) && Active() == primary
      modifies this
      ensures events == old(events) + [
        Resample(msaaBuffer.frameBuffer, primary.frameBuffer),
        Drawn(BlurH, primary.texture, secondary.frameBuffer, |indices|),
        Drawn(BlurV, secondary.texture, primary.frameBuffer, |indices|),
        Drawn(Default, primary.texture, 0, |indices|)]
      ensures State() == old(State()) && Active() == primary
    {
      ResampleBuffer();
      ApplyFilters();
      Render(Default);
    }
  }
}
