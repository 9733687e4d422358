/**
 The receiver component: on each game-thread tick it looks up the subscribed
 sender, gates on the input render target and the sender's format, rebuilds
 its interop context when the sender's descriptor changed, and then runs the
 render-thread step that copies the shared texture into the intermediate
 texture and draws that into the render target.

 The render command the tick enqueues is run at once, on the same state.
 */
module Receiver {
  import opened Wrappers
  import opened Formats
  import Interop

  /** What looking up the subscribed name finds: the sender's size, share handle and format. */
  datatype SenderInfo = SenderInfo(width: nat, height: nat, handle: nat, format: DxgiFormat)

  /** What a receiver context is built for; the share handle is not part of it. */
  datatype Descriptor = Descriptor(width: nat, height: nat, format: DxgiFormat)

  function DescriptorOf(info: SenderInfo): Descriptor {
    Descriptor(info.width, info.height, info.format)
  }

  /**
   The game-thread gate: work goes to the render thread only when there is an
   input render target, the sender was found and its format maps to an engine
   pixel format.
   */
  function Gate(hasInput: bool, found: Option<SenderInfo>): (g: Option<SenderInfo>)
    ensures g.Some? <==> hasInput && found.Some? && IsSupported(found.value.format)
    ensures g.Some? ==> g == found && PixelFormatOf(g.value.format) != PF_Unknown
  {
    if !hasInput then None
    else match found
      case None => None
      case Some(info) => if PixelFormatOf(info.format) == PF_Unknown then None else found
  }

  /** The render thread rebuilds when there is no context or its width, height or format differs. */
  function NeedsRebuild(cached: Option<Descriptor>, d: Descriptor): (r: bool)
    ensures r <==> cached != Some(d)
  {
    cached.None?
    || cached.value.width != d.width
    || cached.value.height != d.height
    || cached.value.format != d.format
  }

  /** One tick rebuilds when the gate lets a sender through whose descriptor is not the cached one. */
  predicate Rebuilds(cached: Option<Descriptor>, g: Option<SenderInfo>) {
    g.Some? && NeedsRebuild(cached, DescriptorOf(g.value))
  }

  /** The cached descriptor after a tick that did not terminate. */
  function NextCached(cached: Option<Descriptor>, g: Option<SenderInfo>): (c: Option<Descriptor>)
    ensures g.None? ==> c == cached
    ensures g.Some? ==> c == Some(DescriptorOf(g.value))
  {
    if g.None? then cached else Some(DescriptorOf(g.value))
  }

  /** What the component does, in order, as seen from outside. */
  datatype ReceiverEvent =
    | CreateIntermediate(width: nat, height: nat, format: PixelFormat, texture: nat)
    | ContextCreated(backend: Interop.Backend, calls: seq<Interop.DeviceCall>)
    | ContextReleased(released: seq<Interop.HandleKind>)
    | OpenShared(handle: nat)
    | Device(calls: seq<Interop.DeviceCall>)
    | ReleaseShared(handle: nat)
    | DrawToRenderTarget

  /**
   The render-thread step with a context: open the shared texture, copy it
   (the opened resource is identified by its share handle), release it, draw.
   */
  function RenderEvents(hasWorld: bool, handle: nat, b: Interop.Backend, texture: nat): seq<ReceiverEvent> {
    if !hasWorld then []
    else [OpenShared(handle), Device(Interop.TickCalls(b, texture, handle)), ReleaseShared(handle), DrawToRenderTarget]
  }

  /**
   Each render-thread step opens the shared texture, copies from it while it is
   open (inside the wrapped resource's bracket), releases it once and then
   draws; without a world it does none of these.
   */
  lemma RenderStepBalanced(hasWorld: bool, handle: nat, b: Interop.Backend, texture: nat)
    ensures var es := RenderEvents(hasWorld, handle, b, texture);
      && multiset(es)[OpenShared(handle)] == multiset(es)[ReleaseShared(handle)] == (if hasWorld then 1 else 0)
      && (DrawToRenderTarget in es <==> hasWorld)
      && (forall i :: 0 <= i < |es| && es[i].Device? ==> Interop.Bracketed(es[i].calls))
      && (forall i, j :: 0 <= i < j < |es| && es[i].ReleaseShared? && es[j].OpenShared? ==> false)
      && (hasWorld ==>
            && es[0] == OpenShared(handle)
            && es[1].Device? && es[1].calls == Interop.TickCalls(b, texture, handle)
            && es[2] == ReleaseShared(handle)
            && es[3] == DrawToRenderTarget)
      && (!hasWorld ==> es == [])
  {
    var es := RenderEvents(hasWorld, handle, b, texture);
    Interop.TickBracketed(b, texture, handle);
    if hasWorld {
      assert es == [OpenShared(handle)] + [Device(Interop.TickCalls(b, texture, handle))] + [ReleaseShared(handle)] + [DrawToRenderTarget];
      assert multiset(es) == multiset{OpenShared(handle), Device(Interop.TickCalls(b, texture, handle)), ReleaseShared(handle), DrawToRenderTarget};
    }
  }

  /** The result of one game-thread tick. */
  datatype Outcome =
    | Skipped               // the gate stopped the tick: nothing enqueued
    | Ran(rebuilt: bool)    // the render step ran, after a rebuild or on the cached context
    | Terminated            // a rebuild on an RHI that is neither D3D11 nor D3D12 throws

  class ReceiverComponent {
    var context: Interop.ReceiverContext?
    var intermediate: Option<nat>
    var trace: seq<ReceiverEvent>

    /** The descriptor the current context was built for, if any. */
    function Cached(): Option<Descriptor>
      reads this, context
    {
      if context == null then None else Some(Descriptor(context.width, context.height, context.dwFormat))
    }

    /** A context, when present, is as constructed and copies into the current intermediate texture. */
    ghost predicate Valid()
      reads this, context
    {
      context != null ==> context.Valid() && intermediate == Some(context.texture)
    }

    constructor ()
      ensures Valid() && context == null && intermediate == None && trace == []
    {
      context, intermediate, trace := null, None, [];
    }

    /**
     The render-thread step: nothing without a world or a context; otherwise
     the shared texture is opened, copied through the context, released, and
     the intermediate texture is drawn into the render target.
     */
    method TickRenderThread(hasWorld: bool, handle: nat)
      requires Valid()
      modifies this, context
      ensures Valid() && context == old(context) && intermediate == old(intermediate)
      ensures context == null ==> trace == old(trace)
      ensures context != null ==> trace == old(trace) + RenderEvents(hasWorld, handle, context.backend, context.texture)
    {
      if !hasWorld || context == null {
        return;
      }
      trace := trace + [OpenShared(handle)];
      var calls := context.Tick(true, Some(handle));
      trace := trace + [Device(calls), ReleaseShared(handle), DrawToRenderTarget];
    }

    /**
     One game-thread tick with the enqueued render command run at once:
     gate, rebuild if the descriptor changed (the new context is constructed
     before the old one is destroyed), then the render-thread step.
     */
    method TickComponent(hasInput: bool, found: Option<SenderInfo>, hasWorld: bool, rhiName: string, newTexture: nat)
      returns (outcome: Outcome)
      requires Valid()
      modifies this, context
      ensures outcome == Skipped <==> Gate(hasInput, found).None?
      ensures outcome == Terminated <==> Rebuilds(old(Cached()), Gate(hasInput, found)) && Interop.SelectBackend(rhiName).None?
      ensures outcome.Ran? ==> outcome.rebuilt == Rebuilds(old(Cached()), Gate(hasInput, found))
      ensures outcome != Terminated ==> Valid() && Cached() == NextCached(old(Cached()), Gate(hasInput, found))
      ensures outcome == Skipped ==> context == old(context) && intermediate == old(intermediate) && trace == old(trace)
      ensures outcome == Ran(false) ==> context == old(context) && intermediate == old(intermediate)
      ensures outcome == Ran(false) ==>
        trace == old(trace) + RenderEvents(hasWorld, found.value.handle, context.backend, context.texture)
      ensures outcome == Ran(true) ==>
        && fresh(context)
        && Some(context.backend) == Interop.SelectBackend(rhiName)
        && context.texture == newTexture && intermediate == Some(newTexture)
        && context.format == PixelFormatOf(found.value.format) != PF_Unknown
      ensures outcome == Ran(true) ==>
        trace == old(trace)
          + [CreateIntermediate(found.value.width, found.value.height, PixelFormatOf(found.value.format), newTexture),
             ContextCreated(context.backend, Interop.CreationCalls(context.backend, newTexture))]
          + (if old(context) == null then [] else [ContextReleased(Interop.TeardownReleases(old(context).backend))])
          + RenderEvents(hasWorld, found.value.handle, context.backend, newTexture)
      ensures outcome == Terminated ==>
        trace == old(trace) + [CreateIntermediate(found.value.width, found.value.height, PixelFormatOf(found.value.format), newTexture)]
    {
      var g := Gate(hasInput, found);
      if g.None? {
        return Skipped;
      }
      var info := g.value;
      var d := DescriptorOf(info);
      if NeedsRebuild(Cached(), d) {
        var format := PixelFormatOf(info.format);
        trace := trace + [CreateIntermediate(info.width, info.height, format, newTexture)];
        intermediate := Some(newTexture);
        var backend := Interop.SelectBackend(rhiName);
        if backend.None? {
          return Terminated;
        }
        var built := new Interop.ReceiverContext(info.width, info.height, info.format, newTexture, backend.value);
        trace := trace + [ContextCreated(backend.value, built.creationCalls)];
        var previous := context;
        if previous != null {
          var released := previous.Destroy();
          trace := trace + [ContextReleased(released)];
        }
        context := built;
        outcome := Ran(true);
      } else {
        outcome := Ran(false);
      }
      TickRenderThread(hasWorld, info.handle);
    }
  }

  /** The cached descriptor and the number of rebuilds after a run of gated ticks. */
  datatype RunResult = RunResult(cached: Option<Descriptor>, rebuilds: nat)

  /** A run of ticks, each given by what the gate let through, starting from a cached descriptor. */
  function Run(cached: Option<Descriptor>, gs: seq<Option<SenderInfo>>): RunResult
    decreases |gs|
  {
    if gs == [] then RunResult(cached, 0)
    else
      var rest := Run(NextCached(cached, gs[0]), gs[1..]);
      RunResult(rest.cached, rest.rebuilds + if Rebuilds(cached, gs[0]) then 1 else 0)
  }

  /** Two runs one after the other: the second starts from the first's cache and the rebuilds add up. */
  lemma {:induction false} RunConcat(cached: Option<Descriptor>, a: seq<Option<SenderInfo>>, b: seq<Option<SenderInfo>>)
    ensures Run(cached, a + b)
      == RunResult(Run(Run(cached, a).cached, b).cached, Run(cached, a).rebuilds + Run(Run(cached, a).cached, b).rebuilds)
    decreases |a|
  {
    if a == [] {
      assert a + b == b;
    } else {
      assert (a + b)[0] == a[0] && (a + b)[1..] == a[1..] + b;
      RunConcat(NextCached(cached, a[0]), a[1..], b);
    }
  }

  /** Ticks where nothing gets through the gate leave the cache alone and rebuild nothing. */
  lemma {:induction false} IdleRunKeepsContext(cached: Option<Descriptor>, gs: seq<Option<SenderInfo>>)
    requires forall i :: 0 <= i < |gs| ==> gs[i].None?
    ensures Run(cached, gs) == RunResult(cached, 0)
    decreases |gs|
  {
    if gs != [] {
      IdleRunKeepsContext(cached, gs[1..]);
    }
  }

  /**
   A sender whose descriptor stays the same causes at most one rebuild: on the
   first tick, and only if the cache did not already hold its descriptor.
   */
  lemma {:induction false} SteadySenderRebuildsAtMostOnce(cached: Option<Descriptor>, info: SenderInfo, gs: seq<Option<SenderInfo>>)
    requires gs != []
    requires forall i :: 0 <= i < |gs| ==> gs[i] == Some(info)
    ensures Run(cached, gs).cached == Some(DescriptorOf(info))
    ensures Run(cached, gs).rebuilds == if cached == Some(DescriptorOf(info)) then 0 else 1
    decreases |gs|
  {
    if |gs| > 1 {
      SteadySenderRebuildsAtMostOnce(Some(DescriptorOf(info)), info, gs[1..]);
    }
  }

  /**
   A sender that changes size or format mid-stream causes exactly one rebuild
   across the two steady stretches; a new share handle alone causes none.
   */
  lemma SenderChangeRebuildsOnce(first: SenderInfo, second: SenderInfo, a: seq<Option<SenderInfo>>, b: seq<Option<SenderInfo>>)
    requires a != [] && b != []
    requires forall i :: 0 <= i < |a| ==> a[i] == Some(first)
    requires forall i :: 0 <= i < |b| ==> b[i] == Some(second)
    ensures Run(Some(DescriptorOf(first)), a + b).cached == Some(DescriptorOf(second))
    ensures Run(Some(DescriptorOf(first)), a + b).rebuilds == if DescriptorOf(first) == DescriptorOf(second) then 0 else 1
  {
    var start := Some(DescriptorOf(first));
    RunConcat(start, a, b);
    SteadySenderRebuildsAtMostOnce(start, first, a);
    SteadySenderRebuildsAtMostOnce(start, second, b);
  }
}
