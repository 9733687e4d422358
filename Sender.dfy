/**
 The sender side: the process-wide table of sender names, the sender context
 that owns one shared texture published under a name, and the sender
 component whose per-frame tick keeps, builds or drops that context.

 Calls into the sharing library and into D3D11 are recorded as events on the
 registry's trace, in the order the plugin issues them.
 */
module Sender {
  import opened Wrappers
  import opened Formats
  import NameCount

  /**
   An engine name: its plain text and its number suffix ("Cam_2" is the plain
   text "Cam" with a suffix; 0 stands for none). Names are equal only when both
   parts are, but the plain ANSI string the sender keys everything by drops the
   suffix.
   */
  datatype FName = FName(plain: string, number: nat)

  /** A native D3D11 texture of the engine, with what GetDesc reports about it. */
  datatype NativeTexture = NativeTexture(id: nat, width: nat, height: nat, format: DxgiFormat)

  /** What the component finds behind its OutputTexture property on one tick. */
  datatype SourceState =
    | NoOutputTexture     // OutputTexture is null
    | NoTextureRHI        // its render resource has no RHI texture
    | NoTexture2D         // the RHI texture is not a 2D texture
    | NoNativeResource    // the 2D texture has no native D3D11 resource
    | Native(texture: NativeTexture)

  /** A call the sender side makes into the sharing library, D3D11 or the render queue. */
  datatype SenderEvent =
    | CreateSharedTexture(name: string, width: nat, height: nat, format: DxgiFormat)
    | CreateSender(name: string, width: nat, height: nat, format: DxgiFormat)
    | ReleaseSenderName(name: string)
    | ReleaseSendingTexture(name: string)
    | ReleaseDeviceContext(name: string)
    | EnqueueCopy(name: string, source: nat)   // render command: CopyResource into the shared texture, then Flush
    | UpdateSender(name: string, width: nat, height: nat)

  /** What constructing a context for `name` over texture `t` asks of the library, in order. */
  function CreationEvents(name: FName, t: NativeTexture): (es: seq<SenderEvent>)
  {
    var f := NormalizeSenderFormat(t.format);
    [CreateSharedTexture(name.plain, t.width, t.height, f), CreateSender(name.plain, t.width, t.height, f)]
  }

  /** What one tick of a live context issues: one enqueued copy, then one frame-ready signal. */
  function TickEvents(name: FName, t: NativeTexture): (es: seq<SenderEvent>)
  {
    [EnqueueCopy(name.plain, t.id), UpdateSender(name.plain, t.width, t.height)]
  }

  /** What destroying a live context issues: the name release only when it was the last, then its two handles. */
  function TeardownEvents(name: string, releasesName: bool): (es: seq<SenderEvent>)
    ensures ReleaseSenderName(name) in es <==> releasesName
  {
    (if releasesName then [ReleaseSenderName(name)] else [])
    + [ReleaseSendingTexture(name), ReleaseDeviceContext(name)]
  }

  /**
   The process-wide `sender_name_reference_countor` table, together with the
   record of calls made into the sharing library on behalf of every sender.
   */
  class SenderRegistry {
    var counts: NameCount.Counts
    var trace: seq<SenderEvent>
    ghost var history: seq<NameCount.Op>   // every construction and destruction so far

    /** The table is what the history of constructions and destructions makes of the empty table. */
    ghost predicate Valid()
      reads this
    {
      counts == NameCount.Replay(history)
    }

    constructor ()
      ensures Valid() && counts == map[] && trace == [] && history == []
    {
      counts := map[];
      trace := [];
      history := [];
    }

    /**
     While every destruction so far destroyed a live context, each name's count
     is the number of live contexts publishing under it.
     */
    lemma CountsAreLive()
      requires Valid() && NameCount.Matched(history)
      ensures forall n :: NameCount.Count(counts, n) == NameCount.Live(history)[n] >= 0
    {
      NameCount.CountIsLive(history);
    }

    /** Appends one call to the record. */
    method Record(e: SenderEvent)
      modifies this
      ensures counts == old(counts) && history == old(history) && trace == old(trace) + [e]
    {
      trace := trace + [e];
    }

    /**
     The counting part of a context's construction: insert 0 for a new name,
     add one, then register the sender with the library. As written, the
     library's CreateSender is called on every construction, not only the first.
     */
    method Construct(name: string, width: nat, height: nat, format: DxgiFormat)
      modifies this
      ensures counts == NameCount.Apply(old(counts), NameCount.Construct(name))
      ensures history == old(history) + [NameCount.Construct(name)] && (old(Valid()) ==> Valid())
      ensures trace == old(trace) + [CreateSender(name, width, height, format)]
    {
      if name !in counts {
        counts := counts[name := 0];
      }
      counts := counts[name := counts[name] + 1];
      history := history + [NameCount.Construct(name)];
      assert history[..|history| - 1] == old(history);
      Record(CreateSender(name, width, height, format));
    }

    /**
     The counting part of a context's destruction: subtract one (a missing name
     is inserted as 0 by the subscript first, with no lower bound), and release
     the name in the library when the count is then 0.
     */
    method Destroy(name: string) returns (released: bool)
      modifies this
      ensures counts == NameCount.Apply(old(counts), NameCount.Destroy(name))
      ensures released == NameCount.ReleasesName(old(counts), name)
      ensures released <==> NameCount.Count(counts, name) == 0
      ensures history == old(history) + [NameCount.Destroy(name)] && (old(Valid()) ==> Valid())
      ensures trace == old(trace) + if released then [ReleaseSenderName(name)] else []
    {
      if name !in counts {
        counts := counts[name := 0];
      }
      counts := counts[name := counts[name] - 1];
      history := history + [NameCount.Destroy(name)];
      assert history[..|history| - 1] == old(history);
      released := counts[name] == 0;
      if released {
        Record(ReleaseSenderName(name));
      }
    }
  }

  /**
   One publication: a shared texture of the source's size and (normalised)
   format, registered under `name`, and the immediate device context used to
   copy into it. The two handle fields are nulled when released.
   */
  class SenderContext {
    const name: FName
    const source: NativeTexture
    var sendingTexture: bool   // the shared texture handle is non-null
    var deviceContext: bool    // the immediate context handle is non-null

    /** Both handles are held: the context is between construction and destruction. */
    predicate Live()
      reads this
    {
      sendingTexture && deviceContext
    }

    constructor (name: FName, source: NativeTexture, reg: SenderRegistry)
      modifies reg
      ensures this.name == name && this.source == source && Live()
      ensures reg.counts == NameCount.Apply(old(reg.counts), NameCount.Construct(name.plain))
      ensures reg.history == old(reg.history) + [NameCount.Construct(name.plain)] && (old(reg.Valid()) ==> reg.Valid())
      ensures reg.trace == old(reg.trace) + CreationEvents(name, source)
    {
      this.name := name;
      this.source := source;
      var format := NormalizeSenderFormat(source.format);
      reg.Record(CreateSharedTexture(name.plain, source.width, source.height, format));
      sendingTexture := true;
      reg.Construct(name.plain, source.width, source.height, format);
      deviceContext := true;
    }

    /**
     One frame: with no device context nothing happens; otherwise enqueue the
     copy of the source into the shared texture and signal a new frame under
     this context's name, with the source's current size.
     */
    method Tick(reg: SenderRegistry)
      modifies reg
      ensures reg.counts == old(reg.counts) && reg.history == old(reg.history)
      ensures reg.trace == old(reg.trace) + if deviceContext then TickEvents(name, source) else []
    {
      if !deviceContext {
        return;
      }
      reg.Record(EnqueueCopy(name.plain, source.id));
      reg.Record(UpdateSender(name.plain, source.width, source.height));
    }

    /** The destructor: uncount the name (releasing it when last), then release and null each handle held. */
    method Destroy(reg: SenderRegistry)
      modifies this, reg
      ensures !sendingTexture && !deviceContext
      ensures reg.counts == NameCount.Apply(old(reg.counts), NameCount.Destroy(name.plain))
      ensures reg.history == old(reg.history) + [NameCount.Destroy(name.plain)] && (old(reg.Valid()) ==> reg.Valid())
      ensures old(Live()) ==>
        reg.trace == old(reg.trace) + TeardownEvents(name.plain, NameCount.ReleasesName(old(reg.counts), name.plain))
    {
      ghost var trace0 := reg.trace;
      var released := reg.Destroy(name.plain);
      ghost var trace1 := reg.trace;
      assert trace1 == trace0 + if released then [ReleaseSenderName(name.plain)] else [];
      if sendingTexture {
        reg.Record(ReleaseSendingTexture(name.plain));
        sendingTexture := false;
      }
      if deviceContext {
        reg.Record(ReleaseDeviceContext(name.plain));
        deviceContext := false;
      }
    }
  }

  /** The outcome of one component tick: the name of the context kept or built, and whether that context ticked. */
  datatype Step = Step(next: Option<FName>, ticks: bool)

  /**
   The component's decision on one tick, given the name of its current
   context (if any), its PublishName and what stands behind OutputTexture.
   */
  function SenderStep(current: Option<FName>, publishName: FName, src: SourceState): (s: Step)
    // a missing texture object or RHI texture leaves everything as it was
    ensures (src.NoOutputTexture? || src.NoTextureRHI?) ==> s == Step(current, false)
    // a missing 2D texture or native resource drops the context
    ensures (src.NoTexture2D? || src.NoNativeResource?) ==> s == Step(None, false)
    // the context ticks exactly when the source is there and the names agree (or a new one was just built)
    ensures s.ticks <==> src.Native? && (current.None? || current.value == publishName)
    ensures s.ticks ==> s.next == Some(publishName)
    // a name change drops the old context without ticking; the new one comes a tick later
    ensures src.Native? && current.Some? && current.value != publishName ==> s.next.None?
  {
    match src
    case NoOutputTexture => Step(current, false)
    case NoTextureRHI => Step(current, false)
    case NoTexture2D => Step(None, false)
    case NoNativeResource => Step(None, false)
    case Native(_) =>
      if current.None? then Step(Some(publishName), true)
      else if current.value != publishName then Step(None, false)
      else Step(current, true)
  }

  /** The component's context name and tick count after a run of ticks with a fixed PublishName. */
  function SenderRun(current: Option<FName>, publishName: FName, srcs: seq<SourceState>): (Option<FName>, nat)
    decreases |srcs|
  {
    if srcs == [] then (current, 0)
    else
      var s := SenderStep(current, publishName, srcs[0]);
      var (final, ticks) := SenderRun(s.next, publishName, srcs[1..]);
      (final, ticks + if s.ticks then 1 else 0)
  }

  /**
   While the source texture is present on every tick, the context ticks on
   every tick but one at most: the tick that drops a context left over from an
   earlier PublishName. From then on it publishes under PublishName.
   */
  lemma {:induction false} SteadyPublishing(current: Option<FName>, publishName: FName, srcs: seq<SourceState>)
    requires forall i :: 0 <= i < |srcs| ==> srcs[i].Native?
    ensures var (final, ticks) := SenderRun(current, publishName, srcs);
      && ticks == |srcs| - (if |srcs| > 0 && current.Some? && current.value != publishName then 1 else 0)
      && (|srcs| > 1 || (|srcs| == 1 && (current.None? || current.value == publishName)) ==> final == Some(publishName))
    decreases |srcs|
  {
    if srcs != [] {
      var s := SenderStep(current, publishName, srcs[0]);
      SteadyPublishing(s.next, publishName, srcs[1..]);
    }
  }

  /** A rename takes two ticks: the first drops the old context, the second builds and ticks the new one. */
  lemma RenameRebuildsOnNextTick(oldName: FName, publishName: FName, t: NativeTexture)
    requires oldName != publishName
    ensures SenderStep(Some(oldName), publishName, Native(t)) == Step(None, false)
    ensures SenderStep(None, publishName, Native(t)) == Step(Some(publishName), true)
  {
  }

  /**
   Two names that differ only in their number suffix are different names to the
   rename test, but one entry of the name table and one sender name in the
   sharing library: with contexts alive for both, destroying one does not
   release the shared name.
   */
  lemma SuffixedNamesShareEntry(a: FName, b: FName, t: NativeTexture)
    requires a.plain == b.plain && a.number != b.number
    ensures SenderStep(Some(a), b, Native(t)) == Step(None, false)
    ensures CreationEvents(a, t) == CreationEvents(b, t)
    ensures var ops := [NameCount.Construct(a.plain), NameCount.Construct(b.plain)];
      NameCount.Count(NameCount.Replay(ops), a.plain) == 2
      && !NameCount.ReleasesName(NameCount.Replay(ops), b.plain)
  {
    var ops := [NameCount.Construct(a.plain), NameCount.Construct(b.plain)];
    assert ops[..1][..0] == [];
    assert ops[..1] == [NameCount.Construct(a.plain)];
    assert ops[..1] == ops[..|ops| - 1];
    var one := NameCount.Replay(ops[..1]);
    NameCount.LastStep(ops[..1]);
    assert one == NameCount.Apply(map[], NameCount.Construct(a.plain));
    assert NameCount.Count(one, a.plain) == 1;
    assert NameCount.Replay(ops) == NameCount.Apply(one, NameCount.Construct(b.plain));
  }

  /** The engine component that publishes OutputTexture under PublishName. */
  class SenderComponent {
    var publishName: FName
    var context: SenderContext?

    /** The context, when there is one, still holds its handles. */
    ghost predicate Valid()
      reads this, context
    {
      context != null ==> context.Live()
    }

    /** The name the current context publishes under, if there is one. */
    function ContextName(): (r: Option<FName>)
      reads this
      ensures r.None? <==> context == null
    {
      if context == null then None else Some(context.name)
    }

    constructor (publishName: FName)
      ensures Valid() && this.publishName == publishName && context == null
    {
      this.publishName := publishName;
      context := null;
    }

    /**
     What `context.Reset()` leaves behind: no context, the same PublishName,
     and a registry that saw exactly the old context's destruction, if there
     was one.
     */
    twostate predicate ResetFrom(reg: SenderRegistry)
      reads this, reg
    {
      && context == null && publishName == old(publishName)
      && (old(reg.Valid()) ==> reg.Valid())
      && (old(context) == null ==>
            reg.counts == old(reg.counts) && reg.history == old(reg.history) && reg.trace == old(reg.trace))
      && (old(context) != null ==>
            && reg.counts == NameCount.Apply(old(reg.counts), NameCount.Destroy(old(context).name.plain))
            && reg.history == old(reg.history) + [NameCount.Destroy(old(context).name.plain)]
            && reg.trace == old(reg.trace)
                 + TeardownEvents(old(context).name.plain, NameCount.ReleasesName(old(reg.counts), old(context).name.plain)))
    }

    /** `context.Reset()`: the shared pointer is the only owner, so the context is destroyed. */
    method Reset(reg: SenderRegistry)
      requires Valid()
      modifies this, context, reg
      ensures Valid() && ResetFrom(reg)
    {
      if context != null {
        context.Destroy(reg);
        context := null;
      }
    }

    /** BeginPlay and EndPlay both reset the context. */
    method BeginPlay(reg: SenderRegistry)
      requires Valid()
      modifies this, context, reg
      ensures Valid() && ResetFrom(reg)
    {
      Reset(reg);
    }

    method EndPlay(reg: SenderRegistry)
      requires Valid()
      modifies this, context, reg
      ensures Valid() && ResetFrom(reg)
    {
      Reset(reg);
    }

    /**
     The per-frame tick. The context kept or built, and whether it ticks,
     follow SenderStep; the registry changes by exactly the teardown,
     construction and tick events that decision implies.
     */
    method TickComponent(src: SourceState, reg: SenderRegistry)
      requires Valid()
      modifies this, context, reg
      ensures Valid() && publishName == old(publishName)
      ensures old(reg.Valid()) ==> reg.Valid()
      ensures var s := SenderStep(old(ContextName()), publishName, src);
        ContextName() == s.next
      // nothing there, or nothing to drop: nothing changes
      ensures (src.NoOutputTexture? || src.NoTextureRHI? || (old(context) == null && !src.Native?)) ==>
        && context == old(context)
        && reg.counts == old(reg.counts) && reg.history == old(reg.history) && reg.trace == old(reg.trace)
      // the context is dropped: the registry sees exactly its destruction
      ensures old(context) != null && context == null ==>
        && reg.counts == NameCount.Apply(old(reg.counts), NameCount.Destroy(old(context).name.plain))
        && reg.history == old(reg.history) + [NameCount.Destroy(old(context).name.plain)]
        && reg.trace == old(reg.trace) + TeardownEvents(old(context).name.plain, NameCount.ReleasesName(old(reg.counts), old(context).name.plain))
      // a new context is built over the native texture and ticked in the same call
      ensures old(context) == null && src.Native? ==>
        && fresh(context) && context.source == src.texture
        && reg.counts == NameCount.Apply(old(reg.counts), NameCount.Construct(publishName.plain))
        && reg.history == old(reg.history) + [NameCount.Construct(publishName.plain)]
        && reg.trace == old(reg.trace) + CreationEvents(publishName, src.texture) + TickEvents(publishName, src.texture)
      // the existing context is kept and ticked, with no teardown
      ensures old(context) != null && context != null && src.Native? ==>
        && context == old(context)
        && reg.counts == old(reg.counts) && reg.history == old(reg.history)
        && reg.trace == old(reg.trace) + TickEvents(context.name, context.source)
    {
      match src {
        case NoOutputTexture =>
          return;
        case NoTextureRHI =>
          return;
        case NoTexture2D =>
          Reset(reg);
          return;
        case NoNativeResource =>
          Reset(reg);
          return;
        case Native(t) =>
          if context == null {
            context := new SenderContext(publishName, t, reg);
          } else if publishName != context.name {
            Reset(reg);
            return;
          }
          context.Tick(reg);
      }
    }
  }
}
