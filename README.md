# UE-Spout2: a verified model of the sender and receiver components

UE-Spout2 is an Unreal Engine plugin that shares textures between processes
through the Spout protocol. This project models the decision logic of its
two actor components and the COM handle bookkeeping under them. Dafny proves
properties of that model.

- **Sender name counter.** A process-wide `std::map<std::string,int>` counts
  the sender contexts alive for each share name. The last context to go
  releases the name in the Spout library. See `NameCount.dfy` for the table
  as values and `Sender.SenderRegistry` for the table updated in place.
- **Sender context and component** (`Sender.dfy`). A context owns the shared
  texture and the immediate device context for one name.
  - Each tick, `USpoutSenderActorComponent::TickComponent` keeps, builds or
    drops that context, depending on what stands behind `OutputTexture` and on
    `PublishName`.
  - A live context enqueues one copy and signals one frame per tick.
  - `BeginPlay` and `EndPlay` reset the context.
- **Pixel formats** (`Formats.dfy`). The sender turns a typeless BGRA texture
  into UNORM BGRA. The receiver maps a DXGI format to an engine pixel format
  with the same three-way table in two places.
- **Receiver interop context** (`Interop.dfy`).
  - The back end is chosen from the RHI name: "D3D11" uses the native device,
    "D3D12" uses an 11-on-12 device with a wrapped resource, and any other name
    throws.
  - A copy on D3D12 runs inside the acquire/release bracket of the wrapped
    resource.
  - The destructor gives back each non-null field once, in a fixed order, and
    nulls it.
- **Receiver component** (`Receiver.dfy`). On each tick it:
  - gates on the input render target, the sender lookup and the format;
  - rebuilds the context when the sender's width, height or format changed;
  - then runs the render-thread step: open the shared texture, copy it,
    release it, and draw the intermediate texture into the render target.

Calls into D3D11/D3D12, the Spout library and the render queue are recorded
as event values on a trace, in issue order. Textures and share handles are
abstract numbers. Each COM pointer is a boolean: "non-null".

The model follows the code as written:
- `CreateSender` is called on every construction of a sender context, not
  only when a name's count goes from 0 to 1.
- The decrement in the sender destructor has no lower-bound guard.
- Entries of the name table are never erased.
- A sender context is rebuilt only when `PublishName` changes, not when the
  source texture's size changes. `UpdateSender` reports the size of the
  texture the context was built over.

## Model

| member | source | states |
|---|---|---|
| NameCount.Apply | Source/Spout2/Private/SpoutSenderActorComponent.cpp:57-72 | Construction adds one to the name's count and destruction subtracts one, an absent name counting as 0. No other name changes. The name becomes a key and no key is removed. |
| NameCount.CountIsLiveAt | Source/Spout2/Private/SpoutSenderActorComponent.cpp:57-72 | When every destruction destroys a live context, a name's count equals the number of live contexts with that name. |
| NameCount.CountIsLive | Source/Spout2/Private/SpoutSenderActorComponent.cpp:57-72 | The same invariant for all names at once, so no count is ever negative. |
| NameCount.ReleaseIffLastLive | Source/Spout2/Private/SpoutSenderActorComponent.cpp:69-72 | Destroying a live context releases its name exactly when it was the last live context with that name. |
| NameCount.BalancedReturnsToZero | Source/Spout2/Private/SpoutSenderActorComponent.cpp:57-72 | Equally many matched constructions and destructions of a name bring its count back to 0. |
| NameCount.LiveOccurrences | Source/Spout2/Private/SpoutSenderActorComponent.cpp:57-72 | The number of live contexts for a name is its constructions minus its destructions. |
| NameCount.CamFeedScenario | Source/Spout2/Private/SpoutSenderActorComponent.cpp:57-72 | Two contexts on one name count 1 then 2. Only the destruction of the last one releases the name. |
| Formats.NormalizeSenderFormat | Source/Spout2/Private/SpoutSenderActorComponent.cpp:46-49 | Typeless BGRA becomes UNORM BGRA and every other format is kept, so the result is never typeless BGRA. |
| Formats.NormalizeIdempotent | Source/Spout2/Private/SpoutSenderActorComponent.cpp:46-49 | Normalising twice equals normalising once. |
| Formats.PixelFormatOf | Source/Spout2/Private/SpoutRecieverActorComponent.cpp:306-311 | The engine format is known exactly for the three supported DXGI formats, and reading the table backwards gives back the DXGI format. |
| Formats.DxgiFormatOf | Source/Spout2/Private/SpoutRecieverActorComponent.cpp:166-171 | The inverse table yields a supported format for every known engine format, and UNKNOWN for PF_Unknown. |
| Formats.PixelFormatRoundTrip | Source/Spout2/Private/SpoutRecieverActorComponent.cpp:166-171 | Every known engine format survives the round trip through its DXGI format. |
| Formats.PixelFormatInjective | Source/Spout2/Private/SpoutRecieverActorComponent.cpp:306-311 | Two DXGI formats mapped to the same known engine format are equal. |
| Formats.TypelessSourceIsReceivable | Source/Spout2/Private/SpoutSenderActorComponent.cpp:46-49 | A typeless BGRA source is published in a format the receiver maps to PF_B8G8R8A8, although the receiver would reject the typeless code itself. |
| Sender.TeardownEvents | Source/Spout2/Private/SpoutSenderActorComponent.cpp:69-84 | The destructor's calls include the name release exactly when it was asked for. |
| Sender.SenderRegistry.CountsAreLive | Source/Spout2/Private/SpoutSenderActorComponent.cpp:14 | While the registry matches its history of matched events, each name's count is its number of live contexts and is non-negative. |
| Sender.SenderRegistry.Record | Source/Spout2/Private/SpoutSenderActorComponent.cpp:62 | Appends one call to the trace and changes nothing else. |
| Sender.SenderRegistry.Construct | Source/Spout2/Private/SpoutSenderActorComponent.cpp:57-62 | The table becomes Apply of a construction, the history grows by it, and validity is kept. CreateSender is recorded on every construction. |
| Sender.SenderRegistry.Destroy | Source/Spout2/Private/SpoutSenderActorComponent.cpp:69-72 | The table becomes Apply of a destruction. The name is released exactly when its new count is 0, and only then is ReleaseSenderName recorded. |
| Sender.SenderContext.constructor | Source/Spout2/Private/SpoutSenderActorComponent.cpp:33-65 | The new context holds both handles. Its plain name is counted, and the shared texture and sender are created under that plain name in the normalised format. |
| Sender.SenderContext.Tick | Source/Spout2/Private/SpoutSenderActorComponent.cpp:87-101 | Without a device context nothing happens. Otherwise exactly one enqueued copy and one UpdateSender for the context's name are recorded, and the table does not change. |
| Sender.SenderContext.Destroy | Source/Spout2/Private/SpoutSenderActorComponent.cpp:67-85 | Both handles are nulled and the name is uncounted. A live context records the name release (only when it was the last) and then its two handle releases. |
| Sender.SenderStep | Source/Spout2/Private/SpoutSenderActorComponent.cpp:129-161 | A missing texture object or RHI texture leaves the context alone. A missing 2D texture or native resource drops it. The context ticks exactly when the source is there and the names agree or a context was just built. A name change drops the context without ticking. |
| Sender.SteadyPublishing | Source/Spout2/Private/SpoutSenderActorComponent.cpp:150-160 | With the source present on every tick, the context ticks on every tick except the one that drops a context left over from another name, and it ends up publishing under PublishName. |
| Sender.SuffixedNamesShareEntry | Source/Spout2/Private/SpoutSenderActorComponent.cpp:51-62 | Two names differing only in their number suffix are different to the rename test, but share one counter entry and one sender name, so destroying one context does not release the name while the other lives. |
| Sender.RenameRebuildsOnNextTick | Source/Spout2/Private/SpoutSenderActorComponent.cpp:150-158 | A rename takes two ticks: the first drops the old context, the second builds and ticks the new one. |
| Sender.SenderComponent.ContextName | Source/Spout2/Private/SpoutSenderActorComponent.cpp:103 | There is a context name exactly when there is a context. |
| Sender.SenderComponent.Reset | Source/Spout2/Private/SpoutSenderActorComponent.cpp:119 | The context is gone afterwards. If there was one, the registry sees exactly its destruction. |
| Sender.SenderComponent.BeginPlay | Source/Spout2/Private/SpoutSenderActorComponent.cpp:115-120 | Leaves no context, tearing down any old one as Reset does. |
| Sender.SenderComponent.EndPlay | Source/Spout2/Private/SpoutSenderActorComponent.cpp:122-127 | Leaves no context, tearing down any old one as Reset does. |
| Sender.SenderComponent.TickComponent | Source/Spout2/Private/SpoutSenderActorComponent.cpp:129-161 | The context name afterwards follows SenderStep. The registry changes by exactly the events of that decision: nothing, one teardown, a construction and a tick, or a tick of the kept context. |
| Interop.SelectBackend | Source/Spout2/Private/SpoutRecieverActorComponent.cpp:175-210 | "D3D11" selects the native path and "D3D12" the 11-on-12 path. Any other name selects none, which is the throwing branch. |
| Interop.Rank | Source/Spout2/Private/SpoutRecieverActorComponent.cpp:213-243 | Each handle has a place among the five in the destructor's order, and only the wrapped resource comes first. |
| Interop.KindAt | Source/Spout2/Private/SpoutRecieverActorComponent.cpp:213-243 | Names the handle at each place of the destructor's order. |
| Interop.ReleaseUpToFacts | Source/Spout2/Private/SpoutRecieverActorComponent.cpp:213-243 | The first n steps of the destructor release exactly the held handles of rank below n, in strictly increasing rank. |
| Interop.ReleasesExactlyHeld | Source/Spout2/Private/SpoutRecieverActorComponent.cpp:213-243 | The destructor releases each held handle and nothing else. |
| Interop.ReleasesInOrder | Source/Spout2/Private/SpoutRecieverActorComponent.cpp:213-243 | Releases come in the fixed order, so no handle is released twice. |
| Interop.ReleasesWrappedFirst | Source/Spout2/Private/SpoutRecieverActorComponent.cpp:215-219 | A held wrapped resource is given back before anything else is released. |
| Interop.SecondReleaseIsEmpty | Source/Spout2/Private/SpoutRecieverActorComponent.cpp:213-243 | With every handle nulled, the destructor releases nothing. |
| Interop.HeldAfterConstruction | Source/Spout2/Private/SpoutRecieverActorComponent.cpp:175-210 | Both back ends hold the D3D11 device and the immediate context. Only D3D12 holds the wrapped resource. |
| Interop.WrapRunAppend | Source/Spout2/Private/SpoutRecieverActorComponent.cpp:261-266 | The wrapped resource's state after two runs of calls is the second run started from the first run's state. |
| Interop.TickBracketed | Source/Spout2/Private/SpoutRecieverActorComponent.cpp:252-267 | One copy on either back end starts and ends with the resource handed back. On D3D12 the copy into the wrapped resource comes while it is acquired, and the release comes before the flush. |
| Interop.CopyNeedsAcquire | Source/Spout2/Private/SpoutRecieverActorComponent.cpp:263-265 | A copy into the wrapped resource while it is handed back, before its acquire or after its release, is a violation whatever follows. |
| Interop.BracketedConcat | Source/Spout2/Private/SpoutRecieverActorComponent.cpp:261-266 | Two bracketed runs one after the other are bracketed, so nothing is held across the seam. |
| Interop.AcquireWhileAcquiredViolates | Source/Spout2/Private/SpoutRecieverActorComponent.cpp:263-265 | A D3D12 copy started while the resource is still acquired is a violation. This is why the bracket has to close. |
| Interop.TicksBracketed | Source/Spout2/Private/SpoutRecieverActorComponent.cpp:247-268 | However many copies a context makes, the wrapped resource is never left acquired between them or at the end. |
| Interop.ReceiverContext.ValidHolds | Source/Spout2/Private/SpoutRecieverActorComponent.cpp:153-158 | A valid context holds exactly the handles its construction acquires on its back end. |
| Interop.ReceiverContext.constructor | Source/Spout2/Private/SpoutRecieverActorComponent.cpp:160-209 | Stores the descriptor and texture and looks the format up in the shared table. Holds exactly the fields of the chosen back end, not acquired, and records the calls construction made on that back end. |
| Interop.ReceiverContext.Tick | Source/Spout2/Private/SpoutRecieverActorComponent.cpp:247-268 | Without a world or a source no call is made. Otherwise the calls are the back end's copy sequence. The acquired flag follows those calls from its old to its new value, and the context is valid again afterwards. |
| Interop.ReceiverContext.Destroy | Source/Spout2/Private/SpoutRecieverActorComponent.cpp:213-245 | Every field is nulled. What is given back is, field by field, the fields that were non-null, in the destructor's order. |
| Interop.ReleaseOfFields | Source/Spout2/Private/SpoutRecieverActorComponent.cpp:213-243 | The field-by-field releases equal the release sequence of the held handles. |
| Interop.TeardownInOrder | Source/Spout2/Private/SpoutRecieverActorComponent.cpp:213-243 | Tearing down a context on either back end gives back exactly the fields construction set, in order, with the wrapped resource first on D3D12. |
| Receiver.Gate | Source/Spout2/Private/SpoutRecieverActorComponent.cpp:295-315 | Work passes exactly when there is an input texture, the sender was found and its format is supported. What passes is the found sender. |
| Receiver.NeedsRebuild | Source/Spout2/Private/SpoutRecieverActorComponent.cpp:322-325 | A rebuild is needed exactly when the cached descriptor is not the sender's. |
| Receiver.NextCached | Source/Spout2/Private/SpoutRecieverActorComponent.cpp:327-331 | A gated-out tick keeps the cache. Otherwise the cache becomes the sender's descriptor. |
| Receiver.RenderStepBalanced | Source/Spout2/Private/SpoutRecieverActorComponent.cpp:347-354 | A render step with a world opens the shared texture, then copies from it with bracketed device calls, then releases it once, then draws. Without a world it does none of these. |
| Receiver.ReceiverComponent.TickRenderThread | Source/Spout2/Private/SpoutRecieverActorComponent.cpp:339-354 | Without a world or a context nothing happens. Otherwise the open, copy, release and draw are recorded, and the context stays valid. |
| Receiver.ReceiverComponent.TickComponent | Source/Spout2/Private/SpoutRecieverActorComponent.cpp:291-337 | The tick is skipped exactly when the gate stops it, leaving everything as it was. It rebuilds exactly when the descriptor changed, creating the intermediate texture and a context for the sender, then destroying the old context. An unknown RHI terminates. Afterwards the cache is the sender's descriptor. |
| Receiver.RunConcat | Source/Spout2/Private/SpoutRecieverActorComponent.cpp:322-331 | Two runs of ticks compose: the second starts from the first's cache and the rebuild counts add up. |
| Receiver.IdleRunKeepsContext | Source/Spout2/Private/SpoutRecieverActorComponent.cpp:313-315 | Ticks that the gate stops keep the cache and rebuild nothing. |
| Receiver.SteadySenderRebuildsAtMostOnce | Source/Spout2/Private/SpoutRecieverActorComponent.cpp:322-331 | A sender whose descriptor stays the same causes at most one rebuild, and none when it is already cached. |
| Receiver.SenderChangeRebuildsOnce | Source/Spout2/Private/SpoutRecieverActorComponent.cpp:322-331 | A size or format change mid-stream causes exactly one rebuild. A change of share handle alone causes none. |

## Left out

- Direct3D 11/12 and COM calls are recorded as event values or reduced to
  "non-null" flags. These include `D3D11On12CreateDevice`, `QueryInterface`,
  `CreateWrappedResource`, `CopyResource`, `Flush`, `OpenSharedResource` and
  `Release`. The model assumes every call wrapped in `verify` succeeds.
  In builds with checks enabled a failure there halts the program. In shipping
  builds the result is ignored. So, for example, a failed `OpenSharedResource`
  (Source/Spout2/Private/SpoutRecieverActorComponent.cpp:350) leaves the source
  null. The context's `Tick` then returns early (:250), but the `Release` at
  :354 dereferences null. The model does not capture this.
- COM reference ownership is not modelled; each handle field is only given
  back once and nulled. As written, the destructor
  (Source/Spout2/Private/SpoutRecieverActorComponent.cpp:213-243) differs from
  correct ownership in three ways:
  - It calls `Release` on `D3D11Device` on the D3D11 path and on
    `D3D12Device`. Both came from `RHIGetNativeDevice` (:177, :182) without an
    added reference, so these calls over-release the engine's devices.
  - It only unwraps the wrapped resource with `ReleaseWrappedResources` and
    never COM-releases it, so it leaks.
  - It unwraps that resource while it is not acquired, which the acquire/release
    rule of Interop.WrapStep calls a violation. The destructor's release
    sequence is therefore not checked against that rule.
- Spout library calls are recorded as events. These are `CreateSharedDX11Texture`,
  `CreateSender`, `UpdateSender`, `ReleaseSenderName` and `FindSender`. The
  result of `FindSender` is a parameter of the receiver's tick.
- Shader classes, vertex, index and declaration buffers, and the pipeline and
  render-pass setup (Source/Spout2/Private/SpoutRecieverActorComponent.cpp:19-142,
  356-416) are left out. This is GPU rendering; the draw is one event.
- `ENQUEUE_RENDER_COMMAND` is modelled as a queue drained at once. The game
  thread and the render thread never interleave in the model.
- Receiver.ReceiverComponent.TickComponent: the RHI name is a parameter. The
  context's `Tick` looks the name up again on every copy; the model uses the
  back end chosen at construction, which is the same while the RHI stays the
  same.
- Receiver.ReceiverComponent.TickComponent: the `throw;` without an active
  exception (which calls `std::terminate`) is the outcome `Terminated`. The
  state after it is left unconstrained except for the trace.
- Receiver.ReceiverComponent.TickRenderThread: the resource opened from a
  share handle is identified with that handle.
- Receiver.ReceiverComponent: the empty `BeginPlay` and `EndPlay` of the
  receiver are not modelled as members. They leave the context alive.
- Sender.SenderStep and Sender.SenderComponent.TickComponent: an engine name is
  its plain text and its number suffix.
  - The rename test compares both parts.
  - The name table and the sharing library see only the plain text, because
    `GetPlainANSIString` drops the suffix (Sender.SuffixedNamesShareEntry).
  - The plain text is compared with exact string equality, whereas the engine
    compares names without regard to case.
- Interop.ReceiverContext.Destroy: its postcondition gives the released
  handles field by field. Interop.ReleaseOfFields and Interop.TeardownInOrder
  connect this to the fixed release order.
- Source/Spout2/Private/Spout2.cpp (shader directory mapping at start-up) and
  Source/Spout2/Private/EditorTickActor.cpp (editor tick glue) are not part of
  this model. They hold only engine calls.
- Texture sizes are unbounded naturals, not 32-bit `unsigned int`. No
  arithmetic is done on them.
- NameCount.Apply: the counts are unbounded integers, while the table holds a
  C++ `int` (Source/Spout2/Private/SpoutSenderActorComponent.cpp:14). Overflow
  would need about two billion live senders under one name, which cannot
  happen in practice.
