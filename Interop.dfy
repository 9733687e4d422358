/**
 The receiver's interop context: the D3D11 device objects it owns for one
 (width, height, DXGI format) descriptor, the choice between the native D3D11
 path and the D3D11-on-D3D12 path, the acquire/copy/release bracket of a copy
 on the D3D12 path, and the order in which the destructor gives its handles back.

 Device calls are values; each method returns the calls it makes, in order.
 */
module Interop {
  import opened Wrappers
  import opened Formats

  /** The two engine back ends the receiver can work with. */
  datatype Backend = D3D11 | D3D12

  /** The back end named by the engine's RHI; any other name has no path. */
  function SelectBackend(rhiName: string): (b: Option<Backend>)
    ensures b == Some(D3D11) <==> rhiName == "D3D11"
    ensures b == Some(D3D12) <==> rhiName == "D3D12"
    ensures b.None? <==> rhiName != "D3D11" && rhiName != "D3D12"
  {
    if rhiName == "D3D11" then Some(D3D11)
    else if rhiName == "D3D12" then Some(D3D12)
    else None
  }

  /** The COM pointers a receiver context may hold. */
  datatype HandleKind = WrappedResource | On12Device | D3D11Device | D3D12Device | ImmediateContext

  /**
   The position of a handle in the destructor's fixed order. The wrapped
   resource is handed back with ReleaseWrappedResources; the others are
   COM-released.
   */
  function Rank(k: HandleKind): (r: nat)
    ensures r < 5
    ensures r == 0 <==> k == WrappedResource
  {
    match k
    case WrappedResource => 0
    case On12Device => 1
    case D3D11Device => 2
    case D3D12Device => 3
    case ImmediateContext => 4
  }

  /** Handles appear in strictly increasing destructor order (so none appears twice). */
  predicate InReleaseOrder(s: seq<HandleKind>) {
    forall i, j :: 0 <= i < j < |s| ==> Rank(s[i]) < Rank(s[j])
  }

  /** The handle set of five nullable pointers, given in the destructor's order. */
  function HeldOf(w: bool, o: bool, d11: bool, d12: bool, c: bool): set<HandleKind> {
    (if w then {WrappedResource} else {})
    + (if o then {On12Device} else {})
    + (if d11 then {D3D11Device} else {})
    + (if d12 then {D3D12Device} else {})
    + (if c then {ImmediateContext} else {})
  }

  /** The handle at a position of the destructor's order. */
  function KindAt(n: nat): (k: HandleKind)
    requires n < 5
    ensures Rank(k) == n
  {
    if n == 0 then WrappedResource
    else if n == 1 then On12Device
    else if n == 2 then D3D11Device
    else if n == 3 then D3D12Device
    else ImmediateContext
  }

  /** The first `n` steps of the destructor: the held handles among the first `n` of its order, in order. */
  function ReleaseUpTo(held: set<HandleKind>, n: nat): seq<HandleKind>
    requires n <= 5
  {
    if n == 0 then []
    else
      var k := KindAt(n - 1);
      ReleaseUpTo(held, n - 1) + if k in held then [k] else []
  }

  /** The first `n` steps release exactly the held handles of rank below `n`, in increasing rank. */
  lemma {:induction false} ReleaseUpToFacts(held: set<HandleKind>, n: nat)
    requires n <= 5
    ensures forall k :: k in ReleaseUpTo(held, n) <==> k in held && Rank(k) < n
    ensures forall i :: 0 <= i < |ReleaseUpTo(held, n)| ==> Rank(ReleaseUpTo(held, n)[i]) < n
    ensures InReleaseOrder(ReleaseUpTo(held, n))
  {
    if n > 0 {
      ReleaseUpToFacts(held, n - 1);
      var k := KindAt(n - 1);
      var prefix := ReleaseUpTo(held, n - 1);
      var r := ReleaseUpTo(held, n);
      assert r == prefix + if k in held then [k] else [];
      assert forall i :: 0 <= i < |prefix| ==> r[i] == prefix[i];
    }
  }

  /** What the destructor releases, given the non-null handles. */
  function ReleaseSequence(held: set<HandleKind>): seq<HandleKind> {
    ReleaseUpTo(held, 5)
  }

  /** The destructor releases each held handle, and only those. */
  lemma ReleasesExactlyHeld(held: set<HandleKind>)
    ensures forall k :: k in ReleaseSequence(held) <==> k in held
  {
    ReleaseUpToFacts(held, 5);
    assert forall k :: Rank(k) < 5;
  }

  /** The destructor releases in the fixed order, so no handle twice. */
  lemma ReleasesInOrder(held: set<HandleKind>)
    ensures InReleaseOrder(ReleaseSequence(held))
    ensures forall i, j :: 0 <= i < j < |ReleaseSequence(held)| ==> ReleaseSequence(held)[i] != ReleaseSequence(held)[j]
  {
    ReleaseUpToFacts(held, 5);
  }

  /** The wrapped resource, when held, is given back before anything else is released. */
  lemma ReleasesWrappedFirst(held: set<HandleKind>)
    requires WrappedResource in held
    ensures ReleaseSequence(held) != [] && ReleaseSequence(held)[0] == WrappedResource
  {
    var rs := ReleaseUpTo(held, 5);
    ReleaseUpToFacts(held, 5);
    assert WrappedResource in rs;
    var i :| 0 <= i < |rs| && rs[i] == WrappedResource;
    assert Rank(rs[i]) == 0;
    assert rs[0] == WrappedResource;
  }

  /** Once every handle is nulled, a second run of the destructor releases nothing. */
  lemma SecondReleaseIsEmpty()
    ensures ReleaseSequence({}) == []
  {
    var rs := ReleaseUpTo({}, 5);
    ReleaseUpToFacts({}, 5);
    assert forall k :: k !in rs;
  }

  /** A call the receiver context makes into D3D11 / D3D11On12. */
  datatype DeviceCall =
    | GetImmediateContext                     // D3D11 path: the engine's device and its immediate context
    | CreateOn12Device                        // D3D11On12CreateDevice over the engine's D3D12 device
    | QueryOn12Interface                      // the ID3D11On12Device interface of that device
    | CreateWrappedResource(texture: nat)     // wrap the D3D12 texture, COPY_DEST in, PRESENT out
    | AcquireWrapped
    | CopyResource(destination: nat, source: nat)   // D3D11 path: straight into the engine texture
    | CopyIntoWrapped(source: nat)                 // D3D12 path: into the wrapped resource, which must be acquired
    | ReleaseWrapped
    | Flush

  /** The handles a context holds once construction has succeeded on a back end. */
  function HeldAfterConstruction(b: Backend): (held: set<HandleKind>)
    ensures D3D11Device in held && ImmediateContext in held
    ensures WrappedResource in held <==> b == D3D12
  {
    match b
    case D3D11 => {D3D11Device, ImmediateContext}
    case D3D12 => {WrappedResource, On12Device, D3D11Device, D3D12Device, ImmediateContext}
  }

  /** The calls construction makes on a back end. */
  function CreationCalls(b: Backend, texture: nat): seq<DeviceCall> {
    match b
    case D3D11 => [GetImmediateContext]
    case D3D12 => [CreateOn12Device, QueryOn12Interface, CreateWrappedResource(texture)]
  }

  /** The calls one copy from `source` into the context's texture makes. */
  function TickCalls(b: Backend, texture: nat, source: nat): seq<DeviceCall> {
    match b
    case D3D11 => [CopyResource(texture, source), Flush]
    case D3D12 => [AcquireWrapped, CopyIntoWrapped(source), ReleaseWrapped, Flush]
  }

  /**
   The wrapped resource's state as one call drives it: true while acquired
   for D3D11, false while handed back to D3D12. A call out of turn (acquiring
   twice, copying into or releasing what is not acquired, flushing while
   acquired) is a violation, None.
   */
  function WrapStep(acquired: bool, c: DeviceCall): Option<bool> {
    match c
    case AcquireWrapped => if acquired then None else Some(true)
    case ReleaseWrapped => if acquired then Some(false) else None
    case CopyIntoWrapped(_) => if acquired then Some(true) else None
    case Flush => if acquired then None else Some(false)
    case _ => Some(acquired)
  }

  /** The wrapped resource's state after a run of calls, or None after a violation. */
  function WrapRun(acquired: bool, calls: seq<DeviceCall>): Option<bool>
    decreases |calls|
  {
    if calls == [] then Some(acquired)
    else
      match WrapStep(acquired, calls[0])
      case None => None
      case Some(next) => WrapRun(next, calls[1..])
  }

  /**
   A run of calls keeps the wrapped resource in its bracket: it starts and
   ends handed back, and every acquisition is followed by exactly one release
   before any flush.
   */
  predicate Bracketed(calls: seq<DeviceCall>) {
    WrapRun(false, calls) == Some(false)
  }

  lemma {:induction false} WrapRunAppend(acquired: bool, a: seq<DeviceCall>, b: seq<DeviceCall>)
    ensures WrapRun(acquired, a + b) == match WrapRun(acquired, a) case None => None case Some(mid) => WrapRun(mid, b)
    decreases |a|
  {
    if a != [] {
      assert (a + b)[0] == a[0] && (a + b)[1..] == a[1..] + b;
      match WrapStep(acquired, a[0]) {
        case None =>
          assert WrapRun(acquired, a) == None && WrapRun(acquired, a + b) == None;
        case Some(next) =>
          WrapRunAppend(next, a[1..], b);
          assert WrapRun(acquired, a) == WrapRun(next, a[1..]);
          assert WrapRun(acquired, a + b) == WrapRun(next, a[1..] + b);
      }
    } else {
      assert a + b == b;
    }
  }

  /** One copy on either back end is bracketed; on D3D12 the release comes before the flush. */
  lemma TickBracketed(b: Backend, texture: nat, source: nat)
    ensures Bracketed(TickCalls(b, texture, source))
  {
    var cs := TickCalls(b, texture, source);
    match b {
      case D3D11 =>
        assert cs[1..] == [Flush] && cs[1..][1..] == [];
        assert WrapRun(false, cs[1..]) == Some(false);
      case D3D12 =>
        var s1, s2, s3 := cs[1..], cs[1..][1..], cs[1..][1..][1..];
        assert s3 == [Flush] && s3[1..] == [];
        assert WrapRun(false, s3) == Some(false);
        assert s2 == [ReleaseWrapped, Flush] && s2[1..] == s3;
        assert WrapRun(true, s2) == Some(false);
        assert s1[1..] == s2 && WrapRun(true, s1) == Some(false);
    }
  }

  /** Two bracketed runs one after the other are bracketed: nothing is held across the seam. */
  lemma BracketedConcat(a: seq<DeviceCall>, b: seq<DeviceCall>)
    requires Bracketed(a) && Bracketed(b)
    ensures Bracketed(a + b)
  {
    WrapRunAppend(false, a, b);
  }

  /** A copy made while the resource is still acquired from an earlier one is a violation. */
  lemma AcquireWhileAcquiredViolates(texture: nat, source: nat)
    ensures WrapRun(true, TickCalls(D3D12, texture, source)) == None
  {
  }

  /**
   A copy into the wrapped resource after a bracketed run, that is while it is
   handed back to D3D12 (before its acquire or after its release), is a
   violation whatever follows.
   */
  lemma {:induction false} CopyNeedsAcquire(pre: seq<DeviceCall>, source: nat, post: seq<DeviceCall>)
    requires Bracketed(pre)
    ensures WrapRun(false, pre + [CopyIntoWrapped(source)] + post) == None
  {
    WrapRunAppend(false, pre, [CopyIntoWrapped(source)] + post);
    assert pre + [CopyIntoWrapped(source)] + post == pre + ([CopyIntoWrapped(source)] + post);
    assert WrapRun(false, [CopyIntoWrapped(source)] + post) == None;
  }

  /** The calls of a run of copies, one after the other. */
  function Flatten(runs: seq<seq<DeviceCall>>): seq<DeviceCall>
    decreases |runs|
  {
    if runs == [] then [] else runs[0] + Flatten(runs[1..])
  }

  /**
   However many copies a context makes, one after the other, the wrapped
   resource is never left acquired between them or at the end.
   */
  lemma {:induction false} TicksBracketed(b: Backend, texture: nat, sources: seq<nat>, runs: seq<seq<DeviceCall>>)
    requires |runs| == |sources|
    requires forall i :: 0 <= i < |runs| ==> runs[i] == TickCalls(b, texture, sources[i])
    ensures Bracketed(Flatten(runs))
    decreases |runs|
  {
    if runs == [] {
      assert Flatten(runs) == [];
    } else {
      TickBracketed(b, texture, sources[0]);
      TicksBracketed(b, texture, sources[1..], runs[1..]);
      BracketedConcat(runs[0], Flatten(runs[1..]));
    }
  }

  /**
   One receiver context: the descriptor it was built for, the engine texture it
   copies into, the back end it was built on, its nullable COM pointers and
   whether the wrapped resource is currently acquired.
   */
  class ReceiverContext {
    const width: nat
    const height: nat
    const dwFormat: DxgiFormat
    const format: PixelFormat
    const texture: nat
    const backend: Backend
    const creationCalls: seq<DeviceCall>   // the calls construction made, in order
    var wrapped: bool
    var on12Device: bool
    var d3d11Device: bool
    var d3d12Device: bool
    var immediateContext: bool
    var acquired: bool

    /** The handle fields that are non-null. */
    function Held(): set<HandleKind>
      reads this
    {
      HeldOf(wrapped, on12Device, d3d11Device, d3d12Device, immediateContext)
    }

    /** As constructed, and not in the middle of a copy: the 11-on-12 handles exactly on D3D12. */
    ghost predicate Valid()
      reads this
    {
      && wrapped == (backend == D3D12)
      && on12Device == (backend == D3D12)
      && d3d12Device == (backend == D3D12)
      && d3d11Device && immediateContext
      && !acquired
    }

    /** A valid context holds exactly the handles construction acquires on its back end. */
    lemma ValidHolds()
      requires Valid()
      ensures Held() == HeldAfterConstruction(backend)
    {
    }

    /** Construction on a back end that SelectBackend accepted; the format is looked up in the same table as the tick's. */
    constructor (width: nat, height: nat, dwFormat: DxgiFormat, texture: nat, backend: Backend)
      ensures Valid()
      ensures this.width == width && this.height == height && this.dwFormat == dwFormat
      ensures this.texture == texture && this.backend == backend
      ensures format == PixelFormatOf(dwFormat)
      ensures Held() == HeldAfterConstruction(backend)
      ensures creationCalls == CreationCalls(backend, texture)
    {
      this.width, this.height, this.dwFormat, this.texture, this.backend := width, height, dwFormat, texture, backend;
      format := PixelFormatOf(dwFormat);
      wrapped, on12Device, d3d11Device, d3d12Device, immediateContext := false, false, false, false, false;
      acquired := false;
      var calls: seq<DeviceCall> := [];
      match backend {
        case D3D11 =>
          d3d11Device := true;                 // the engine's native device
          calls := calls + [GetImmediateContext];
          immediateContext := true;
        case D3D12 =>
          d3d12Device := true;                 // the engine's native device
          calls := calls + [CreateOn12Device];
          d3d11Device, immediateContext := true, true;
          calls := calls + [QueryOn12Interface];
          on12Device := true;
          calls := calls + [CreateWrappedResource(texture)];
          wrapped := true;
      }
      creationCalls := calls;
    }

    /**
     One copy on the render thread from the opened shared resource `source`.
     Nothing happens without a world or a source; otherwise the copy is made,
     on D3D12 inside an acquire/release of the wrapped resource, and flushed.
     */
    method Tick(hasWorld: bool, source: Option<nat>) returns (calls: seq<DeviceCall>)
      requires Valid()
      modifies this
      ensures Valid()
      ensures calls == if !hasWorld || source.None? then [] else TickCalls(backend, texture, source.value)
      ensures WrapRun(old(acquired), calls) == Some(acquired)
    {
      if !hasWorld || source.None? {
        return [];
      }
      var src := source.value;
      match backend {
        case D3D11 =>
          calls := [CopyResource(texture, src), Flush];
          TickBracketed(D3D11, texture, src);
        case D3D12 =>
          calls := [AcquireWrapped];
          acquired := true;
          calls := calls + [CopyIntoWrapped(src)];
          calls := calls + [ReleaseWrapped];
          acquired := false;
          calls := calls + [Flush];
          TickBracketed(D3D12, texture, src);
      }
    }

    /** The destructor: each non-null handle is released once, in the fixed order, and nulled. */
    method Destroy() returns (released: seq<HandleKind>)
      modifies this
      ensures !wrapped && !on12Device && !d3d11Device && !d3d12Device && !immediateContext
      ensures acquired == old(acquired)
      ensures released == FieldReleases(old(wrapped), old(on12Device), old(d3d11Device), old(d3d12Device), old(immediateContext))
    {
      ghost var w, o, d11, d12, c := wrapped, on12Device, d3d11Device, d3d12Device, immediateContext;
      released := [];
      if wrapped {
        released := released + [WrappedResource];
        wrapped := false;
      }
      assert released == FieldReleases(w, false, false, false, false);
      if on12Device {
        released := released + [On12Device];
        on12Device := false;
      }
      assert released == FieldReleases(w, o, false, false, false);
      if d3d11Device {
        released := released + [D3D11Device];
        d3d11Device := false;
      }
      assert released == FieldReleases(w, o, d11, false, false);
      if d3d12Device {
        released := released + [D3D12Device];
        d3d12Device := false;
      }
      assert released == FieldReleases(w, o, d11, d12, false);
      if immediateContext {
        released := released + [ImmediateContext];
        immediateContext := false;
      }
    }
  }

  /**
   The handles released field by field, in the order the destructor tests the
   fields; ReleaseOfFields shows this is ReleaseSequence of the held handles.
   */
  function FieldReleases(w: bool, o: bool, d11: bool, d12: bool, c: bool): seq<HandleKind> {
    (if w then [WrappedResource] else []) + (if o then [On12Device] else [])
      + (if d11 then [D3D11Device] else []) + (if d12 then [D3D12Device] else [])
      + (if c then [ImmediateContext] else [])
  }

  /** Which handles HeldOf holds, and so what the destructor releases field by field. */
  lemma ReleaseOfFields(w: bool, o: bool, d11: bool, d12: bool, c: bool)
    ensures ReleaseSequence(HeldOf(w, o, d11, d12, c)) == FieldReleases(w, o, d11, d12, c)
  {
    var held := HeldOf(w, o, d11, d12, c);
    assert WrappedResource in held <==> w;
    assert On12Device in held <==> o;
    assert D3D11Device in held <==> d11;
    assert D3D12Device in held <==> d12;
    assert ImmediateContext in held <==> c;
    assert ReleaseUpTo(held, 1) == (if w then [WrappedResource] else []);
    assert ReleaseUpTo(held, 2) == ReleaseUpTo(held, 1) + (if o then [On12Device] else []);
    assert ReleaseUpTo(held, 3) == ReleaseUpTo(held, 2) + (if d11 then [D3D11Device] else []);
    assert ReleaseUpTo(held, 4) == ReleaseUpTo(held, 3) + (if d12 then [D3D12Device] else []);
    assert ReleaseUpTo(held, 5) == ReleaseUpTo(held, 4) + (if c then [ImmediateContext] else []);
  }

  /** What destroying a valid context on a back end releases, field by field. */
  function TeardownReleases(b: Backend): seq<HandleKind> {
    var on12 := b == D3D12;
    FieldReleases(on12, on12, true, on12, true)
  }

  /**
   Tearing down a context built on either back end releases exactly the
   handles its construction acquired, in the destructor's order, the wrapped
   resource first on D3D12.
   */
  lemma TeardownInOrder(b: Backend)
    ensures TeardownReleases(b) == ReleaseSequence(HeldAfterConstruction(b))
    ensures forall k :: k in TeardownReleases(b) <==> k in HeldAfterConstruction(b)
    ensures InReleaseOrder(TeardownReleases(b))
    ensures b == D3D12 ==> TeardownReleases(b)[0] == WrappedResource
  {
    var on12 := b == D3D12;
    ReleaseOfFields(on12, on12, true, on12, true);
    assert HeldOf(on12, on12, true, on12, true) == HeldAfterConstruction(b);
    ReleasesExactlyHeld(HeldAfterConstruction(b));
    ReleasesInOrder(HeldAfterConstruction(b));
    if on12 {
      ReleasesWrappedFirst(HeldAfterConstruction(b));
    }
  }
}
