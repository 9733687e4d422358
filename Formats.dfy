/**
 Pixel formats seen by the plugin: the DXGI format codes reported by the
 shared-texture protocol and by D3D11 texture descriptors, and the engine's
 own pixel formats that the receiver maps them to.
 */
module Formats {

  /** A DXGI_FORMAT value; the protocol passes it around as a 32-bit DWORD. */
  newtype DxgiFormat = x: int | 0 <= x < 0x1_0000_0000

  // The codes of the DXGI_FORMAT enumeration that the plugin tests for.
  const DXGI_FORMAT_UNKNOWN: DxgiFormat := 0
  const DXGI_FORMAT_R32G32B32A32_FLOAT: DxgiFormat := 2
  const DXGI_FORMAT_R16G16B16A16_FLOAT: DxgiFormat := 10
  const DXGI_FORMAT_B8G8R8A8_UNORM: DxgiFormat := 87
  const DXGI_FORMAT_B8G8R8A8_TYPELESS: DxgiFormat := 90

  /** The engine pixel formats (EPixelFormat) the receiver can create a texture in. */
  datatype PixelFormat = PF_Unknown | PF_B8G8R8A8 | PF_FloatRGBA | PF_A32B32G32R32F

  /** The formats the receiver accepts from a sender. */
  predicate IsSupported(dw: DxgiFormat) {
    dw == DXGI_FORMAT_B8G8R8A8_UNORM
    || dw == DXGI_FORMAT_R16G16B16A16_FLOAT
    || dw == DXGI_FORMAT_R32G32B32A32_FLOAT
  }

  /**
   The sender publishes a typeless BGRA source texture as UNORM BGRA, since the
   shared texture must have a concrete format; every other format is kept.
   */
  function NormalizeSenderFormat(f: DxgiFormat): (r: DxgiFormat)
    ensures r != DXGI_FORMAT_B8G8R8A8_TYPELESS
    ensures f == DXGI_FORMAT_B8G8R8A8_TYPELESS ==> r == DXGI_FORMAT_B8G8R8A8_UNORM
    ensures f != DXGI_FORMAT_B8G8R8A8_TYPELESS ==> r == f
  {
    if f == DXGI_FORMAT_B8G8R8A8_TYPELESS then DXGI_FORMAT_B8G8R8A8_UNORM else f
  }

  /** Normalising twice is the same as normalising once. */
  lemma NormalizeIdempotent(f: DxgiFormat)
    ensures NormalizeSenderFormat(NormalizeSenderFormat(f)) == NormalizeSenderFormat(f)
  {
  }

  /**
   The receiver's DXGI-to-engine format table. Both the receiver context's
   constructor and the receiver component's tick evaluate this same table.
   */
  function PixelFormatOf(dw: DxgiFormat): (pf: PixelFormat)
    ensures pf != PF_Unknown <==> IsSupported(dw)
    ensures pf != PF_Unknown ==> DxgiFormatOf(pf) == dw
  {
    if dw == DXGI_FORMAT_B8G8R8A8_UNORM then PF_B8G8R8A8
    else if dw == DXGI_FORMAT_R16G16B16A16_FLOAT then PF_FloatRGBA
    else if dw == DXGI_FORMAT_R32G32B32A32_FLOAT then PF_A32B32G32R32F
    else PF_Unknown
  }

  /** The DXGI format each engine format is received from (the table read backwards). */
  function DxgiFormatOf(pf: PixelFormat): (dw: DxgiFormat)
    ensures pf != PF_Unknown ==> IsSupported(dw)
    ensures pf == PF_Unknown ==> dw == DXGI_FORMAT_UNKNOWN
  {
    match pf
    case PF_Unknown => DXGI_FORMAT_UNKNOWN
    case PF_B8G8R8A8 => DXGI_FORMAT_B8G8R8A8_UNORM
    case PF_FloatRGBA => DXGI_FORMAT_R16G16B16A16_FLOAT
    case PF_A32B32G32R32F => DXGI_FORMAT_R32G32B32A32_FLOAT
  }

  /** Every engine format the table produces is produced from exactly one DXGI format. */
  lemma PixelFormatRoundTrip(pf: PixelFormat)
    requires pf != PF_Unknown
    ensures PixelFormatOf(DxgiFormatOf(pf)) == pf
  {
  }

  /** The table is injective on the formats it accepts. */
  lemma PixelFormatInjective(a: DxgiFormat, b: DxgiFormat)
    requires PixelFormatOf(a) == PixelFormatOf(b) != PF_Unknown
    ensures a == b
  {
  }

  /**
   The sender's normalisation never produces a format the receiver rejects
   from a typeless BGRA source: a typeless BGRA texture is received as PF_B8G8R8A8.
   */
  lemma TypelessSourceIsReceivable()
    ensures PixelFormatOf(NormalizeSenderFormat(DXGI_FORMAT_B8G8R8A8_TYPELESS)) == PF_B8G8R8A8
    ensures PixelFormatOf(DXGI_FORMAT_B8G8R8A8_TYPELESS) == PF_Unknown
  {
  }
}
