/** The pure part of the encoder header (venc.h): the 64-bit packing of a
    pair of 32-bit attribute values, the GPU vendor ranking and the size
    constants the pipeline relies on. */
module VencTypes {
  import opened Platform

  /** Number of slots in the default NV12 conversion pool. */
  const NUM_NV12_FRAMES: nat := 4

  /** Characters of a GUID in its textual form 8-4-4-4-12. */
  const GUID_TEXT_LEN: nat := 8 + 1 + 4 + 1 + 4 + 1 + 4 + 1 + 12

  /** Size of `encoder_clsid_str`: the GUID text, its two braces, and a terminator. */
  const ENCODER_CLSID_STR_LEN: nat := 36 + 2 + 1

  /** The textual GUID is 36 characters, so the braced form and its terminator fill the buffer exactly. */
  lemma EncoderClsidBufferFits()
    ensures GUID_TEXT_LEN == 36
    ensures ENCODER_CLSID_STR_LEN == 1 + GUID_TEXT_LEN + 1 + 1
  {
  }

  // ---------------------------------------------------------------- 64-bit packing

  /** The 64-bit value with `hi` in its upper half and `lo` in its lower half. */
  function Pack64(hi: bv32, lo: bv32): (packed: bv64)
    ensures High32(packed) == hi
    ensures Low32(packed) == lo
  {
    ((hi as bv64) << 32) | (lo as bv64)
  }

  function High32(packed: bv64): bv32 { (packed >> 32) as bv32 }

  function Low32(packed: bv64): bv32 { (packed & 0xFFFF_FFFF) as bv32 }

  /** Unpacking then packing gives back any 64-bit value, so packing is a bijection. */
  lemma PackUnpack(packed: bv64)
    ensures Pack64(High32(packed), Low32(packed)) == packed
  {
  }

  /** Packing two different pairs gives different values. */
  lemma PackInjective(hi1: bv32, lo1: bv32, hi2: bv32, lo2: bv32)
    requires Pack64(hi1, lo1) == Pack64(hi2, lo2)
    ensures hi1 == hi2 && lo1 == lo2
  {
    assert High32(Pack64(hi1, lo1)) == hi1;
    assert High32(Pack64(hi2, lo2)) == hi2;
  }

  /** The value `MFSetAttributeSize` stores with `SetUINT64`: the width in the high half. */
  function AttributeSize(width: bv32, height: bv32): (packed: bv64)
    ensures High32(packed) == width && Low32(packed) == height
  {
    Pack64(width, height)
  }

  /** The value `MFSetAttributeRatio` stores with `SetUINT64`: the numerator in the high half.
      The same packing as `AttributeSize`; the header defines the two separately. */
  function AttributeRatio(num: bv32, denom: bv32): (packed: bv64)
    ensures High32(packed) == num && Low32(packed) == denom
  {
    Pack64(num, denom)
  }

  // ---------------------------------------------------------------- gpu_vendor

  datatype GpuVendor = Nvidia | Unknown | AMD | Intel

  /** The enum value of a vendor, which the encoder scoring compares. */
  function Rank(v: GpuVendor): int
  {
    match v
    case Nvidia => -1000
    case Unknown => 0
    case AMD => 1
    case Intel => 2
  }

  /** The order is strict and total: Nvidia < Unknown < AMD < Intel, and
      two vendors compare equal only when they are the same. */
  lemma VendorOrder(a: GpuVendor, b: GpuVendor)
    ensures Rank(Nvidia) < Rank(Unknown) < Rank(AMD) < Rank(Intel)
    ensures Rank(a) == Rank(b) <==> a == b
    ensures Rank(a) < Rank(b) || Rank(a) == Rank(b) || Rank(b) < Rank(a)
  {
  }
}
