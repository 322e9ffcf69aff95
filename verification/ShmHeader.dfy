/**
 * Layout of a managed buffer: [header offset][padding][header][padding][user buffer].
 *
 * The header holds the 16-bit offset of the user buffer and the 16-bit reference count; it is two-byte
 * aligned and four bytes long.  Addresses are absolute; the memory of a segment is an array of bytes.
 */
module ShmHeader {
  import opened Arithmetic

  const HDR_ALIGN: nat := 2
  const HDR_SIZE: nat := 4
  const OFFSET_SIZE: nat := 2
  const MAX_ALIGN: nat := 16  // alignof(std::max_align_t)

  function HdrPartSize(): nat { OFFSET_SIZE + HDR_ALIGN + HDR_SIZE }

  function FullSize(size: nat, alignment: nat): nat { HdrPartSize() + alignment + size }

  /** Padding that takes `address` to the next multiple, at least one byte. */
  function Pad(address: nat, alignment: nat): nat
    requires alignment > 0
  {
    alignment - address % alignment
  }

  lemma PadAligns(address: nat, alignment: nat)
    requires alignment > 0
    ensures 1 <= Pad(address, alignment) <= alignment && (address + Pad(address, alignment)) % alignment == 0
  {
    var q, r := address / alignment, address % alignment;
    assert address + Pad(address, alignment) == (q + 1) * alignment;
    MultipleIsZero(q + 1, alignment);
  }

  lemma MultipleIsZero(k: nat, a: nat)
    requires a > 0
    ensures (k * a) % a == 0
  {
    ModUnique(k * a, k, 0, a);
  }

  lemma ModUnique(n: int, q: int, r: int, a: int)
    requires a > 0 && 0 <= r < a && n == q * a + r
    ensures n % a == r
  {
    var q1, r1 := n / a, n % a;
    assert n == q1 * a + r1;
    assert (q - q1) * a == r1 - r;
    if q > q1 { MulMono(1, q - q1, a); }
    if q < q1 { MulMono(1, q1 - q, a); }
  }

  // ---------------------------------------------------------------- 16-bit words in memory

  function Low(v: nat): Byte { (v % 256) as Byte }

  function High(v: nat): Byte { (v / 256 % 256) as Byte }

  lemma WordRoundTrip(v: nat)
    ensures (Low(v) as int) + 256 * (High(v) as int) == v % U16
  {
    var q, r := v / 256, v % 256;
    var p, t := q / 256, q % 256;
    assert v == p * U16 + (256 * t + r);
    ModUnique(v, p, 256 * t + r, U16);
  }

  class Segment {
    const base: nat  // address of the first byte
    var bytes: array<Byte>

    constructor (base: nat, bytes: array<Byte>)
      ensures this.base == base && this.bytes == bytes
    {
      this.base := base;
      this.bytes := bytes;
    }

    predicate Inside(ptr: nat, n: nat)
      reads this
    {
      base <= ptr && ptr + n <= base + bytes.Length
    }

    function Word(ptr: nat): nat
      requires Inside(ptr, 2)
      reads this, bytes
    {
      bytes[ptr - base] as int + 256 * (bytes[ptr - base + 1] as int)
    }

    method Write16(ptr: nat, v: nat)
      requires Inside(ptr, 2)
      modifies bytes
      ensures Word(ptr) == v % U16
      ensures forall i | 0 <= i < bytes.Length && i != ptr - base && i != ptr - base + 1 :: bytes[i] == old(bytes[i])
    {
      bytes[ptr - base], bytes[ptr - base + 1] := Low(v), High(v);
      WordRoundTrip(v);
    }

    // ---------------------------------------------------------------- reading a header

    function HdrPtr(ptr: nat): nat
      requires Inside(ptr, 2)
      reads this, bytes
    {
      ptr + OFFSET_SIZE + Word(ptr)
    }

    predicate HasHeader(ptr: nat)
      reads this, bytes
    {
      Inside(ptr, 2) && Inside(HdrPtr(ptr), HDR_SIZE)
    }

    /** The user offset as the code computes it: a 16-bit sum. */
    function UserOffset(ptr: nat): nat
      requires HasHeader(ptr)
      reads this, bytes
    {
      (HdrPartSize() + Word(HdrPtr(ptr))) % U16
    }

    function UserPtr(ptr: nat): nat
      requires HasHeader(ptr)
      reads this, bytes
    {
      ptr + HdrPartSize() + Word(HdrPtr(ptr))
    }

    function RefCount(ptr: nat): nat
      requires HasHeader(ptr)
      reads this, bytes
    {
      Word(HdrPtr(ptr) + 2)
    }

    /** The words of a header: the offset of the header, behind it the padding, then the count. */
    lemma HeaderWords(ptr: nat)
      requires HasHeader(ptr)
      ensures UserPtr(ptr) == ptr + 8 + Word(ptr + 2 + Word(ptr)) && RefCount(ptr) == Word(ptr + 4 + Word(ptr))
    {
    }

    // ---------------------------------------------------------------- writing a header

    /**
     * Writes the header of a fresh buffer.  The header lies aligned inside the header part, the count is
     * one, the stored user offset is the padding modulo 2^16, and no byte behind the header part changes.
     */
    method Construct(ptr: nat, alignment: nat)
      requires ptr % 2 == 0 && alignment > 0 && Inside(ptr, HdrPartSize())
      modifies bytes
      ensures HasHeader(ptr) && HdrPtr(ptr) % HDR_ALIGN == 0
      ensures ptr + OFFSET_SIZE <= HdrPtr(ptr) && HdrPtr(ptr) + HDR_SIZE <= ptr + HdrPartSize()
      ensures RefCount(ptr) == 1
      ensures Word(HdrPtr(ptr)) == Pad(ptr + HdrPartSize(), alignment) % U16
      ensures forall i | 0 <= i < bytes.Length && !(ptr <= base + i < ptr + HdrPartSize()) :: bytes[i] == old(bytes[i])
    {
      var hdrOffset := HDR_ALIGN - (ptr + OFFSET_SIZE) % HDR_ALIGN;
      var userOffset := Pad(ptr + HdrPartSize(), alignment);
      EvenHeader(ptr);
      Fill(ptr, hdrOffset, userOffset);
    }

    /** The three words of a header, wherever it lies inside the header part. */
    method Fill(ptr: nat, hdrOffset: nat, userOffset: nat)
      requires Inside(ptr, HdrPartSize()) && hdrOffset <= HDR_ALIGN
      modifies bytes
      ensures HasHeader(ptr) && HdrPtr(ptr) == ptr + OFFSET_SIZE + hdrOffset
      ensures RefCount(ptr) == 1 && Word(HdrPtr(ptr)) == userOffset % U16
      ensures forall i | 0 <= i < bytes.Length && !(ptr <= base + i < ptr + HdrPartSize()) :: bytes[i] == old(bytes[i])
    {
      Write16(ptr, hdrOffset);
      var hdr := ptr + OFFSET_SIZE + hdrOffset;
      Write16(hdr, userOffset);
      assert Word(ptr) == hdrOffset;
      Write16(hdr + 2, 1);
      assert Word(ptr) == hdrOffset && HdrPtr(ptr) == hdr;
    }

    /** fetch_add and fetch_sub on the count; both return the value before. */
    method IncrementRefCount(ptr: nat) returns (was: nat)
      requires HasHeader(ptr) && HdrPtr(ptr) >= ptr + OFFSET_SIZE
      modifies bytes
      ensures was == old(RefCount(ptr)) && HasHeader(ptr) && HdrPtr(ptr) == old(HdrPtr(ptr))
      ensures RefCount(ptr) == (was + 1) % U16 && UserPtr(ptr) == old(UserPtr(ptr))
    {
      was := RefCount(ptr);
      Write16(HdrPtr(ptr) + 2, was + 1);
    }

    method DecrementRefCount(ptr: nat) returns (was: nat)
      requires HasHeader(ptr) && HdrPtr(ptr) >= ptr + OFFSET_SIZE
      modifies bytes
      ensures was == old(RefCount(ptr)) && HasHeader(ptr) && HdrPtr(ptr) == old(HdrPtr(ptr))
      ensures RefCount(ptr) == (was + U16 - 1) % U16 && UserPtr(ptr) == old(UserPtr(ptr))
    {
      was := RefCount(ptr);
      Write16(HdrPtr(ptr) + 2, was + U16 - 1);
    }

    /**
     * Allocation at an even address: the user buffer lies behind the header and fits the allocation; where the
     * offsets decode, which is everywhere for alignments up to 65527, it is aligned and both decodings find it.
     */
    method Allocate(ptr: nat, size: nat, requested: nat) returns (user: nat)
      requires ptr % 2 == 0 && Inside(ptr, FullSize(size, Effective(requested)))
      modifies bytes
      ensures HasHeader(ptr) && user == UserPtr(ptr) && RefCount(ptr) == 1
      ensures HdrPtr(ptr) + HDR_SIZE <= user && user + size <= ptr + FullSize(size, Effective(requested))
      ensures Decodes(ptr, Effective(requested)) ==> user % Effective(requested) == 0 && user == ptr + UserOffset(ptr)
      ensures requested <= 65527 ==> Decodes(ptr, Effective(requested))
      ensures requested < 16 ==> user % 16 == 0
      ensures 16 <= requested <= 65527 ==> user % requested == 0
    {
      var alignment := Effective(requested);
      Construct(ptr, alignment);
      StoredFacts(ptr, alignment);
      user := UserPtr(ptr);
    }
  }

  /** The alignment an allocation uses. */
  function Effective(requested: nat): nat { if requested < MAX_ALIGN then MAX_ALIGN else requested }

  // ---------------------------------------------------------------- exactly which alignments work

  /** The offsets that Construct stores for a buffer at `ptr`, and what they decode to. */
  function Stored(ptr: nat, alignment: nat): nat
    requires alignment > 0
  {
    Pad(ptr + HdrPartSize(), alignment) % U16
  }

  /** Both ways of finding the user buffer lead to the aligned address. */
  predicate Decodes(ptr: nat, alignment: nat)
    requires alignment > 0
  {
    var user := ptr + HdrPartSize() + Pad(ptr + HdrPartSize(), alignment);
    ptr + HdrPartSize() + Stored(ptr, alignment) == user && ptr + (HdrPartSize() + Stored(ptr, alignment)) % U16 == user
  }

  /** The stored offset stays within the padding, and where it decodes the user buffer is aligned. */
  lemma StoredFacts(ptr: nat, alignment: nat)
    requires alignment > 0
    ensures Stored(ptr, alignment) <= alignment && (alignment <= 65527 ==> Decodes(ptr, alignment))
    ensures Decodes(ptr, alignment) ==> (ptr + HdrPartSize() + Stored(ptr, alignment)) % alignment == 0
  {
    PadAligns(ptr + HdrPartSize(), alignment);
  }

  lemma EvenHeader(ptr: nat)
    requires ptr % 2 == 0
    ensures (ptr + OFFSET_SIZE) % HDR_ALIGN == 0 && (ptr + OFFSET_SIZE + HDR_ALIGN) % HDR_ALIGN == 0
  {
  }

  /** A particular buffer decodes exactly if header part and padding together fit 16 bits. */
  lemma DecodesIff(ptr: nat, alignment: nat)
    requires alignment > 0
    ensures Decodes(ptr, alignment) <==> HdrPartSize() + Pad(ptr + HdrPartSize(), alignment) < U16
  {
    PadAligns(ptr + HdrPartSize(), alignment);
  }

  /** An alignment is safe at every even address exactly if it is at most 65527. */
  lemma AlignmentLimit(alignment: nat)
    requires alignment > 0
    ensures (forall ptr: nat | ptr % 2 == 0 :: Decodes(ptr, alignment)) <==> alignment <= 65527
  {
    if alignment <= 65527 {
      forall ptr: nat | ptr % 2 == 0 ensures Decodes(ptr, alignment) {
        PadAligns(ptr + HdrPartSize(), alignment);
      }
    } else {
      // an even address just behind a multiple of the alignment needs the longest padding
      var ptr := 2 * alignment - HdrPartSize();
      MultipleIsZero(2, alignment);
      assert Pad(ptr + HdrPartSize(), alignment) == alignment;
      assert !Decodes(ptr, alignment);
    }
  }
}
