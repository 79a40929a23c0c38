/**
 * File sizes (FileSize): a byte count with decimal (SI) unit constructors,
 * floor-division unit accessors and comparisons. Byte counts are modelled
 * as integers.
 */
module FileSizes {

  const KB_IN_BYTES: int := 1000
  const MB_IN_BYTES: int := 1000 * KB_IN_BYTES
  const GB_IN_BYTES: int := 1000 * MB_IN_BYTES
  const TB_IN_BYTES: int := 1000 * GB_IN_BYTES
  const PB_IN_BYTES: int := 1000 * TB_IN_BYTES

  datatype SerializedFileSize = SerializedFileSize(version: string, fileSizeInBytes: int)

  /** `Math.floor(bytes / unit)` for a positive unit, pinned down by its bounds. */
  lemma FloorDivision(bytes: int, unit: int, q: int)
    requires unit > 0
    requires q * unit <= bytes < (q + 1) * unit
    ensures q == bytes / unit
  {
    var d := bytes / unit;
    assert d * unit <= bytes < (d + 1) * unit;
    if q != d {
      var lo, hi := if q < d then q else d, if q < d then d else q;
      MultiplyMonotonic(lo + 1, hi, unit);
      assert false;
    }
  }

  lemma MultiplyMonotonic(a: int, b: int, unit: int)
    requires a <= b && unit > 0
    ensures a * unit <= b * unit
  {
    assert b * unit - a * unit == (b - a) * unit;
  }

  datatype FileSize = FileSize(fileSizeInBytes: int)
  {
    function ToBytes(): (r: int)
      ensures FromBytes(r) == this
    {
      fileSizeInBytes
    }

    /** Whole kilobytes, rounded down: `r` kilobytes fit, `r + 1` do not. */
    function ToKiloBytes(): (r: int)
      ensures r * KB_IN_BYTES <= ToBytes() < (r + 1) * KB_IN_BYTES
    {
      ToBytes() / KB_IN_BYTES
    }

    function ToMegaBytes(): (r: int)
      ensures r * MB_IN_BYTES <= ToBytes() < (r + 1) * MB_IN_BYTES
    {
      ToBytes() / MB_IN_BYTES
    }

    function ToGigaBytes(): (r: int)
      ensures r * GB_IN_BYTES <= ToBytes() < (r + 1) * GB_IN_BYTES
    {
      ToBytes() / GB_IN_BYTES
    }

    function ToTeraBytes(): (r: int)
      ensures r * TB_IN_BYTES <= ToBytes() < (r + 1) * TB_IN_BYTES
    {
      ToBytes() / TB_IN_BYTES
    }

    function ToPetaBytes(): (r: int)
      ensures r * PB_IN_BYTES <= ToBytes() < (r + 1) * PB_IN_BYTES
    {
      ToBytes() / PB_IN_BYTES
    }

    function Equals(other: FileSize): (r: bool)
      ensures r <==> other.ToBytes() == ToBytes()
    {
      other.ToBytes() == ToBytes()
    }

    /** `this > other`, by byte count. */
    function Gt(other: FileSize): (r: bool)
      ensures r <==> other.ToBytes() < ToBytes()
    {
      other.ToBytes() < ToBytes()
    }

    function Gte(other: FileSize): (r: bool)
      ensures r <==> Gt(other) || Equals(other)
      ensures r <==> !Lt(other)
    {
      other.ToBytes() <= ToBytes()
    }

    function Lt(other: FileSize): (r: bool)
      ensures r <==> ToBytes() < other.ToBytes()
    {
      other.ToBytes() > ToBytes()
    }

    function Lte(other: FileSize): (r: bool)
      ensures r <==> Lt(other) || Equals(other)
      ensures r <==> !Gt(other)
    {
      other.ToBytes() >= ToBytes()
    }

    function Serialize(): (r: SerializedFileSize)
      ensures r.version == "1"
      ensures Deserialize(r) == this
    {
      SerializedFileSize("1", fileSizeInBytes)
    }
  }

  function Deserialize(serialized: SerializedFileSize): (r: FileSize)
    ensures r.ToBytes() == serialized.fileSizeInBytes
  {
    FileSize(serialized.fileSizeInBytes)
  }

  function FromBytes(bytes: int): (r: FileSize)
    ensures r.fileSizeInBytes == bytes
  {
    FileSize(bytes)
  }

  /** Kilobytes are 1000 bytes, not 1024; converting back gives the same count. */
  function FromKiloBytes(kiloBytes: int): (r: FileSize)
    ensures r.ToBytes() == kiloBytes * 1000
    ensures r.ToKiloBytes() == kiloBytes
  {
    var r := FileSize(kiloBytes * KB_IN_BYTES);
    FloorDivision(r.ToBytes(), KB_IN_BYTES, kiloBytes);
    r
  }

  function FromMegaBytes(megaBytes: int): (r: FileSize)
    ensures r.ToBytes() == megaBytes * 1000000
    ensures r.ToMegaBytes() == megaBytes
    ensures r.ToKiloBytes() == megaBytes * 1000
  {
    var r := FileSize(megaBytes * MB_IN_BYTES);
    FloorDivision(r.ToBytes(), MB_IN_BYTES, megaBytes);
    FloorDivision(r.ToBytes(), KB_IN_BYTES, megaBytes * 1000);
    r
  }

  function FromGigaBytes(gigaBytes: int): (r: FileSize)
    ensures r.ToBytes() == gigaBytes * 1000000000
    ensures r.ToGigaBytes() == gigaBytes
    ensures r.ToMegaBytes() == gigaBytes * 1000
  {
    var r := FileSize(gigaBytes * GB_IN_BYTES);
    FloorDivision(r.ToBytes(), GB_IN_BYTES, gigaBytes);
    FloorDivision(r.ToBytes(), MB_IN_BYTES, gigaBytes * 1000);
    r
  }

  function FromTeraBytes(teraBytes: int): (r: FileSize)
    ensures r.ToBytes() == teraBytes * 1000000000000
    ensures r.ToTeraBytes() == teraBytes
    ensures r.ToGigaBytes() == teraBytes * 1000
  {
    var r := FileSize(teraBytes * TB_IN_BYTES);
    FloorDivision(r.ToBytes(), TB_IN_BYTES, teraBytes);
    FloorDivision(r.ToBytes(), GB_IN_BYTES, teraBytes * 1000);
    r
  }

  function FromPetaBytes(petaBytes: int): (r: FileSize)
    ensures r.ToBytes() == petaBytes * 1000000000000000
    ensures r.ToPetaBytes() == petaBytes
    ensures r.ToTeraBytes() == petaBytes * 1000
  {
    var r := FileSize(petaBytes * PB_IN_BYTES);
    FloorDivision(r.ToBytes(), PB_IN_BYTES, petaBytes);
    FloorDivision(r.ToBytes(), TB_IN_BYTES, petaBytes * 1000);
    r
  }

  /** Rounding down to a larger unit never reverses the order of two sizes. */
  lemma ToKiloBytesMonotonic(a: FileSize, b: FileSize)
    requires a.Lte(b)
    ensures a.ToKiloBytes() <= b.ToKiloBytes()
  {
    var x, y := a.ToKiloBytes(), b.ToKiloBytes();
    if x > y {
      MultiplyMonotonic(y + 1, x, KB_IN_BYTES);
      assert false;
    }
  }

  /** Each comparison is the mirror image of another: `a > b` is `b < a`. */
  lemma Duality(a: FileSize, b: FileSize)
    ensures a.Equals(b) <==> b.Equals(a)
    ensures a.Gt(b) <==> b.Lt(a)
    ensures a.Gte(b) <==> b.Lte(a)
  {
  }

  /** Two sizes compare in exactly one way. */
  lemma Trichotomy(a: FileSize, b: FileSize)
    ensures a.Lt(b) || a.Equals(b) || a.Gt(b)
    ensures !(a.Lt(b) && a.Equals(b)) && !(a.Lt(b) && a.Gt(b)) && !(a.Equals(b) && a.Gt(b))
  {
  }
}
