/** The boot-sector (DBR) fields the walker reads, the FAT32 layout it derives from them, and the
    mapping from a cluster number to the byte offset where that cluster lies in the image. */
module BootSector {
  import opened LittleEndian

  /** struct DosBootRecord: the six boot-sector fields, at their C widths. */
  datatype DosBootRecord = DosBootRecord(
    BytesPerSector: u16,
    SectorPerCluster: byte,
    ReservedSectorCount: u16,
    FATsCount: byte,
    TotalSectorCount: u32,
    FATSize: u32)

  /** The boot sector must extend at least to the end of the FATSize field (bytes 36..39). */
  const BootFieldsEnd: nat := 40

  /** initDBR: reads the BPB fields at their fixed offsets 11, 13, 14, 16, 32 and 36, little-endian,
      without checking the signature or the plausibility of any value. */
  function InitDBR(input: seq<byte>): (dbr: DosBootRecord)
    requires BootFieldsEnd <= |input|
    ensures dbr.BytesPerSector == input[11] as int + 0x100 * input[12] as int
    ensures dbr.SectorPerCluster == input[13]
    ensures dbr.ReservedSectorCount == input[14] as int + 0x100 * input[15] as int
    ensures dbr.FATsCount == input[16]
    ensures dbr.TotalSectorCount == input[32] as int + 0x100 * input[33] as int
                                   + 0x1_0000 * input[34] as int + 0x100_0000 * input[35] as int
    ensures dbr.FATSize == input[36] as int + 0x100 * input[37] as int
                           + 0x1_0000 * input[38] as int + 0x100_0000 * input[39] as int
  {
    DosBootRecord(
      WordFromFile(input, 11),
      ByteFromFile(input, 13),
      WordFromFile(input, 14),
      ByteFromFile(input, 16),
      DoubleWordFromFile(input, 32),
      DoubleWordFromFile(input, 36))
  }

  /** Writes the six fields into a sector at the offsets InitDBR reads them from. */
  function WriteDBR(sector: seq<byte>, dbr: DosBootRecord): (r: seq<byte>)
    requires BootFieldsEnd <= |sector|
    ensures |r| == |sector|
    ensures forall i :: 0 <= i < |sector| && !(11 <= i < 17) && !(32 <= i < 40) ==> r[i] == sector[i]
  {
    var s1 := PutWord(sector, 11, dbr.BytesPerSector);
    var s2 := PutByte(s1, 13, dbr.SectorPerCluster);
    var s3 := PutWord(s2, 14, dbr.ReservedSectorCount);
    var s4 := PutByte(s3, 16, dbr.FATsCount);
    var s5 := PutDoubleWord(s4, 32, dbr.TotalSectorCount);
    PutDoubleWord(s5, 36, dbr.FATSize)
  }

  /** Reading back a boot sector written with WriteDBR yields the same record: the six fields
      occupy disjoint bytes. */
  lemma {:induction false} InitDBRRoundTrip(sector: seq<byte>, dbr: DosBootRecord)
    requires BootFieldsEnd <= |sector|
    ensures InitDBR(WriteDBR(sector, dbr)) == dbr
  {
    var s1 := PutWord(sector, 11, dbr.BytesPerSector);
    var s2 := PutByte(s1, 13, dbr.SectorPerCluster);
    var s3 := PutWord(s2, 14, dbr.ReservedSectorCount);
    var s4 := PutByte(s3, 16, dbr.FATsCount);
    var s5 := PutDoubleWord(s4, 32, dbr.TotalSectorCount);
    var s6 := PutDoubleWord(s5, 36, dbr.FATSize);
    WordRoundTrip(sector, 11, dbr.BytesPerSector);
    WordRoundTrip(s2, 14, dbr.ReservedSectorCount);
    DoubleWordRoundTrip(s4, 32, dbr.TotalSectorCount);
    DoubleWordRoundTrip(s5, 36, dbr.FATSize);
    assert Word(s6, 11) == Word(s1, 11);
    assert s6[13] == s2[13];
    assert Word(s6, 14) == Word(s3, 14);
    assert s6[16] == s4[16];
    assert DoubleWord(s6, 32) == DoubleWord(s5, 32);
  }

  // ---------------------------------------------------------------------------
  // Layout

  /** struct FileAllocationTable32: byte offsets of the two FAT copies and of the root directory,
      the cluster size in bytes and the number of 32-byte slots per cluster. */
  datatype FileAllocationTable32 = FileAllocationTable32(
    FAT1Offset: u32,
    FAT2Offset: u32,
    RootDirectoryOffset: u32,
    BytesPerCluster: u32,
    DirItemPerCluster: u32)

  /** What every consumer of the layout relies on: a cluster holds DirItemPerCluster whole
      32-byte slots and less than one more, that is DirItemPerCluster is BytesPerCluster / 0x20. */
  predicate WellFormed(fat32: FileAllocationTable32)
  {
    fat32.DirItemPerCluster * 0x20 <= fat32.BytesPerCluster < fat32.DirItemPerCluster * 0x20 + 0x20
  }

  /** initFAT32: the first FAT follows the reserved sectors, the second FAT and then the root
      directory follow at one FAT size each (always two copies, whatever FATsCount says), all
      in uint32_t arithmetic. The cluster size never wraps: it is below 2^24. */
  function InitFAT32(dbr: DosBootRecord): (fat32: FileAllocationTable32)
    ensures WellFormed(fat32)
    ensures fat32.FAT1Offset == (dbr.BytesPerSector * dbr.ReservedSectorCount) % TWO32
    ensures (fat32.FAT2Offset - fat32.FAT1Offset) % TWO32 == (dbr.BytesPerSector * dbr.FATSize) % TWO32
    ensures (fat32.RootDirectoryOffset - fat32.FAT2Offset) % TWO32
            == (dbr.BytesPerSector * dbr.FATSize) % TWO32
    ensures fat32.BytesPerCluster == dbr.SectorPerCluster * dbr.BytesPerSector < 0x100_0000
    ensures fat32.DirItemPerCluster == fat32.BytesPerCluster / 0x20
  {
    var fat1 := Mul32(dbr.BytesPerSector, dbr.ReservedSectorCount);
    var fat2 := Add32(fat1, Mul32(dbr.BytesPerSector, dbr.FATSize));
    var root := Add32(fat2, Mul32(dbr.BytesPerSector, dbr.FATSize));
    var bpc := ClusterSize(dbr.SectorPerCluster, dbr.BytesPerSector);
    Mul32Value(dbr.BytesPerSector, dbr.ReservedSectorCount);
    Mul32Value(dbr.BytesPerSector, dbr.FATSize);
    WrappedDifference(fat1, Mul32(dbr.BytesPerSector, dbr.FATSize));
    WrappedDifference(fat2, Mul32(dbr.BytesPerSector, dbr.FATSize));
    FileAllocationTable32(fat1, fat2, root, bpc, bpc / 0x20)
  }

  /** SectorPerCluster * BytesPerSector: at most 255 * 65535, which fits in 24 bits. */
  function ClusterSize(spc: byte, bps: u16): (n: u32)
    ensures n == spc * bps < 0x100_0000
  {
    MulMonotone(spc, 0xFF, bps);
    MulMonotone(bps, 0xFFFF, 0xFF);
    spc * bps
  }

  lemma MulMonotone(x: nat, y: nat, m: nat)
    requires x <= y
    ensures x * m <= y * m
  {
  }

  /** Subtracting modulo 2^32 undoes a wrapping addition. */
  lemma WrappedDifference(a: u32, b: u32)
    ensures (Add32(a, b) - a) % TWO32 == b
  {
  }

  /** On a volume whose root directory lies below 4 GiB nothing wraps, and the offsets are the
      sector counts of the regions before them times the sector size. */
  lemma {:induction false} InitFAT32Exact(dbr: DosBootRecord)
    requires dbr.BytesPerSector * (dbr.ReservedSectorCount + 2 * dbr.FATSize) < TWO32
    ensures InitFAT32(dbr).FAT1Offset == dbr.BytesPerSector * dbr.ReservedSectorCount
    ensures InitFAT32(dbr).FAT2Offset == dbr.BytesPerSector * (dbr.ReservedSectorCount + dbr.FATSize)
    ensures InitFAT32(dbr).RootDirectoryOffset
            == dbr.BytesPerSector * (dbr.ReservedSectorCount + 2 * dbr.FATSize)
  {
    var bps, rsc, fs := dbr.BytesPerSector as int, dbr.ReservedSectorCount as int, dbr.FATSize as int;
    var a, b := bps * rsc, bps * fs;
    assert bps * (rsc + 2 * fs) == a + 2 * b && bps * (rsc + fs) == a + b by {
      assert bps * (rsc + 2 * fs) == bps * rsc + bps * (2 * fs);
    }
    assert 0 <= a && 0 <= b by {
      NonnegProduct(bps, rsc);
      NonnegProduct(bps, fs);
    }
    assert Mul32(bps, rsc) == a by { Mul32Value(bps, rsc); ModSmall(a); }
    assert Mul32(bps, fs) == b by { Mul32Value(bps, fs); ModSmall(b); }
    assert Add32(a, b) == a + b by { ModSmall(a + b); }
    assert Add32(a + b, b) == a + 2 * b by { ModSmall(a + 2 * b); }
  }

  lemma NonnegProduct(x: nat, y: nat)
    ensures 0 <= x * y
  {
  }

  /** FATsCount and TotalSectorCount play no part in the layout. */
  lemma InitFAT32IgnoresCounts(d1: DosBootRecord, d2: DosBootRecord)
    requires d1.BytesPerSector == d2.BytesPerSector && d1.SectorPerCluster == d2.SectorPerCluster
    requires d1.ReservedSectorCount == d2.ReservedSectorCount && d1.FATSize == d2.FATSize
    ensures InitFAT32(d1) == InitFAT32(d2)
  {
  }

  // ---------------------------------------------------------------------------
  // Cluster mapping

  /** A value already below 2^32 is its own remainder. */
  lemma ModSmall(x: int)
    requires 0 <= x < TWO32
    ensures x % TWO32 == x
  {
  }

  /** A multiple of a value reduced modulo 2^32 agrees modulo 2^32 with the multiple of the value. */
  lemma {:induction false} ModMulRight(m: int, x: int)
    ensures (m * (x % TWO32)) % TWO32 == (m * x) % TWO32
  {
    var r, k := x % TWO32, x / TWO32;
    assert x == r + k * TWO32;
    var j := m * k;
    assert m * x == m * r + j * TWO32 by {
      assert m * (r + k * TWO32) == m * r + m * (k * TWO32);
      assert m * (k * TWO32) == (m * k) * TWO32;
    }
    ModPlusMultiple(m * r, j);
  }

  /** The byte offset getCluster seeks to for cluster `number`, in uint32_t arithmetic: the
      root directory holds cluster 2. */
  function ClusterOffset(fat32: FileAllocationTable32, number: u32): (offset: u32)
    ensures number == 2 ==> offset == fat32.RootDirectoryOffset
  {
    Add32(fat32.RootDirectoryOffset, Mul32(fat32.BytesPerCluster, (number - 2) % TWO32))
  }

  /** Each cluster lies BytesPerCluster bytes after the one before it, counting from the root
      directory as cluster 2, all modulo 2^32 (a number below 2 wraps around in `number - 2`). */
  lemma {:induction false} ClusterOffsetFormula(fat32: FileAllocationTable32, number: u32)
    ensures ClusterOffset(fat32, number)
            == (fat32.RootDirectoryOffset + fat32.BytesPerCluster * (number - 2)) % TWO32
  {
    var r, product := fat32.RootDirectoryOffset, fat32.BytesPerCluster * (number - 2);
    var wrapped := Mul32(fat32.BytesPerCluster, (number - 2) % TWO32);
    assert wrapped == product % TWO32 by {
      Mul32Value(fat32.BytesPerCluster, (number - 2) % TWO32);
      ModMulRight(fat32.BytesPerCluster, number - 2);
    }
    assert ClusterOffset(fat32, number) == (product % TWO32 + r) % TWO32;
    ModAddLeft(product, r);
  }

  /** Clusters from 2 upward that end below 4 GiB lie back to back from the root directory. */
  lemma ClusterOffsetExact(fat32: FileAllocationTable32, number: u32)
    requires 2 <= number
    requires fat32.RootDirectoryOffset + fat32.BytesPerCluster * (number - 2) < TWO32
    ensures ClusterOffset(fat32, number) == fat32.RootDirectoryOffset + fat32.BytesPerCluster * (number - 2)
  {
    var x := fat32.RootDirectoryOffset + fat32.BytesPerCluster * (number - 2);
    assert 0 <= x by {
      NonnegProduct(fat32.BytesPerCluster, number - 2);
    }
    ClusterOffsetFormula(fat32, number);
    ModSmall(x);
  }

  /** The next cluster number starts BytesPerCluster bytes further on, modulo 2^32. */
  lemma {:induction false} ClusterOffsetStep(fat32: FileAllocationTable32, number: u32)
    requires number + 1 < TWO32
    ensures ClusterOffset(fat32, number + 1) == Add32(ClusterOffset(fat32, number), fat32.BytesPerCluster)
  {
    ClusterOffsetFormula(fat32, number);
    ClusterOffsetFormula(fat32, number + 1);
    WrappedStep(fat32.RootDirectoryOffset, fat32.BytesPerCluster, number - 2);
  }

  /** One more step of `b` from `r + b * k`, modulo 2^32. */
  lemma WrappedStep(r: int, b: int, k: int)
    ensures (r + b * (k + 1)) % TWO32 == ((r + b * k) % TWO32 + b) % TWO32
  {
    assert b * (k + 1) == b * k + b;
    ModAddLeft(r + b * k, b);
  }
}
