/** The program's global state: the boot record DBR and the layout FAT32 that initDBR and
    initFAT32 fill in, and main, which walks the root directory from cluster 2 at depth 0. */
module Session {
  import opened LittleEndian
  import BootSector
  import opened DirectoryWalk

  /** The two globals of the program, zero until main fills them in. */
  class Volume {
    var DBR: BootSector.DosBootRecord
    var FAT32: BootSector.FileAllocationTable32

    constructor()
      ensures DBR == BootSector.DosBootRecord(0, 0, 0, 0, 0, 0)
      ensures FAT32 == BootSector.FileAllocationTable32(0, 0, 0, 0, 0)
    {
      DBR := BootSector.DosBootRecord(0, 0, 0, 0, 0, 0);
      FAT32 := BootSector.FileAllocationTable32(0, 0, 0, 0, 0);
    }

    /** initDBR: the six fields, one read each, at their fixed offsets in the image. */
    method InitDBR(input: seq<byte>)
      requires BootSector.BootFieldsEnd <= |input|
      modifies this
      ensures DBR == BootSector.InitDBR(input)
      ensures FAT32 == old(FAT32)
    {
      DBR := DBR.(BytesPerSector := WordFromFile(input, 11));
      DBR := DBR.(SectorPerCluster := ByteFromFile(input, 13));
      DBR := DBR.(ReservedSectorCount := WordFromFile(input, 14));
      DBR := DBR.(FATsCount := ByteFromFile(input, 16));
      DBR := DBR.(TotalSectorCount := DoubleWordFromFile(input, 32));
      DBR := DBR.(FATSize := DoubleWordFromFile(input, 36));
    }

    /** initFAT32: the five layout fields from DBR, in uint32_t arithmetic. */
    method InitFAT32()
      modifies this
      ensures FAT32 == BootSector.InitFAT32(DBR)
      ensures DBR == old(DBR)
    {
      FAT32 := FAT32.(FAT1Offset := Mul32(DBR.BytesPerSector, DBR.ReservedSectorCount));
      FAT32 := FAT32.(FAT2Offset := Add32(FAT32.FAT1Offset, Mul32(DBR.BytesPerSector, DBR.FATSize)));
      FAT32 := FAT32.(RootDirectoryOffset := Add32(FAT32.FAT2Offset, Mul32(DBR.BytesPerSector, DBR.FATSize)));
      FAT32 := FAT32.(BytesPerCluster := BootSector.ClusterSize(DBR.SectorPerCluster, DBR.BytesPerSector));
      FAT32 := FAT32.(DirItemPerCluster := FAT32.BytesPerCluster / 0x20);
    }

    /** main, once the image is open: fill in DBR and FAT32, then walk the root directory,
        which is cluster 2, at depth 0. */
    method Run(input: seq<byte>, fuel: nat) returns (t: Trace)
      requires BootSector.BootFieldsEnd <= |input|
      modifies this
      ensures DBR == BootSector.InitDBR(input)
      ensures FAT32 == BootSector.InitFAT32(DBR)
      ensures t == Walk(input, FAT32, 2, 0, fuel)
    {
      InitDBR(input);
      InitFAT32();
      t := WalkDirectory(input, FAT32, 2, 0, fuel);
    }
  }
}
