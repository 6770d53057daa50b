/** Reading clusters, following the FAT chain and building a directory's listing
    (getCluster, getNextCluster, getRawDirectory). */
module DirListing {
  import opened LittleEndian
  import opened BootSector
  import opened DirEntry

  // ---------------------------------------------------------------------------
  // Reading a cluster

  /** `count` bytes of the image from `offset` on, with a zero wherever the image has ended. */
  function ImageBytes(input: seq<byte>, offset: nat, count: nat): (bytes: seq<byte>)
    ensures |bytes| == count
    decreases count
  {
    if count == 0 then []
    else
      var last := offset + count - 1;
      ImageBytes(input, offset, count - 1) + [if last < |input| then input[last] else 0]
  }

  /** Each byte of ImageBytes is the image byte at the same distance from `offset`, or zero past
      the end of the image. */
  lemma {:induction false} ImageBytesAt(input: seq<byte>, offset: nat, count: nat)
    ensures forall i :: 0 <= i < count ==>
              ImageBytes(input, offset, count)[i] == if offset + i < |input| then input[offset + i] else 0
    decreases count
  {
    if count > 0 {
      ImageBytesAt(input, offset, count - 1);
    }
  }

  /** The BytesPerCluster bytes getCluster returns for cluster `number`: the image bytes from the
      cluster's offset on, and zeros (left by calloc) wherever fread stopped short of the end. */
  function ClusterBytes(input: seq<byte>, fat32: FileAllocationTable32, number: u32): (bytes: seq<byte>)
    ensures |bytes| == fat32.BytesPerCluster
  {
    ImageBytes(input, ClusterOffset(fat32, number), fat32.BytesPerCluster)
  }

  /** getCluster: a zeroed buffer of BytesPerCluster bytes, into which fread copies the bytes
      the image still has from the cluster's offset on. */
  method GetCluster(input: seq<byte>, fat32: FileAllocationTable32, number: u32) returns (buffer: array<byte>)
    ensures fresh(buffer)
    ensures buffer[..] == ClusterBytes(input, fat32, number)
  {
    var offset := ClusterOffset(fat32, number);
    buffer := new byte[fat32.BytesPerCluster];
    forall i | 0 <= i < buffer.Length {
      buffer[i] := 0;
    }
    var available := if offset < |input| then |input| - offset else 0;
    var count := if available < fat32.BytesPerCluster then available else fat32.BytesPerCluster;
    forall i | 0 <= i < count {
      buffer[i] := input[offset + i];
    }
    ImageBytesAt(input, offset, fat32.BytesPerCluster);
  }

  // ---------------------------------------------------------------------------
  // The FAT chain

  /** Where getNextCluster reads the FAT entry of `cluster`: FAT1Offset + cluster * 4 in
      uint32_t arithmetic. */
  function FatEntryOffset(fat32: FileAllocationTable32, cluster: u32): (offset: u32)
    ensures offset == (fat32.FAT1Offset + 4 * cluster) % TWO32
    ensures fat32.FAT1Offset + 4 * cluster < TWO32 ==> offset == fat32.FAT1Offset + 4 * cluster
  {
    Mul32Value(cluster, 4);
    ModAddLeft(4 * cluster, fat32.FAT1Offset);
    Add32(fat32.FAT1Offset, Mul32(cluster, 4))
  }

  /** The model reads a FAT entry only when its four bytes lie inside the image (the source does
      not check, and would read EOF there). */
  predicate FatReadable(input: seq<byte>, fat32: FileAllocationTable32, cluster: u32)
  {
    FatEntryOffset(fat32, cluster) + 4 <= |input|
  }

  /** getNextCluster: the 32-bit little-endian FAT entry of `cluster` in the first FAT, unmasked. */
  function NextCluster(input: seq<byte>, fat32: FileAllocationTable32, cluster: u32): (next: u32)
    requires FatReadable(input, fat32, cluster)
    ensures next == DoubleWord(input, FatEntryOffset(fat32, cluster))
  {
    DoubleWordFromFile(input, FatEntryOffset(fat32, cluster))
  }

  /** How getRawDirectory reads a FAT value. The test is the code's own, on the whole 32-bit
      value: no 28-bit mask, and every value from 0xF0 up stops the chain. */
  datatype FatValue = EndOfChain | BadCluster | Reserved | Allocated(next: u32) | Invalid

  function Classify(value: u32): (c: FatValue)
    ensures c == EndOfChain <==> 0xF8 <= value
    ensures c == BadCluster <==> value == 0xF7
    ensures c == Reserved <==> 0xF0 <= value < 0xF7
    ensures c.Allocated? <==> 2 <= value < 0xF0
    ensures c.Allocated? ==> c.next == value
    ensures c == Invalid <==> value < 2
  {
    if value >= 0xF8 then EndOfChain
    else if value == 0xF7 then BadCluster
    else if value >= 0xF0 then Reserved
    else if value >= 0x02 then Allocated(value)
    else Invalid
  }

  // ---------------------------------------------------------------------------
  // One cluster's slots

  /** The end-of-directory slot: a decoded slot with order 0 (every short entry, and a fragment
      with order byte 0) whose first name byte is NUL. */
  predicate IsTerminator(item: DirectoryInfo)
  {
    item.LongDirOrder == 0 && item.Name[0] == 0
  }

  /** A deleted slot: first name byte or order byte 0xE5. */
  predicate IsDeleted(item: DirectoryInfo)
  {
    item.Name[0] == 0xE5 || item.LongDirOrder == 0xE5
  }

  /** What the for loop of getRawDirectory takes from one cluster buffer: the entries it keeps,
      and whether it met the end-of-directory slot. */
  datatype ClusterScan = ClusterScan(kept: seq<DirectoryInfo>, isEnd: bool)

  /** The for loop from slot `count` on: a terminator stops the scan, a deleted slot is skipped,
      any other slot is kept. */
  function ScanSlots(buffer: seq<byte>, count: nat, slots: nat): ClusterScan
    requires slots * 0x20 <= |buffer|
    decreases slots - count
  {
    if slots <= count then ClusterScan([], false)
    else
      var temp := GetDirectoryItem(buffer, count * 0x20);
      if IsTerminator(temp) then ClusterScan([], true)
      else
        var rest := ScanSlots(buffer, count + 1, slots);
        if IsDeleted(temp) then rest else ClusterScan([temp] + rest.kept, rest.isEnd)
  }

  /** The scan of cluster `number`. */
  function ClusterListing(input: seq<byte>, fat32: FileAllocationTable32, number: u32): ClusterScan
    requires WellFormed(fat32)
  {
    ScanSlots(ClusterBytes(input, fat32, number), 0, fat32.DirItemPerCluster)
  }

  // ---------------------------------------------------------------------------
  // The same scan stated as a filter

  /** The decoded slots of one cluster buffer, in order. */
  function Slots(buffer: seq<byte>, count: nat): (items: seq<DirectoryInfo>)
    requires count * 0x20 <= |buffer|
    ensures |items| == count
  {
    seq(count, i requires 0 <= i < count => GetDirectoryItem(buffer, i * 0x20))
  }

  /** The index of the first terminator, or the length when there is none. */
  function FirstTerminator(items: seq<DirectoryInfo>): (t: nat)
    ensures t <= |items|
  {
    if items == [] then 0
    else if IsTerminator(items[0]) then 0
    else 1 + FirstTerminator(items[1..])
  }

  /** FirstTerminator finds the first terminator: none before it, one at it unless it is the
      length. */
  lemma {:induction false} FirstTerminatorFirst(items: seq<DirectoryInfo>)
    ensures forall j :: 0 <= j < FirstTerminator(items) ==> !IsTerminator(items[j])
    ensures FirstTerminator(items) < |items| ==> IsTerminator(items[FirstTerminator(items)])
    decreases |items|
  {
    if items != [] && !IsTerminator(items[0]) {
      FirstTerminatorFirst(items[1..]);
    }
  }

  /** The slots that are not deleted, in their original order. */
  function Survivors(items: seq<DirectoryInfo>): (kept: seq<DirectoryInfo>)
    ensures |kept| <= |items|
  {
    if items == [] then []
    else if IsDeleted(items[0]) then Survivors(items[1..])
    else [items[0]] + Survivors(items[1..])
  }

  /** A slot survives exactly when it is among the slots and not deleted. */
  lemma {:induction false} SurvivorsMembers(items: seq<DirectoryInfo>)
    ensures forall e :: e in Survivors(items) <==> e in items && !IsDeleted(e)
    decreases |items|
  {
    if items != [] {
      SurvivorsMembers(items[1..]);
      assert items == [items[0]] + items[1..];
    }
  }

  /** The scan keeps exactly the slots before the first terminator that are not deleted, in
      order, and reports the end of the directory exactly when a terminator lies in the buffer. */
  lemma {:induction false} ScanSlotsFilter(buffer: seq<byte>, count: nat, slots: nat)
    requires slots * 0x20 <= |buffer| && count <= slots
    ensures var rest := Slots(buffer, slots)[count..];
            ScanSlots(buffer, count, slots)
            == ClusterScan(Survivors(rest[..FirstTerminator(rest)]), FirstTerminator(rest) < |rest|)
    decreases slots - count
  {
    var rest := Slots(buffer, slots)[count..];
    if count < slots {
      assert rest[0] == GetDirectoryItem(buffer, count * 0x20);
      if !IsTerminator(rest[0]) {
        ScanSlotsFilter(buffer, count + 1, slots);
        var tail := rest[1..];
        assert tail == Slots(buffer, slots)[count + 1..];
        var t := FirstTerminator(tail);
        assert FirstTerminator(rest) == 1 + t;
        var prefix := rest[..1 + t];
        assert prefix[0] == rest[0] && prefix[1..] == tail[..t];
      }
    }
  }

  /** No scan keeps a terminator or a deleted slot. */
  lemma {:induction false} ScanSlotsClean(buffer: seq<byte>, count: nat, slots: nat)
    requires slots * 0x20 <= |buffer|
    ensures forall e :: e in ScanSlots(buffer, count, slots).kept ==> !IsTerminator(e) && !IsDeleted(e)
    decreases slots - count
  {
    if count < slots && !IsTerminator(GetDirectoryItem(buffer, count * 0x20)) {
      ScanSlotsClean(buffer, count + 1, slots);
    }
  }

  // ---------------------------------------------------------------------------
  // The listing of a whole directory

  /** How a walk ended. Returned is the only ending of the source itself. Hangs and InvalidAccess
      mark where the source does not return. Hangs: a FAT value 0 or 1 makes getRawDirectory
      loop forever, running the for loop again over the same buffer and appending the same
      entries past the end of the list on each pass (a heap overflow unless the cluster kept
      nothing). InvalidAccess: walkDirectory dereferences the NULL terminator of an empty
      listing, or reads past a one-entry listing that starts with ".". PastImage marks where the
      model stops although the source goes on: a FAT entry lies beyond the image, where the
      source reads EOF bytes. OutOfFuel marks where the model's step bound ran out. */
  datatype Halt = Returned | Hangs | InvalidAccess | PastImage | OutOfFuel

  datatype Scan = Listing(entries: seq<DirectoryInfo>) | Stuck(halt: Halt)

  /** Entries found in earlier clusters come before those of the rest of the chain. */
  function Prepend(prefix: seq<DirectoryInfo>, rest: Scan): Scan
  {
    match rest
    case Listing(entries) => Listing(prefix + entries)
    case Stuck(h) => rest
  }

  /** getRawDirectory as a function: the scan of each cluster in turn; a terminator ends the
      listing, otherwise the FAT decides whether the next cluster's entries follow. `fuel` bounds
      how many further clusters are followed. */
  function ChainListing(input: seq<byte>, fat32: FileAllocationTable32, cluster: u32, fuel: nat): Scan
    requires WellFormed(fat32)
    decreases fuel
  {
    var scan := ClusterListing(input, fat32, cluster);
    if scan.isEnd then Listing(scan.kept)
    else if !FatReadable(input, fat32, cluster) then Stuck(PastImage)
    else match Classify(NextCluster(input, fat32, cluster))
      case Allocated(next) =>
        if fuel == 0 then Stuck(OutOfFuel)
        else Prepend(scan.kept, ChainListing(input, fat32, next, fuel - 1))
      case Invalid => Stuck(Hangs)
      case _ => Listing(scan.kept)
  }

  /** One pass of the scan loop, given what the slots before `count` kept: a terminator ends
      the scan, a deleted slot is passed over, any other slot is kept after them. */
  lemma ScanSlotsStep(buffer: seq<byte>, count: nat, slots: nat, kept: seq<DirectoryInfo>, total: ClusterScan)
    requires count < slots && slots * 0x20 <= |buffer|
    requires kept + ScanSlots(buffer, count, slots).kept == total.kept
    requires ScanSlots(buffer, count, slots).isEnd == total.isEnd
    ensures var temp := GetDirectoryItem(buffer, count * 0x20);
            var rest := ScanSlots(buffer, count + 1, slots);
            && (IsTerminator(temp) ==> kept == total.kept && total.isEnd)
            && (!IsTerminator(temp) && IsDeleted(temp) ==> kept + rest.kept == total.kept && rest.isEnd == total.isEnd)
            && (!IsTerminator(temp) && !IsDeleted(temp) ==>
                  (kept + [temp]) + rest.kept == total.kept && rest.isEnd == total.isEnd)
  {
    var temp := GetDirectoryItem(buffer, count * 0x20);
    var rest := ScanSlots(buffer, count + 1, slots);
    if IsTerminator(temp) {
      assert kept + [] == kept;
    } else if !IsDeleted(temp) {
      assert (kept + [temp]) + rest.kept == kept + ([temp] + rest.kept);
    }
  }

  /** The for loop of getRawDirectory over one cluster buffer. */
  method ScanCluster(buffer: array<byte>, slots: nat) returns (kept: seq<DirectoryInfo>, isEnd: bool)
    requires slots * 0x20 <= buffer.Length
    ensures ClusterScan(kept, isEnd) == ScanSlots(buffer[..], 0, slots)
  {
    var data := buffer[..];
    kept := [];
    isEnd := false;
    var count := 0;
    ghost var total := ScanSlots(data, 0, slots);
    while count < slots
      invariant count <= slots
      invariant kept + ScanSlots(data, count, slots).kept == total.kept
      invariant ScanSlots(data, count, slots).isEnd == total.isEnd
    {
      var temp := GetDirectoryItem(data, count * 0x20);
      ScanSlotsStep(data, count, slots, kept, total);
      if IsTerminator(temp) {
        isEnd := true;
        break;
      } else if IsDeleted(temp) {
        // passed over
      } else {
        kept := kept + [temp];
      }
      count := count + 1;
    }
    assert kept + [] == kept;
  }

  /** One pass of getRawDirectory's loop, read off the definition of ChainListing. */
  lemma ChainListingStep(input: seq<byte>, fat32: FileAllocationTable32, cluster: u32, fuel: nat)
    requires WellFormed(fat32)
    ensures var scan := ClusterListing(input, fat32, cluster);
            var whole := ChainListing(input, fat32, cluster, fuel);
            && (scan.isEnd ==> whole == Listing(scan.kept))
            && (!scan.isEnd && !FatReadable(input, fat32, cluster) ==> whole == Stuck(PastImage))
            && (!scan.isEnd && FatReadable(input, fat32, cluster) ==>
                  match Classify(NextCluster(input, fat32, cluster))
                  case Allocated(next) =>
                    whole == if fuel == 0 then Stuck(OutOfFuel)
                             else Prepend(scan.kept, ChainListing(input, fat32, next, fuel - 1))
                  case Invalid => whole == Stuck(Hangs)
                  case _ => whole == Listing(scan.kept))
  {
  }

  /** getCluster followed by the for loop over the slots of the buffer it returns. */
  method ReadCluster(input: seq<byte>, fat32: FileAllocationTable32, number: u32)
    returns (kept: seq<DirectoryInfo>, isEnd: bool)
    requires WellFormed(fat32)
    ensures ClusterScan(kept, isEnd) == ClusterListing(input, fat32, number)
  {
    var buffer := GetCluster(input, fat32, number);
    kept, isEnd := ScanCluster(buffer, fat32.DirItemPerCluster);
  }

  /** What getRawDirectory's loop will return from a pass over `cluster`: the entries found so
      far, followed by the listing of the chain from `cluster` on. */
  function Remaining(input: seq<byte>, fat32: FileAllocationTable32, before: seq<DirectoryInfo>,
                     cluster: u32, steps: nat): Scan
    requires WellFormed(fat32)
  {
    Prepend(before, ChainListing(input, fat32, cluster, steps))
  }

  /** One pass of getRawDirectory's loop over `cluster`: the entries its buffer keeps are added
      to `before`. When the FAT sends the loop on, the pass returns the next cluster; otherwise it
      is `done` and returns the whole listing. */
  method ChainPass(input: seq<byte>, fat32: FileAllocationTable32, cluster: u32, steps: nat,
                   before: seq<DirectoryInfo>, ghost whole: Scan)
    returns (after: seq<DirectoryInfo>, next: u32, left: nat, done: bool, r: Scan)
    requires WellFormed(fat32)
    requires Remaining(input, fat32, before, cluster, steps) == whole
    ensures done ==> r == whole
    ensures !done ==> left < steps && Remaining(input, fat32, after, next, left) == whole
  {
    var kept, isEnd := ReadCluster(input, fat32, cluster);
    ChainListingStep(input, fat32, cluster, steps);
    after, next, left, done, r := before + kept, cluster, steps, true, Prepend(before, Listing(kept));
    if isEnd {
      return;
    }
    if !FatReadable(input, fat32, cluster) {
      r := Prepend(before, Stuck(PastImage));
      return;
    }
    var nextCluster := NextCluster(input, fat32, cluster);
    match Classify(nextCluster)
    case Allocated(following) =>
      if steps == 0 {
        r := Prepend(before, Stuck(OutOfFuel));
      } else {
        next, left, done := following, steps - 1, false;
        PrependStep(before, kept, ChainListing(input, fat32, cluster, steps),
                    ChainListing(input, fat32, next, steps - 1), whole);
      }
    case Invalid =>
      // the source's empty branch: it decodes the same buffer again, forever
      r := Prepend(before, Stuck(Hangs));
    case _ =>
      // end of chain, bad cluster or reserved value
  }

  /** getRawDirectory: scans each cluster of the chain in turn and, when a whole cluster had no
      terminator, lets the FAT value decide whether to go on. */
  method GetRawDirectory(input: seq<byte>, fat32: FileAllocationTable32, first: u32, fuel: nat) returns (r: Scan)
    requires WellFormed(fat32)
    ensures r == ChainListing(input, fat32, first, fuel)
  {
    var cluster: u32 := first;
    var steps: nat := fuel;
    var directoryList: seq<DirectoryInfo> := [];
    ghost var whole := ChainListing(input, fat32, first, fuel);
    PrependNothing(whole);
    while true
      invariant Remaining(input, fat32, directoryList, cluster, steps) == whole
      decreases steps
    {
      // The source reads the first cluster before the loop and each further one at the end of
      // the allocated branch; the only path that loops without reading (FAT value 0 or 1) is
      // modelled as Hangs, so reading at the top of each pass is the same.
      var done;
      directoryList, cluster, steps, done, r := ChainPass(input, fat32, cluster, steps, directoryList, whole);
      if done {
        return;
      }
    }
  }

  lemma PrependNothing(rest: Scan)
    ensures Prepend([], rest) == rest
  {
    if rest.Listing? {
      assert [] + rest.entries == rest.entries;
    }
  }

  /** Moving one cluster's entries from the rest of the chain to the entries found so far keeps
      the whole listing. */
  lemma PrependStep(before: seq<DirectoryInfo>, kept: seq<DirectoryInfo>, here: Scan, rest: Scan, whole: Scan)
    requires Prepend(before, here) == whole
    requires here == Prepend(kept, rest)
    ensures Prepend(before + kept, rest) == whole
  {
    if rest.Listing? {
      assert before + (kept + rest.entries) == (before + kept) + rest.entries;
    }
  }

  // ---------------------------------------------------------------------------
  // Properties of the listing

  /** No listing holds a terminator or a deleted slot. */
  lemma {:induction false} ChainListingClean(input: seq<byte>, fat32: FileAllocationTable32, cluster: u32, fuel: nat)
    requires WellFormed(fat32)
    requires ChainListing(input, fat32, cluster, fuel).Listing?
    ensures forall e :: e in ChainListing(input, fat32, cluster, fuel).entries ==> !IsTerminator(e) && !IsDeleted(e)
    decreases fuel
  {
    var scan := ClusterListing(input, fat32, cluster);
    assert forall e :: e in scan.kept ==> !IsTerminator(e) && !IsDeleted(e) by {
      ScanSlotsClean(ClusterBytes(input, fat32, cluster), 0, fat32.DirItemPerCluster);
    }
    var whole := ChainListing(input, fat32, cluster, fuel);
    if !scan.isEnd && FatReadable(input, fat32, cluster) && Classify(NextCluster(input, fat32, cluster)).Allocated? {
      var next := Classify(NextCluster(input, fat32, cluster)).next;
      assert fuel > 0;
      var rest := ChainListing(input, fat32, next, fuel - 1);
      assert whole == Prepend(scan.kept, rest);
      ChainListingClean(input, fat32, next, fuel - 1);
      forall e | e in whole.entries
        ensures !IsTerminator(e) && !IsDeleted(e)
      {
        assert e in scan.kept || e in rest.entries;
      }
    } else {
      assert whole.entries == scan.kept;
    }
  }

  /** Following the chain further never changes a listing already complete: the step bound only
      decides whether one is found. */
  lemma {:induction false} ChainListingFuel(input: seq<byte>, fat32: FileAllocationTable32, cluster: u32, fuel: nat, more: nat)
    requires WellFormed(fat32)
    requires fuel <= more
    requires ChainListing(input, fat32, cluster, fuel) != Stuck(OutOfFuel)
    ensures ChainListing(input, fat32, cluster, more) == ChainListing(input, fat32, cluster, fuel)
    decreases fuel
  {
    var scan := ClusterListing(input, fat32, cluster);
    if !scan.isEnd && FatReadable(input, fat32, cluster) {
      var v := Classify(NextCluster(input, fat32, cluster));
      if v.Allocated? {
        assert fuel > 0;
        assert ChainListing(input, fat32, cluster, fuel) == Prepend(scan.kept, ChainListing(input, fat32, v.next, fuel - 1));
        ChainListingFuel(input, fat32, v.next, fuel - 1, more - 1);
        assert ChainListing(input, fat32, cluster, more) == Prepend(scan.kept, ChainListing(input, fat32, v.next, more - 1));
      }
    }
  }
}
