/** Decoding one 32-byte directory slot (getDirectoryItem) into the record the listing holds:
    either a long-name fragment (attribute 0x0F) or a short 8.3 entry. */
module DirEntry {
  import opened LittleEndian

  const AttrLongName: byte := 0x0F

  /** A name buffer as the decoder allocates it: 11 name bytes plus a NUL for a short entry,
      13 name bytes plus a NUL for a long-name fragment. */
  type NameBytes = s: seq<byte> | 12 <= |s| witness [0, 0, 0, 0, 0, 0, 0, 0, 0, 0, 0, 0]

  /** struct DirectoryInfo. LongDirOrder is 0 for a short entry; Cluster and Size are 0 for a
      long-name fragment. */
  datatype DirectoryInfo = DirectoryInfo(
    LongDirOrder: byte,
    Name: NameBytes,
    Attribute: byte,
    Cluster: u32,
    Size: u32)

  /** The slot offsets of the 13 name characters of a long-name fragment (the low byte of each
      UTF-16 unit): five at 1..9, six at 14..24 and two at 28 and 30. */
  const LongNameOffsets: seq<nat> := [1, 3, 5, 7, 9, 14, 16, 18, 20, 22, 24, 28, 30]

  /** The copy loops of the long-name branch: characters 0..4 from 1 + 2k, characters 5..10
      from 4 + 2k, then bytes 28 and 30, and a NUL from calloc. */
  function LongName(buffer: seq<byte>, offset: nat): (name: NameBytes)
    requires offset + 0x20 <= |buffer|
    ensures |name| == 14 && name[13] == 0
    ensures forall k :: 0 <= k < 13 ==> name[k] == buffer[offset + LongNameOffsets[k]]
  {
    [buffer[offset + 1], buffer[offset + 3], buffer[offset + 5], buffer[offset + 7], buffer[offset + 9],
     buffer[offset + 14], buffer[offset + 16], buffer[offset + 18], buffer[offset + 20], buffer[offset + 22],
     buffer[offset + 24], buffer[offset + 28], buffer[offset + 30], 0]
  }

  /** The short entry's start cluster: the word at 0x14 shifted left by 16 into a uint32_t,
      plus the word at 0x1A. Neither step leaves 32 bits. */
  function StartCluster(high: u16, low: u16): (cluster: u32)
    ensures cluster == high * 0x1_0000 + low
  {
    var temp: u32 := high as int * 0x1_0000;
    temp + low
  }

  /** getDirectoryItem: the attribute byte at 0x0B selects the layout; every slot decodes and
      nothing is validated. */
  function GetDirectoryItem(buffer: seq<byte>, offset: nat): (item: DirectoryInfo)
    requires offset + 0x20 <= |buffer|
    ensures item.Attribute == buffer[offset + 0x0B]
  {
    var attribute := buffer[offset + 0x0B];
    if attribute == AttrLongName then
      DirectoryInfo(buffer[offset], LongName(buffer, offset), attribute, 0, 0)
    else
      var cluster := StartCluster(Word(buffer, offset + 0x14), Word(buffer, offset + 0x1A));
      DirectoryInfo(0, buffer[offset..offset + 11] + [0], attribute, cluster, DoubleWord(buffer, offset + 0x1C))
  }

  /** The two slot layouts getDirectoryItem decodes. A long-name fragment keeps the order byte
      and the 13 name characters followed by a NUL, with cluster and size 0; a short entry has
      order 0 and keeps the 11 raw name bytes followed by a NUL, the size at 0x1C and the start
      cluster whose high half is at 0x14 and low half at 0x1A. */
  lemma GetDirectoryItemLayout(buffer: seq<byte>, offset: nat)
    requires offset + 0x20 <= |buffer|
    ensures var item := GetDirectoryItem(buffer, offset);
            buffer[offset + 0x0B] == AttrLongName ==>
              && item.LongDirOrder == buffer[offset]
              && |item.Name| == 14 && item.Name[13] == 0
              && (forall k :: 0 <= k < 13 ==> item.Name[k] == buffer[offset + LongNameOffsets[k]])
              && item.Cluster == 0 && item.Size == 0
    ensures var item := GetDirectoryItem(buffer, offset);
            buffer[offset + 0x0B] != AttrLongName ==>
              && item.LongDirOrder == 0
              && item.Name == buffer[offset..offset + 11] + [0]
              && item.Size == DoubleWord(buffer, offset + 0x1C)
              && item.Cluster == Word(buffer, offset + 0x14) * 0x1_0000 + Word(buffer, offset + 0x1A)
  {
  }

  // ---------------------------------------------------------------------------
  // Encoders: the slot layouts written out, to state what decoding recovers

  /** A short-entry slot: `name` in bytes 0..10, the attribute at 0x0B, the cluster halves at
      0x14 and 0x1A, the size at 0x1C; the other bytes (times, dates, flags) come from `filler`. */
  function ShortSlot(filler: seq<byte>, name: seq<byte>, attribute: byte, cluster: u32, size: u32): (slot: seq<byte>)
    requires |filler| == 0x20 && |name| == 11
    ensures |slot| == 0x20
  {
    var named := name + filler[11..];
    var s1 := PutByte(named, 0x0B, attribute);
    var s2 := PutWord(s1, 0x14, cluster / 0x1_0000);
    var s3 := PutWord(s2, 0x1A, cluster % 0x1_0000);
    PutDoubleWord(s3, 0x1C, size)
  }

  /** Decoding a short-entry slot gives back its name (NUL-terminated), attribute, cluster and
      size, whatever the other bytes hold. */
  lemma {:induction false} ShortSlotRoundTrip(filler: seq<byte>, name: seq<byte>, attribute: byte, cluster: u32, size: u32)
    requires |filler| == 0x20 && |name| == 11 && attribute != AttrLongName
    ensures GetDirectoryItem(ShortSlot(filler, name, attribute, cluster, size), 0)
            == DirectoryInfo(0, name + [0], attribute, cluster, size)
  {
    var named := name + filler[11..];
    var s1 := PutByte(named, 0x0B, attribute);
    var s2 := PutWord(s1, 0x14, cluster / 0x1_0000);
    var s3 := PutWord(s2, 0x1A, cluster % 0x1_0000);
    var s4 := PutDoubleWord(s3, 0x1C, size);
    WordRoundTrip(s1, 0x14, cluster / 0x1_0000);
    WordRoundTrip(s2, 0x1A, cluster % 0x1_0000);
    DoubleWordRoundTrip(s3, 0x1C, size);
    assert Word(s4, 0x14) == Word(s2, 0x14);
    assert Word(s4, 0x1A) == Word(s3, 0x1A);
    assert s4[0x0B] == attribute;
    assert s4[..11] == name;
    var item := GetDirectoryItem(s4, 0);
    GetDirectoryItemLayout(s4, 0);
    assert item.Name == name + [0];
    assert item.Cluster == cluster;
  }

  /** The name character a long-name slot holds at byte `i`, or -1 for a byte outside the three
      name ranges. */
  function LongNameIndex(i: nat): int
  {
    if 1 <= i <= 9 && i % 2 == 1 then (i - 1) / 2
    else if 14 <= i <= 24 && i % 2 == 0 then (i - 4) / 2
    else if i == 28 then 11
    else if i == 30 then 12
    else -1
  }

  /** A long-name slot: the order byte at 0, the attribute 0x0F at 0x0B, the 13 characters at
      their offsets; the other bytes (checksum, type, high bytes of the UTF-16 units) come from
      `filler`. */
  function LongSlot(filler: seq<byte>, order: byte, chars: seq<byte>): (slot: seq<byte>)
    requires |filler| == 0x20 && |chars| == 13
    ensures |slot| == 0x20
  {
    seq(0x20, i requires 0 <= i < 0x20 =>
          if i == 0 then order
          else if i == 0x0B then AttrLongName
          else if 0 <= LongNameIndex(i) < 13 then chars[LongNameIndex(i)]
          else filler[i])
  }

  /** Decoding a long-name slot gives back its order byte and its 13 characters followed by a NUL. */
  lemma {:induction false} LongSlotRoundTrip(filler: seq<byte>, order: byte, chars: seq<byte>)
    requires |filler| == 0x20 && |chars| == 13
    ensures GetDirectoryItem(LongSlot(filler, order, chars), 0)
            == DirectoryInfo(order, chars + [0], AttrLongName, 0, 0)
  {
    var slot := LongSlot(filler, order, chars);
    var item := GetDirectoryItem(slot, 0);
    GetDirectoryItemLayout(slot, 0);
    forall k | 0 <= k < 13
      ensures item.Name[k] == chars[k]
    {
      assert LongNameIndex(LongNameOffsets[k]) == k;
    }
    assert item.Name == chars + [0];
  }
}
