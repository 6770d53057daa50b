# A verified model of the FAT32 directory-tree walker

`main.c` opens a FAT32 volume image and prints its directory tree. Its steps:

1. It reads six fields of the boot sector (DBR). From them it derives the layout (FAT32): where the first FAT, the second FAT and the root directory start, and how large a cluster is.
2. Starting from the root directory, cluster 2, it builds each directory's listing:
   - It decodes every 32-byte slot of each cluster.
   - It stops at the end-of-directory slot and skips deleted slots.
   - It follows the FAT chain from cluster to cluster.
3. It prints the listing entry by entry:
   - Long-name fragments are gathered until the entry they name.
   - The volume label, directories and files print one line each: directories in blue, file sizes in green.
   - Every directory is walked one level deeper.

The model is split into modules that follow the program's layers:

- `LittleEndian` (`little_endian.dfy`): the byte, word and double-word readers, over a buffer and over the image. It also defines the unsigned 32-bit arithmetic the layout uses.
- `BootSector` (`boot_sector.dfy`):
  - `initDBR` and `initFAT32` as functions on values;
  - the cluster-to-offset mapping of `getCluster`.
- `DirEntry` (`dir_entry.dfy`): `getDirectoryItem`. It decodes a slot as a long-name fragment (attribute 0x0F) or a short 8.3 entry. Encoders for both slot layouts state what decoding recovers.
- `DirListing` (`dir_listing.dfy`):
  - `getCluster` and `getNextCluster`;
  - `getRawDirectory`, as a method over an `array<byte>` cluster buffer, proved equal to the function `ChainListing`.
- `DirectoryWalk` (`directory_walk.dfy`): `showDepth` and `walkDirectory`. They are methods with their loops, proved equal to the functions `Indent` and `Walk`/`Entries`. The printed output is a sequence of `Line` values together with how the walk ended (`Trace`).
- `Session` (`session.dfy`): the globals `DBR` and `FAT32` as the fields of the class `Volume`, with `initDBR`, `initFAT32` and `main` as its methods.

The image is a byte sequence. Every file read in the program seeks from the start of the image first, so a read depends only on the image and the offset.

Where the C program never returns, the model returns a `Halt` value instead. There are two such cases:
- a FAT value of 0 or 1 makes `getRawDirectory` loop forever (`Hangs`). Each pass runs the for loop again over the same buffer without growing the list, so it appends the same kept entries again, past the end of the array once it is full: a heap overflow. Only a cluster that kept nothing spins without writing. `Hangs` stands for all of this;
- for an empty listing, `walkDirectory` dereferences `directoryList[0]`, which is the NULL terminator; for a "." entry in a listing of one entry it reads `directoryList[2]`, past the end of the array (`InvalidAccess`).

Two more `Halt` values mark where the model stops and the C program does not:
- A FAT entry lies past the end of the image (`PastImage`). The C program reads EOF bytes there and goes on (see "Left out").
- A `fuel` bound stands in for chains and directory nesting that never end (`OutOfFuel`).

## Model

| member | source | states |
|---|---|---|
| LittleEndian.Byte | main.c:69-75 | getByte returns the byte at the offset |
| LittleEndian.Word | main.c:78-85 | getWord is the little-endian value b0 + 256·b1; no step of the uint16_t accumulation wraps |
| LittleEndian.DoubleWord | main.c:88-97 | getDoubleWord is b0 + 2^8·b1 + 2^16·b2 + 2^24·b3; no step of the uint32_t accumulation wraps |
| LittleEndian.ByteFromFile | main.c:38-44 | getByteFromFile reads the same byte as getByte on the image |
| LittleEndian.WordFromFile | main.c:47-54 | getWordFromFile reads the same value as getWord on the image |
| LittleEndian.DoubleWordFromFile | main.c:57-66 | getDoubleWordFromFile reads the same value as getDoubleWord on the image |
| LittleEndian.ByteRoundTrip | main.c:69-75 | writing a byte and reading it back gives the byte; writing back what was read changes nothing |
| LittleEndian.WordRoundTrip | main.c:78-85 | getWord inverts the 16-bit little-endian writer, in both directions |
| LittleEndian.DoubleWordRoundTrip | main.c:88-97 | getDoubleWord inverts the 32-bit little-endian writer, in both directions |
| LittleEndian.Mul32Value | main.c:114-116 | a product as initFAT32 computes it, in unsigned 32-bit arithmetic, is the exact product reduced modulo 2^32. The uint16_t product at line 114 is an `int` product in C; see "Left out" |
| BootSector.InitDBR | main.c:100-109 | the six fields are the little-endian values at offsets 11, 13, 14, 16, 32 and 36 |
| BootSector.InitDBRRoundTrip | main.c:100-109 | a boot sector written with the six fields reads back as the same record: the fields occupy disjoint bytes |
| BootSector.InitFAT32 | main.c:112-119 | FAT1 = BytesPerSector·ReservedSectorCount mod 2^32; FAT2 and the root each lie one FAT size further, mod 2^32; BytesPerCluster = SectorPerCluster·BytesPerSector < 2^24; DirItemPerCluster = BytesPerCluster / 32 |
| BootSector.ClusterSize | main.c:117 | the cluster size is the exact product and stays below 2^24, so it never wraps |
| BootSector.InitFAT32Exact | main.c:114-116 | when the root lies below 4 GiB, the three offsets are the unwrapped sector counts times the sector size |
| BootSector.InitFAT32IgnoresCounts | main.c:112-119 | FATsCount and TotalSectorCount do not affect the layout: two FAT copies are always assumed |
| BootSector.ClusterOffset | main.c:126 | cluster 2 lies at the root directory offset |
| BootSector.ClusterOffsetFormula | main.c:126 | cluster n lies at (Root + BytesPerCluster·(n − 2)) mod 2^32, with n − 2 wrapping for n < 2 |
| BootSector.ClusterOffsetExact | main.c:126 | without wrap-around, cluster n lies exactly at Root + BytesPerCluster·(n − 2) |
| BootSector.ClusterOffsetStep | main.c:126 | consecutive clusters lie BytesPerCluster bytes apart, mod 2^32 |
| DirEntry.LongName | main.c:162-173 | a fragment's name is 14 bytes: the 13 characters at slot offsets 1,3,5,7,9,14,16,…,24,28,30, then NUL |
| DirEntry.StartCluster | main.c:184-186 | the start cluster is the word at 0x14 times 2^16 plus the word at 0x1A |
| DirEntry.GetDirectoryItem | main.c:151-195 | the attribute is the byte at 0x0B of the slot |
| DirEntry.GetDirectoryItemLayout | main.c:151-195 | a fragment (attribute 0x0F) keeps its order byte and the 13 name characters, with cluster and size 0; a short entry has order 0, the 11 raw name bytes plus NUL, the size at 0x1C and the two cluster halves |
| DirEntry.ShortSlotRoundTrip | main.c:178-193 | decoding a short slot gives back its name, attribute, cluster and size, whatever its other bytes hold |
| DirEntry.LongSlotRoundTrip | main.c:158-177 | decoding a long-name slot gives back its order byte and its 13 characters followed by NUL |
| DirListing.ImageBytesAt | main.c:122-131 | each byte of a cluster is the image byte at the same distance from the cluster's offset, or 0 past the end of the image |
| DirListing.ClusterBytes | main.c:122-131 | a cluster buffer is BytesPerCluster bytes long |
| DirListing.GetCluster | main.c:122-131 | getCluster returns a new zeroed buffer of BytesPerCluster bytes, filled with the image bytes from the cluster's offset as far as the image goes |
| DirListing.FatEntryOffset | main.c:200 | the FAT entry of cluster c lies at (FAT1Offset + 4c) mod 2^32, exactly FAT1Offset + 4c when that does not wrap |
| DirListing.NextCluster | main.c:198-201 | getNextCluster is the 32-bit little-endian FAT entry, unmasked, read at the wrapped offset (FAT1Offset + 4·cluster) mod 2^32; that offset is FAT1Offset + 4·cluster when it does not wrap |
| DirListing.Classify | main.c:240-264 | each of the five FAT-value cases holds exactly on its range: ≥ 0xF8 end of chain, 0xF7 bad, [0xF0, 0xF7) reserved, [2, 0xF0) the next cluster, 0 and 1 no branch at all |
| DirListing.ScanCluster | main.c:214-231 | the for loop over one cluster buffer gives exactly the scan ScanSlots specifies: the entries kept and whether the terminator was met |
| DirListing.ScanSlotsFilter | main.c:214-231 | one cluster's scan keeps exactly the slots before the first terminator (order 0 and first name byte NUL) that are not deleted (0xE5), in order; it reports the end exactly when the buffer holds a terminator |
| DirListing.ScanSlotsClean | main.c:214-231 | a scan never keeps a terminator or a deleted slot |
| DirListing.ReadCluster | main.c:207-231 | reading a cluster with getCluster (line 207 for the first cluster, line 260 for the later ones) and running the for loop over its buffer gives exactly the scan of that cluster |
| DirListing.ChainPass | main.c:213-263 | one pass of the while loop: a terminator or an end-of-chain, bad or reserved FAT value ends the listing with this cluster's entries. A FAT value of 0 or 1 hangs and a FAT entry past the image ends it as PastImage. An allocated value passes this cluster's entries on in front of the listing from the next cluster |
| DirListing.GetRawDirectory | main.c:204-270 | the listing is the clusters' scans concatenated along the FAT chain. A terminator ends it, and so does an end-of-chain, bad or reserved FAT value; a FAT value of 0 or 1 never ends |
| DirListing.ChainListingClean | main.c:204-270 | no listing contains a terminator or a deleted slot |
| DirListing.ChainListingFuel | main.c:212-264 | the step bound only decides whether a listing is found, never what it contains |
| DirectoryWalk.UntilShape | main.c:311-319 | a copy loop that stops at a byte takes a prefix free of that byte, ending at it or at the end of the buffer |
| DirectoryWalk.UntilAt | main.c:360-376 | conversely, any such prefix is the one the loop takes |
| DirectoryWalk.CStringOfString | main.c:326-328 | copying a string without NUL up to its NUL copies all of it |
| DirectoryWalk.MarginShape | main.c:273-280 | the margin in front of an entry at depth d is exactly 4·d spaces |
| DirectoryWalk.ShowDepth | main.c:273-280 | showDepth prints 4·depth spaces, then "├── " |
| DirectoryWalk.IndentDeeper | main.c:273-280 | one level deeper is four more spaces in front |
| DirectoryWalk.PrintShortName | main.c:360-376 | the two putchar loops print ShortName: the name bytes 0..7 up to the first space, '.', then bytes 8..10 up to the first space |
| DirectoryWalk.ShortNameReadme | main.c:360-376 | "README  TXT" prints as README.TXT |
| DirectoryWalk.Int32 | main.c:378 | %d shows the uint32_t size as the signed 32-bit value with the same bits: the size itself below 2^31 |
| DirectoryWalk.AttributeBits | main.c:332-350 | the three bit tests VolumeBit, DirectoryBit and FileBit agree with `attribute & 0x08`, `attribute & 0x10` and `attribute & 0x20` |
| DirectoryWalk.JoinFragment | main.c:304-321 | a later fragment's name, cut at NUL, goes in front of tempName, cut at NUL |
| DirectoryWalk.LongNameStep | main.c:301-330 | a long-name fragment prints nothing and only changes the pending name |
| DirectoryWalk.LongNameRun | main.c:301-330 | a run of fragments prints nothing and gathers them one after the other |
| DirectoryWalk.GatherRunReassembles | main.c:304-321 | gathering a run in front of a pending name puts the run's names, joined from the last slot to the first, in front of it |
| DirectoryWalk.LongNameReassembly | main.c:301-330 | fragments f1…fk in slot order leave fk…f1 joined, each cut at its first NUL, as the pending name |
| DirectoryWalk.WalkEntry | main.c:299-379 | one pass of the loop prints what Entries says for that entry and moves to the state Entries continues with. Tests in order: == 0x0F, & 0x08, & 0x10, & 0x20. A directory prints its line and then its whole subtree |
| DirectoryWalk.WalkDirectory | main.c:283-381 | walkDirectory prints exactly Walk: the listing, "." and ".." skipped when the first entry's name starts with ". ", then every entry in turn |
| DirectoryWalk.IgnoredEntry | main.c:297-380 | an entry with none of the bits 0x08, 0x10, 0x20 (and not 0x0F) prints nothing and keeps the pending long name |
| DirectoryWalk.DotEntriesSkipped | main.c:292-295 | in a listing that starts with ". " the first two entries print nothing, and a one-entry such listing is an invalid access; any other non-empty listing is walked from entry 0 |
| DirectoryWalk.WalkFuel | main.c:283-381 | a walk that did not run out of fuel prints the same lines and ends the same way with any larger bound |
| DirectoryWalk.EntriesFuel | main.c:297-380 | the same for the loop over the entries |
| DirectoryWalk.SubdirectoryFuel | main.c:337-349 | the same for a subdirectory entry: its line, its subtree and the entries after it |
| Session.Volume.constructor | main.c:7-25 | the globals DBR and FAT32 start zeroed |
| Session.Volume.InitDBR | main.c:100-109 | the field-by-field reads leave DBR equal to BootSector.InitDBR of the image and FAT32 unchanged |
| Session.Volume.InitFAT32 | main.c:112-119 | the field-by-field assignments leave FAT32 equal to BootSector.InitFAT32 of DBR and DBR unchanged |
| Session.Volume.Run | main.c:383-392 | main fills in DBR and FAT32 and then prints Walk of the root directory, cluster 2, at depth 0 |

## Left out

- Opening the image: `fopen` of the hard-coded path in `main` is not modelled. `Session.Volume.Run` takes the image's bytes.
- Reads past the end of the image: `fgetc` returning EOF is not modelled.
  - `BootSector.InitDBR` requires an image of at least 40 bytes.
  - A FAT entry outside the image: see DirListing.ChainPass below.
  - A cluster read that runs past the end is filled with zeros, as `calloc` leaves it.
- Output formatting:
  - the ANSI colour codes around directory names and sizes are dropped;
  - "Volume ID: ", the two spaces and " Bytes" are dropped: each line is a `Line` value;
  - the decimal digits `%d` prints are not modelled: a file line holds the signed integer `DirectoryWalk.Int32` gives.
- `printBuffer`: it is never called.
- Memory handling: `malloc`/`calloc`/`realloc`/`free` are implicit in the sequence values, and leaks are not modelled.
- DirListing.GetRawDirectory: the loop reads each cluster at the top of the pass. The source reads the first one before the loop and the next one in the allocated branch. The two differ only on a FAT value of 0 or 1, where the source loops forever without reading; that path is `Hangs` here.
- DirListing.Classify: the FAT value is tested unmasked against 0xF0, 0xF7 and 0xF8, exactly as the code does. So an allocated cluster numbered 0xF0 or above ends the chain, although FAT32 places the end-of-chain marks at 0x0FFFFFF8 and above.
- DirectoryWalk.WalkDirectory, DirListing.GetRawDirectory: `fuel` bounds both the clusters followed in one chain and the depth of the recursion. A FAT cycle or a directory that contains itself yields `OutOfFuel` instead of running forever. `DirectoryWalk.WalkFuel` shows that any result short of `OutOfFuel` does not depend on the bound.
- DirListing.ChainPass, DirListing.GetRawDirectory: a FAT entry outside the image ends the whole walk with `PastImage`. The C program reads EOF (-1) there instead. Its `fgetc(input) << 8` and following shifts of -1 are undefined behaviour. With gcc and clang the sum is 0xFE000000 or more, so the end-of-chain branch is taken and the walk goes on with the entries found so far. The model does not follow that undefined path.
- BootSector.InitFAT32: FAT1Offset is `BytesPerSector * ReservedSectorCount`, two `uint16_t` values that C promotes to `int`. A product of 2^31 or more (0xFFFF · 0xFFFF, for example) overflows `int`, which is undefined behaviour. The model takes the unsigned result, the product modulo 2^32.
- LittleEndian.DoubleWord, LittleEndian.DoubleWordFromFile: `buffer[3] << 24` and `fgetc(input) << 24` shift in `int`, which overflows when the byte is 0x80 or more. The model takes the unsigned result, the byte times 2^24.
- DirEntry.StartCluster: `getWord(...) << 16` is computed as the unsigned product. In C the shift happens in `int`, and a high word of 0x8000 or more overflows it.
- UTF-16: the high byte of each long-name character, the fragment checksum and the order byte's last-entry flag are not read by the source, and are not modelled.
- FATsCount: the layout always assumes two FAT copies, as the code does (`BootSector.InitFAT32IgnoresCounts`).
- The empty listing: `directoryList[0]` is the NULL terminator and is dereferenced. This ends the walk with `InvalidAccess`. So does a "." first entry in a listing of one entry, where `directoryList[2]` lies past the array.
