/** The recursive walk that prints the directory tree (showDepth, walkDirectory): long-name
    fragments are gathered until the entry they name, the volume label, directories and files
    each give one line, and every directory is walked one level deeper. The printed output is
    modelled as a sequence of lines; the ANSI colour codes around names and sizes are dropped. */
module DirectoryWalk {
  import opened LittleEndian
  import opened BootSector
  import opened DirEntry
  import opened DirListing

  const Nul: byte := 0x00
  const Space: byte := 0x20
  const Dot: byte := 0x2E

  // ---------------------------------------------------------------------------
  // Strings as the C code reads them

  /** The longest prefix of `s` that does not contain `stop`: what a copy loop that halts at
      `stop`, or at the end of the buffer, takes. */
  function Until(s: seq<byte>, stop: byte): (r: seq<byte>)
    ensures |r| <= |s|
  {
    if s == [] || s[0] == stop then [] else [s[0]] + Until(s[1..], stop)
  }

  /** What Until takes is a prefix of `s` free of `stop`, and it ends at `stop` or at the end. */
  lemma {:induction false} UntilShape(s: seq<byte>, stop: byte)
    ensures var r := Until(s, stop);
            r == s[..|r|] && stop !in r && (|r| < |s| ==> s[|r|] == stop)
  {
    if s != [] && s[0] != stop {
      var rest := Until(s[1..], stop);
      UntilShape(s[1..], stop);
      assert Until(s, stop) == [s[0]] + rest;
      assert s[..1 + |rest|] == [s[0]] + s[1..][..|rest|];
    }
  }

  /** Any prefix free of `stop` that ends at `stop` or at the end of `s` is the one Until takes. */
  lemma {:induction false} UntilAt(s: seq<byte>, stop: byte, i: nat)
    requires i <= |s|
    requires forall j :: 0 <= j < i ==> s[j] != stop
    requires i == |s| || s[i] == stop
    ensures Until(s, stop) == s[..i]
    decreases i
  {
    if i > 0 {
      UntilAt(s[1..], stop, i - 1);
      assert s[..i] == [s[0]] + s[1..][..i - 1];
    }
  }

  /** The string a NUL-terminated buffer holds, as strlen, strcpy and printf's %s see it. */
  function CString(buffer: seq<byte>): (r: seq<byte>)
    ensures |r| <= |buffer|
  {
    Until(buffer, Nul)
  }

  /** A string without NUL is its own C string. */
  lemma CStringOfString(s: seq<byte>)
    requires Nul !in s
    ensures CString(s) == s
  {
    UntilAt(s, Nul, |s|);
  }

  // ---------------------------------------------------------------------------
  // The pieces of one output line

  /** The spaces showDepth prints before the branch mark: four per level. */
  function Margin(depth: nat): string
  {
    if depth == 0 then "" else Margin(depth - 1) + "    "
  }

  /** What showDepth prints before a name: the margin, then the branch mark. */
  function Indent(depth: nat): string
  {
    Margin(depth) + "├── "
  }

  /** The margin is 4 * depth spaces. */
  lemma {:induction false} MarginShape(depth: nat)
    ensures |Margin(depth)| == 4 * depth
    ensures forall i :: 0 <= i < 4 * depth ==> Margin(depth)[i] == ' '
  {
    if depth > 0 {
      MarginShape(depth - 1);
    }
  }

  /** One level deeper is four more spaces in front. */
  lemma {:induction false} IndentDeeper(depth: nat)
    ensures Indent(depth + 1) == "    " + Indent(depth)
  {
    MarginSwap(depth);
    assert (Margin(depth) + "    ") + "├── " == ("    " + Margin(depth)) + "├── ";
  }

  lemma {:induction false} MarginSwap(depth: nat)
    ensures Margin(depth) + "    " == "    " + Margin(depth)
  {
    if depth > 0 {
      MarginSwap(depth - 1);
      assert Margin(depth - 1) + "    " + "    " == "    " + Margin(depth - 1) + "    ";
    }
  }

  /** showDepth: a loop printing four spaces `depth` times, then the branch mark. */
  method ShowDepth(depth: nat) returns (s: string)
    ensures s == Indent(depth)
    ensures |s| == 4 * depth + 4 && s[4 * depth..] == "├── "
  {
    s := [];
    var count := 0;
    while count < depth
      invariant count <= depth
      invariant s == Margin(count)
    {
      s := s + "    ";
      count := count + 1;
    }
    MarginShape(depth);
    s := s + "├── ";
  }

  /** The file-name fallback for a short entry without a long name: up to eight base characters,
      stopping at the first space, a dot, then up to three extension characters, stopping at
      the first space. NUL bytes are printed like any other byte. */
  function ShortName(name: seq<byte>): seq<byte>
    requires 11 <= |name|
  {
    Until(name[..8], Space) + [Dot] + Until(name[8..11], Space)
  }

  /** The two putchar loops of the file branch: bytes 0..7 up to the first space, a dot, then
      bytes 8..10 up to the first space. */
  method PrintShortName(name: seq<byte>) returns (out: seq<byte>)
    requires 11 <= |name|
    ensures out == ShortName(name)
  {
    var base := name[..8];
    var i := 0;
    while i < 8
      invariant i <= 8
      invariant forall j :: 0 <= j < i ==> base[j] != Space
    {
      if base[i] == Space {
        break;
      }
      i := i + 1;
    }
    UntilAt(base, Space, i);
    out := base[..i] + [Dot];
    var extension := name[8..11];
    i := 8;
    while i < 11
      invariant 8 <= i <= 11
      invariant forall j :: 0 <= j < i - 8 ==> extension[j] != Space
    {
      if extension[i - 8] == Space {
        break;
      }
      i := i + 1;
    }
    UntilAt(extension, Space, i - 8);
    out := out + extension[..i - 8];
  }

  /** The 8.3 fallback of a name padded with spaces: "README  TXT" prints as README.TXT. The name
      is a parameter fixed by the precondition rather than a literal argument, so that the
      verifier reasons from UntilAt instead of evaluating Until on the literal step by step. */
  lemma ShortNameReadme(name: seq<byte>)
    requires name == [0x52, 0x45, 0x41, 0x44, 0x4D, 0x45, 0x20, 0x20, 0x54, 0x58, 0x54, 0x00]
    ensures ShortName(name) == [0x52, 0x45, 0x41, 0x44, 0x4D, 0x45, 0x2E, 0x54, 0x58, 0x54]
  {
    var base, extension := name[..8], name[8..11];
    UntilAt(base, Space, 6);
    UntilAt(extension, Space, 3);
    assert base[..6] == name[..6] == [0x52, 0x45, 0x41, 0x44, 0x4D, 0x45];
    assert extension[..3] == extension == [name[8], name[9], name[10]] == [0x54, 0x58, 0x54];
    assert base[..6] + [Dot] + extension[..3] == [0x52, 0x45, 0x41, 0x44, 0x4D, 0x45, 0x2E, 0x54, 0x58, 0x54];
  }


  /** What %d prints for a uint32_t size: the same 32 bits read as a signed int. */
  function Int32(value: u32): (r: int)
    ensures -0x8000_0000 <= r < 0x8000_0000
    ensures (r - value) % TWO32 == 0
    ensures value < 0x8000_0000 ==> r == value
  {
    if value < 0x8000_0000 then value else value - TWO32
  }

  /** Binary digit `k` of `value`: halve `k` times, then take the last digit. */
  predicate Bit(value: nat, k: nat)
    decreases k
  {
    if k == 0 then value % 2 == 1 else Bit(value / 2, k - 1)
  }

  /** The attribute bits walkDirectory tests: volume label (0x08), directory (0x10) and
      archive, that is a file (0x20). */
  predicate VolumeBit(attribute: byte)
  {
    Bit(attribute, 3)
  }

  predicate DirectoryBit(attribute: byte)
  {
    Bit(attribute, 4)
  }

  predicate FileBit(attribute: byte)
  {
    Bit(attribute, 5)
  }

  /** Bits 3, 4 and 5 of a value are its digits in base 2 at 8, 16 and 32. */
  lemma BitDigits(value: nat)
    ensures Bit(value, 3) <==> (value / 8) % 2 == 1
    ensures Bit(value, 4) <==> (value / 16) % 2 == 1
    ensures Bit(value, 5) <==> (value / 32) % 2 == 1
  {
    var h1 := value / 2;
    var h2 := h1 / 2;
    var h3 := h2 / 2;
    var h4 := h3 / 2;
    var h5 := h4 / 2;
    assert h2 == value / 4;
    assert h3 == value / 8;
    assert h4 == value / 16;
    assert h5 == value / 32;
    assert Bit(value, 3) == Bit(h1, 2) == Bit(h3, 0);
    assert Bit(value, 4) == Bit(h2, 2) == Bit(h4, 0);
    assert Bit(value, 5) == Bit(h2, 3) == Bit(h4, 1) == Bit(h5, 0);
  }

  /** Each bit test is the C test `attribute & mask` for its mask. */
  lemma AttributeBits(attribute: byte)
    ensures VolumeBit(attribute) <==> (attribute as bv8) & 0x08 != 0
    ensures DirectoryBit(attribute) <==> (attribute as bv8) & 0x10 != 0
    ensures FileBit(attribute) <==> (attribute as bv8) & 0x20 != 0
  {
    BitDigits(attribute);
  }

  // ---------------------------------------------------------------------------
  // Gathering a long name

  /** isLongName and tempName: either no long name is pending, or the fragments seen so far
      have been joined into `name`. */
  datatype Pending = NoLongName | LongName(name: seq<byte>)

  function PendingOf(isLongName: bool, tempName: seq<byte>): Pending
  {
    if isLongName then LongName(tempName) else NoLongName
  }

  /** A long-name fragment is put in front of the name gathered so far: fragments are stored
      last part first, so the name reads in order once the run ends. */
  function Gather(pending: Pending, fragment: seq<byte>): (next: Pending)
    ensures next.LongName?
  {
    match pending
    case NoLongName => LongName(CString(fragment))
    case LongName(name) => LongName(CString(fragment) + CString(name))
  }

  /** The two copy loops that join a fragment in front of tempName. */
  method JoinFragment(fragment: seq<byte>, tempName: seq<byte>) returns (newName: seq<byte>)
    ensures newName == CString(fragment) + CString(tempName)
  {
    newName := [];
    var i := 0;
    while i < |fragment| && fragment[i] != Nul
      invariant i <= |fragment| && newName == fragment[..i]
      invariant forall j :: 0 <= j < i ==> fragment[j] != Nul
    {
      newName := newName + [fragment[i]];
      i := i + 1;
    }
    UntilAt(fragment, Nul, i);
    var head := newName;
    i := 0;
    while i < |tempName| && tempName[i] != Nul
      invariant i <= |tempName| && newName == head + tempName[..i]
      invariant forall j :: 0 <= j < i ==> tempName[j] != Nul
    {
      newName := newName + [tempName[i]];
      i := i + 1;
    }
    UntilAt(tempName, Nul, i);
  }

  /** The names of a run of fragments joined last first: the fragment in the first slot is the
      last part of the name, as the slots store a long name from its end backwards. */
  function Reassembled(fragments: seq<DirectoryInfo>): seq<byte>
    decreases |fragments|
  {
    if fragments == [] then [] else Reassembled(fragments[1..]) + CString(fragments[0].Name)
  }

  // ---------------------------------------------------------------------------
  // The walk

  /** One printed line. */
  datatype Line =
    | VolumeId(text: seq<byte>)
    | DirectoryLine(indent: string, name: seq<byte>)
    | FileLine(indent: string, name: seq<byte>, size: int)

  /** The lines printed and how the walk ended. */
  datatype Trace = Trace(lines: seq<Line>, halt: Halt)

  function Then(prefix: seq<Line>, rest: Trace): Trace
  {
    Trace(prefix + rest.lines, rest.halt)
  }

  lemma ThenAppend(a: seq<Line>, b: seq<Line>, rest: Trace)
    ensures Then(a + b, rest) == Then(a, Then(b, rest))
  {
    assert (a + b) + rest.lines == a + (b + rest.lines);
  }

  /** The first entry of a subdirectory: the "." entry, whose name starts with a dot and a space. */
  predicate IsDotEntry(item: DirectoryInfo)
  {
    item.Name[0] == Dot && item.Name[1] == Space
  }

  /** walkDirectory as a function: the listing of the directory at `cluster`, the "." and ".."
      entries skipped when the first entry is ".", then every entry in turn. `fuel` bounds the
      depth of the recursion and the clusters followed in each chain. */
  function Walk(input: seq<byte>, fat32: FileAllocationTable32, cluster: u32, depth: nat, fuel: nat): Trace
    requires WellFormed(fat32)
    decreases fuel, 1
  {
    match ChainListing(input, fat32, cluster, fuel)
    case Stuck(halt) => Trace([], halt)
    case Listing(list) =>
      if list == [] then Trace([], InvalidAccess)
      else
        var start := if IsDotEntry(list[0]) then 2 else 0;
        if |list| < start then Trace([], InvalidAccess)
        else Entries(input, fat32, list, start, NoLongName, depth, fuel)
  }

  /** The while loop of walkDirectory from entry `i` on, with the long name pending so far. The
      attribute is tested for 0x0F first, then for the bits 0x08, 0x10 and 0x20 in that order;
      an entry with none of them prints nothing and leaves the pending name alone. */
  function Entries(input: seq<byte>, fat32: FileAllocationTable32, list: seq<DirectoryInfo>, i: nat,
                   pending: Pending, depth: nat, fuel: nat): Trace
    requires WellFormed(fat32) && i <= |list|
    decreases fuel, 0, |list| - i, 1
  {
    if i == |list| then Trace([], Returned)
    else
      var item := list[i];
      if item.Attribute == AttrLongName then
        Entries(input, fat32, list, i + 1, Gather(pending, item.Name), depth, fuel)
      else if VolumeBit(item.Attribute) then
        Then([VolumeId(CString(item.Name))], Entries(input, fat32, list, i + 1, NoLongName, depth, fuel))
      else if DirectoryBit(item.Attribute) then
        Subdirectory(input, fat32, list, i, pending, depth, fuel)
      else if FileBit(item.Attribute) then
        var name := if pending.LongName? then pending.name else ShortName(item.Name);
        var line := FileLine(Indent(depth), name, Int32(item.Size));
        Then([line], Entries(input, fat32, list, i + 1, NoLongName, depth, fuel))
      else
        Entries(input, fat32, list, i + 1, pending, depth, fuel)
  }

  /** A subdirectory entry `i`: its line, with the pending long name or else its NUL-cut short
      name, then its walk one level deeper; the loop goes on after it only when that walk
      returned. */
  function Subdirectory(input: seq<byte>, fat32: FileAllocationTable32, list: seq<DirectoryInfo>, i: nat,
                        pending: Pending, depth: nat, fuel: nat): Trace
    requires WellFormed(fat32) && i < |list|
    decreases fuel, 0, |list| - i, 0
  {
    var item := list[i];
    var name := if pending.LongName? then pending.name else CString(item.Name);
    var line := DirectoryLine(Indent(depth), name);
    if fuel == 0 then Trace([line], OutOfFuel)
    else
      var sub := Walk(input, fat32, item.Cluster, depth + 1, fuel - 1);
      if sub.halt != Returned then Then([line], sub)
      else Then([line] + sub.lines, Entries(input, fat32, list, i + 1, NoLongName, depth, fuel))
  }

  /** walkDirectory: lists the directory, skips "." and "..", and prints each entry, walking
      into every subdirectory one level deeper before going on. */
  method WalkDirectory(input: seq<byte>, fat32: FileAllocationTable32, cluster: u32, depth: nat, fuel: nat)
    returns (t: Trace)
    requires WellFormed(fat32)
    ensures t == Walk(input, fat32, cluster, depth, fuel)
    decreases fuel, 1
  {
    var raw := GetRawDirectory(input, fat32, cluster, fuel);
    if raw.Stuck? {
      return Trace([], raw.halt);
    }
    var directoryList := raw.entries;
    if directoryList == [] {
      // directoryList[0] is the NULL terminator
      return Trace([], InvalidAccess);
    }
    var count := 0;
    if directoryList[0].Name[0] == Dot && directoryList[0].Name[1] == Space {
      count := 2;
    }
    if |directoryList| < count {
      // directoryList[2] lies past the terminator
      return Trace([], InvalidAccess);
    }
    var isLongName := false;
    var tempName: seq<byte> := [];
    var lines: seq<Line> := [];
    while count < |directoryList|
      invariant count <= |directoryList|
      invariant Then(lines, Entries(input, fat32, directoryList, count, PendingOf(isLongName, tempName), depth, fuel))
                == Walk(input, fat32, cluster, depth, fuel)
      decreases |directoryList| - count
    {
      ghost var pending := PendingOf(isLongName, tempName);
      var printed, stop, halt;
      printed, isLongName, tempName, stop, halt := WalkEntry(input, fat32, directoryList, count, isLongName, tempName, depth, fuel);
      if stop {
        return Trace(lines + printed, halt);
      }
      ThenAppend(lines, printed, Entries(input, fat32, directoryList, count + 1, PendingOf(isLongName, tempName), depth, fuel));
      lines := lines + printed;
      count := count + 1;
    }
    return Trace(lines, Returned);
  }

  /** One pass of walkDirectory's loop: the lines entry `i` prints and the long-name state after
      it; `stop` is set when a subdirectory's walk did not return, with the way it ended. */
  method WalkEntry(input: seq<byte>, fat32: FileAllocationTable32, list: seq<DirectoryInfo>, i: nat,
                   isLongName: bool, tempName: seq<byte>, depth: nat, fuel: nat)
    returns (printed: seq<Line>, nextIsLongName: bool, nextTempName: seq<byte>, stop: bool, halt: Halt)
    requires WellFormed(fat32) && i < |list|
    ensures stop ==> Trace(printed, halt) == Entries(input, fat32, list, i, PendingOf(isLongName, tempName), depth, fuel)
    ensures !stop ==> Then(printed, Entries(input, fat32, list, i + 1, PendingOf(nextIsLongName, nextTempName), depth, fuel))
                      == Entries(input, fat32, list, i, PendingOf(isLongName, tempName), depth, fuel)
    decreases fuel, 0
  {
    var directoryItem := list[i];
    var attribute := directoryItem.Attribute;
    printed, nextIsLongName, nextTempName, stop, halt := [], isLongName, tempName, false, Returned;
    if attribute == AttrLongName {
      if isLongName {
        nextTempName := JoinFragment(directoryItem.Name, tempName);
      } else {
        nextIsLongName := true;
        nextTempName := CString(directoryItem.Name);
      }
    } else if VolumeBit(attribute) {
      printed := [VolumeId(CString(directoryItem.Name))];
      nextIsLongName := false;
    } else if DirectoryBit(attribute) {
      var indent := ShowDepth(depth);
      var name := if isLongName then tempName else CString(directoryItem.Name);
      nextIsLongName := false;
      printed := [DirectoryLine(indent, name)];
      if fuel == 0 {
        stop, halt := true, OutOfFuel;
        return;
      }
      var sub := WalkDirectory(input, fat32, directoryItem.Cluster, depth + 1, fuel - 1);
      printed := printed + sub.lines;
      if sub.halt != Returned {
        stop, halt := true, sub.halt;
      }
    } else if FileBit(attribute) {
      var indent := ShowDepth(depth);
      var name;
      if isLongName {
        name := tempName;
      } else {
        name := PrintShortName(directoryItem.Name);
      }
      nextIsLongName := false;
      printed := [FileLine(indent, name, Int32(directoryItem.Size))];
    }
  }

  // ---------------------------------------------------------------------------
  // Properties of the walk

  /** The pending name after a run of fragments, one Gather per fragment in slot order. */
  function GatherRun(pending: Pending, fragments: seq<DirectoryInfo>): Pending
    decreases |fragments|
  {
    if fragments == [] then pending else GatherRun(Gather(pending, fragments[0].Name), fragments[1..])
  }

  /** Gathering a run from a pending name puts the run's reassembled name in front of it. */
  lemma {:induction false} GatherRunReassembles(name: seq<byte>, fragments: seq<DirectoryInfo>)
    requires Nul !in name
    ensures GatherRun(LongName(name), fragments) == LongName(Reassembled(fragments) + name)
    decreases |fragments|
  {
    if fragments != [] {
      var first := CString(fragments[0].Name);
      UntilShape(fragments[0].Name, Nul);
      CStringOfString(name);
      GatherRunReassembles(first + name, fragments[1..]);
      assert Reassembled(fragments[1..]) + (first + name) == (Reassembled(fragments[1..]) + first) + name;
    }
  }

  /** A long-name fragment changes nothing but the pending name. */
  lemma LongNameStep(input: seq<byte>, fat32: FileAllocationTable32, list: seq<DirectoryInfo>, k: nat,
                     pending: Pending, depth: nat, fuel: nat)
    requires WellFormed(fat32) && k < |list| && list[k].Attribute == AttrLongName
    ensures Entries(input, fat32, list, k, pending, depth, fuel)
            == Entries(input, fat32, list, k + 1, Gather(pending, list[k].Name), depth, fuel)
  {
  }

  /** A run of long-name fragments prints nothing; it gathers one fragment after the other. */
  lemma {:induction false} LongNameRun(input: seq<byte>, fat32: FileAllocationTable32, list: seq<DirectoryInfo>,
                                       i: nat, j: nat, pending: Pending, depth: nat, fuel: nat)
    requires WellFormed(fat32) && i <= j <= |list|
    requires forall k :: i <= k < j ==> list[k].Attribute == AttrLongName
    ensures Entries(input, fat32, list, i, pending, depth, fuel)
            == Entries(input, fat32, list, j, GatherRun(pending, list[i..j]), depth, fuel)
    decreases j - i
  {
    if i < j {
      var next := Gather(pending, list[i].Name);
      LongNameStep(input, fat32, list, i, pending, depth, fuel);
      LongNameRun(input, fat32, list, i + 1, j, next, depth, fuel);
      assert list[i..j][1..] == list[i + 1..j];
    } else {
      assert list[i..j] == [];
    }
  }

  /** A run of long-name fragments with no name pending before it leaves the fragments' names
      joined in reverse order of their slots, each cut at its first NUL. */
  lemma LongNameReassembly(input: seq<byte>, fat32: FileAllocationTable32, list: seq<DirectoryInfo>,
                           i: nat, j: nat, depth: nat, fuel: nat)
    requires WellFormed(fat32) && i < j <= |list|
    requires forall k :: i <= k < j ==> list[k].Attribute == AttrLongName
    ensures Entries(input, fat32, list, i, NoLongName, depth, fuel)
            == Entries(input, fat32, list, j, LongName(Reassembled(list[i..j])), depth, fuel)
  {
    var run := list[i..j];
    var first := CString(list[i].Name);
    LongNameStep(input, fat32, list, i, NoLongName, depth, fuel);
    LongNameRun(input, fat32, list, i + 1, j, LongName(first), depth, fuel);
    assert run[1..] == list[i + 1..j];
    UntilShape(list[i].Name, Nul);
    GatherRunReassembles(first, run[1..]);
  }

  /** An entry that is no long-name fragment and has none of the volume, directory and file bits
      prints nothing and keeps the pending long name. */
  lemma IgnoredEntry(input: seq<byte>, fat32: FileAllocationTable32, list: seq<DirectoryInfo>, i: nat,
                     pending: Pending, depth: nat, fuel: nat)
    requires WellFormed(fat32) && i < |list|
    requires list[i].Attribute != AttrLongName
    requires !VolumeBit(list[i].Attribute) && !DirectoryBit(list[i].Attribute) && !FileBit(list[i].Attribute)
    ensures Entries(input, fat32, list, i, pending, depth, fuel)
            == Entries(input, fat32, list, i + 1, pending, depth, fuel)
  {
  }

  /** In a subdirectory listing that starts with "." the first two entries print nothing; any
      other non-empty listing is walked from its first entry. */
  lemma DotEntriesSkipped(input: seq<byte>, fat32: FileAllocationTable32, cluster: u32, depth: nat, fuel: nat)
    requires WellFormed(fat32)
    requires ChainListing(input, fat32, cluster, fuel).Listing?
    requires ChainListing(input, fat32, cluster, fuel).entries != []
    ensures var list := ChainListing(input, fat32, cluster, fuel).entries;
            IsDotEntry(list[0]) && 2 <= |list| ==>
              Walk(input, fat32, cluster, depth, fuel) == Entries(input, fat32, list, 2, NoLongName, depth, fuel)
    ensures var list := ChainListing(input, fat32, cluster, fuel).entries;
            IsDotEntry(list[0]) && |list| < 2 ==>
              Walk(input, fat32, cluster, depth, fuel) == Trace([], InvalidAccess)
    ensures var list := ChainListing(input, fat32, cluster, fuel).entries;
            !IsDotEntry(list[0]) ==>
              Walk(input, fat32, cluster, depth, fuel) == Entries(input, fat32, list, 0, NoLongName, depth, fuel)
  {
  }

  /** Fuel only cuts a walk short: a walk that did not run out of fuel prints the same lines and
      ends the same way with any larger bound. */
  lemma {:induction false} WalkFuel(input: seq<byte>, fat32: FileAllocationTable32, cluster: u32, depth: nat,
                                    fuel: nat, more: nat)
    requires WellFormed(fat32) && fuel <= more
    requires Walk(input, fat32, cluster, depth, fuel).halt != OutOfFuel
    ensures Walk(input, fat32, cluster, depth, more) == Walk(input, fat32, cluster, depth, fuel)
    decreases fuel, 1, 0, 0
  {
    var scan := ChainListing(input, fat32, cluster, fuel);
    assert scan != Stuck(OutOfFuel);
    ChainListingFuel(input, fat32, cluster, fuel, more);
    if scan.Listing? && scan.entries != [] {
      var start := if IsDotEntry(scan.entries[0]) then 2 else 0;
      if start <= |scan.entries| {
        EntriesFuel(input, fat32, scan.entries, start, NoLongName, depth, fuel, more);
      }
    }
  }

  /** The same for the loop over the entries from `i` on. */
  lemma {:induction false} EntriesFuel(input: seq<byte>, fat32: FileAllocationTable32, list: seq<DirectoryInfo>, i: nat,
                                       pending: Pending, depth: nat, fuel: nat, more: nat)
    requires WellFormed(fat32) && i <= |list| && fuel <= more
    requires Entries(input, fat32, list, i, pending, depth, fuel).halt != OutOfFuel
    ensures Entries(input, fat32, list, i, pending, depth, more) == Entries(input, fat32, list, i, pending, depth, fuel)
    decreases fuel, 0, |list| - i, 1
  {
    if i < |list| {
      var item := list[i];
      if item.Attribute == AttrLongName {
        EntriesFuel(input, fat32, list, i + 1, Gather(pending, item.Name), depth, fuel, more);
      } else if VolumeBit(item.Attribute) {
        EntriesFuel(input, fat32, list, i + 1, NoLongName, depth, fuel, more);
      } else if DirectoryBit(item.Attribute) {
        SubdirectoryFuel(input, fat32, list, i, pending, depth, fuel, more);
      } else if FileBit(item.Attribute) {
        EntriesFuel(input, fat32, list, i + 1, NoLongName, depth, fuel, more);
      } else {
        EntriesFuel(input, fat32, list, i + 1, pending, depth, fuel, more);
      }
    }
  }

  /** The same for a subdirectory entry: its walk, one level deeper, and the entries after it. */
  lemma {:induction false} SubdirectoryFuel(input: seq<byte>, fat32: FileAllocationTable32, list: seq<DirectoryInfo>,
                                            i: nat, pending: Pending, depth: nat, fuel: nat, more: nat)
    requires WellFormed(fat32) && i < |list| && fuel <= more
    requires Subdirectory(input, fat32, list, i, pending, depth, fuel).halt != OutOfFuel
    ensures Subdirectory(input, fat32, list, i, pending, depth, more) == Subdirectory(input, fat32, list, i, pending, depth, fuel)
    decreases fuel, 0, |list| - i, 0
  {
    var cluster := list[i].Cluster;
    SubdirectoryHalt(input, fat32, list, i, pending, depth, fuel);
    WalkFuel(input, fat32, cluster, depth + 1, fuel - 1, more - 1);
    if Walk(input, fat32, cluster, depth + 1, fuel - 1).halt == Returned {
      EntriesFuel(input, fat32, list, i + 1, NoLongName, depth, fuel, more);
    }
    SubdirectoryCongruence(input, fat32, list, i, pending, depth, fuel, more);
  }

  /** A subdirectory entry that did not run out of fuel had fuel for its walk, that walk did not
      run out, and neither did the entries after it when the walk returned. */
  lemma SubdirectoryHalt(input: seq<byte>, fat32: FileAllocationTable32, list: seq<DirectoryInfo>,
                         i: nat, pending: Pending, depth: nat, fuel: nat)
    requires WellFormed(fat32) && i < |list|
    requires Subdirectory(input, fat32, list, i, pending, depth, fuel).halt != OutOfFuel
    ensures 0 < fuel
    ensures var sub := Walk(input, fat32, list[i].Cluster, depth + 1, fuel - 1);
            && sub.halt != OutOfFuel
            && (sub.halt == Returned ==> Entries(input, fat32, list, i + 1, NoLongName, depth, fuel).halt != OutOfFuel)
  {
  }

  /** Two bounds give the same subdirectory entry when they give the same walk and, after a walk
      that returned, the same entries after it. */
  lemma SubdirectoryCongruence(input: seq<byte>, fat32: FileAllocationTable32, list: seq<DirectoryInfo>,
                               i: nat, pending: Pending, depth: nat, fuel: nat, more: nat)
    requires WellFormed(fat32) && i < |list| && 0 < fuel && 0 < more
    requires Walk(input, fat32, list[i].Cluster, depth + 1, more - 1) == Walk(input, fat32, list[i].Cluster, depth + 1, fuel - 1)
    requires Walk(input, fat32, list[i].Cluster, depth + 1, fuel - 1).halt == Returned ==>
               Entries(input, fat32, list, i + 1, NoLongName, depth, more)
               == Entries(input, fat32, list, i + 1, NoLongName, depth, fuel)
    ensures Subdirectory(input, fat32, list, i, pending, depth, more) == Subdirectory(input, fat32, list, i, pending, depth, fuel)
  {
  }

}
