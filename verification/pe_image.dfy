/** The native-image reader of the error-info builder: it follows the PE/COFF headers
    of a loaded image (the Microsoft PE and COFF Specification, "MS-DOS Stub",
    "COFF File Header", "Optional Header", "Optional Header Data Directories (Image
    Only)" and "The .debug Section") to the CodeView "RSDS" records that name the
    image's PDB file.

    The client copies bytes out of live process memory. Here an image is the byte
    sequence that starts at its base address; a read outside it faults, as the copy
    from unmapped memory does. Offsets are relative to the image base and are
    added to it with IntPtr arithmetic (no 32-bit wrap-around), while the header
    fields themselves are C# `int`s and wrap. */
module PeImage {
  import opened Common

  /** A byte of memory. */
  type Byte = b: int | 0 <= b < 256

  type Image = seq<Byte>

  /** The outcome of reading memory: a fault (the copy raised) or a value. */
  datatype Read<+T> = Fault | Ok(value: T)

  /** RaygunImageDebugInfo: the PDB path bytes (UTF-8, undecoded) and the 16 GUID
      bytes (unformatted). */
  datatype DebugInfo = DebugInfo(pdbFileName: seq<Byte>, guid: seq<Byte>)

  /** RaygunImageInfo */
  datatype ImageInfo = ImageInfo(baseAddress: int, debugInfo: seq<DebugInfo>)

  const SignatureOffsetOffset := 60
  const SignatureSize := 4
  const CoffFileHeaderSize := 20
  const DebugDataDirectoryOffset32 := 144
  const DebugDataDirectoryOffset64 := 160
  const DebugDirectorySize := 28
  const RsdsSignature := 0x53445352
  /** PEMagic.PE32 */
  const PE32Magic := 0x10B
  /** DebugDirectoryEntryType.CodeView */
  const CodeViewType := 2

  // ---------------------------------------------------------------------------
  // Little-endian integers (BitConverter.ToInt16 / ToInt32)

  function Pow256(n: nat): (r: nat)
    ensures r > 0
  {
    if n == 0 then 1 else 256 * Pow256(n - 1)
  }

  /** The unsigned value of little-endian bytes. */
  function LittleEndian(bs: seq<Byte>): (r: nat)
    ensures r < Pow256(|bs|)
  {
    if bs == [] then 0 else bs[0] as nat + 256 * LittleEndian(bs[1..])
  }

  /** `u` reinterpreted as a two's-complement 16-bit number. */
  function Signed16(u: nat): (r: int)
    requires u < 0x1_0000
    ensures -0x8000 <= r < 0x8000 && (r - u) % 0x1_0000 == 0
  {
    if u < 0x8000 then u else u - 0x1_0000
  }

  /** `u` reinterpreted as a two's-complement 32-bit number. */
  function Signed32(u: nat): (r: int)
    requires u < 0x1_0000_0000
    ensures IsInt32(r) && (r - u) % 0x1_0000_0000 == 0
  {
    if u < 0x8000_0000 then u else u - 0x1_0000_0000
  }

  lemma Pow256Values()
    ensures Pow256(2) == 0x1_0000 && Pow256(4) == 0x1_0000_0000
  {
  }

  /** True when the `n` bytes at `off` lie inside the image. */
  predicate InImage(img: Image, off: int, n: nat) {
    0 <= off && off + n <= |img|
  }

  /** The `n` bytes at `off` (Marshal.Copy into an n-byte array). */
  function BytesAt(img: Image, off: int, n: nat): (r: Read<seq<Byte>>)
    ensures r.Ok? <==> InImage(img, off, n)
    ensures r.Ok? ==> |r.value| == n && forall k :: 0 <= k < n ==> r.value[k] == img[off + k]
  {
    if InImage(img, off, n) then Ok(img[off..off + n]) else Fault
  }

  /** CopyInt16: a signed little-endian 16-bit read. */
  function Int16At(img: Image, off: int): (r: Read<int>)
    ensures r.Ok? <==> InImage(img, off, 2)
    ensures r.Ok? ==> -0x8000 <= r.value < 0x8000
    ensures r.Ok? ==> r.value == Signed16(img[off] as int + 256 * img[off + 1] as int)
  {
    if InImage(img, off, 2) then
      Pow256Values();
      var bs := img[off..off + 2];
      assert LittleEndian(bs) == bs[0] + 256 * LittleEndian(bs[1..]);
      assert LittleEndian(bs[1..]) == bs[1] + 256 * LittleEndian(bs[2..]);
      Ok(Signed16(LittleEndian(bs)))
    else Fault
  }

  /** CopyInt32: a signed little-endian 32-bit read. */
  function Int32At(img: Image, off: int): (r: Read<int>)
    ensures r.Ok? <==> InImage(img, off, 4)
    ensures r.Ok? ==> IsInt32(r.value)
  {
    if InImage(img, off, 4) then
      Pow256Values();
      Ok(Signed32(LittleEndian(img[off..off + 4])))
    else Fault
  }

  /** The `n` little-endian bytes of `u`. */
  function EncodeLittleEndian(u: nat, n: nat): (r: seq<Byte>)
    ensures |r| == n
  {
    if n == 0 then [] else [u % 256] + EncodeLittleEndian(u / 256, n - 1)
  }

  /** The four bytes a 32-bit `int` is stored as. */
  function EncodeInt32(x: int): (r: seq<Byte>)
    requires IsInt32(x)
    ensures |r| == 4
  {
    EncodeLittleEndian(x % 0x1_0000_0000, 4)
  }

  /** The two bytes a 16-bit signed integer is stored as. */
  function EncodeInt16(x: int): (r: seq<Byte>)
    requires -0x8000 <= x < 0x8000
    ensures |r| == 2
  {
    EncodeLittleEndian(x % 0x1_0000, 2)
  }

  lemma {:induction false} LittleEndianRoundTrip(u: nat, n: nat)
    requires u < Pow256(n)
    ensures LittleEndian(EncodeLittleEndian(u, n)) == u
    decreases n
  {
    if n > 0 {
      var bs := EncodeLittleEndian(u, n);
      var q, m := u / 256, u % 256;
      assert u == 256 * q + m;
      LittleEndianRoundTrip(q, n - 1);
      assert bs[1..] == EncodeLittleEndian(q, n - 1);
    }
  }

  /** Reading a stored 32-bit integer back gives the integer, wherever it is stored. */
  lemma Int32RoundTrip(pre: seq<Byte>, x: int, post: seq<Byte>)
    requires IsInt32(x)
    ensures Int32At(pre + EncodeInt32(x) + post, |pre|) == Ok(x)
  {
    var img := pre + EncodeInt32(x) + post;
    assert img[|pre|..|pre| + 4] == EncodeInt32(x);
    assert Pow256(4) == 0x1_0000_0000;
    LittleEndianRoundTrip(x % 0x1_0000_0000, 4);
  }

  /** Reading a stored 16-bit integer back gives the integer, wherever it is stored. */
  lemma Int16RoundTrip(pre: seq<Byte>, x: int, post: seq<Byte>)
    requires -0x8000 <= x < 0x8000
    ensures Int16At(pre + EncodeInt16(x) + post, |pre|) == Ok(x)
  {
    var img := pre + EncodeInt16(x) + post;
    assert img[|pre|..|pre| + 2] == EncodeInt16(x);
    assert Pow256(2) == 0x1_0000;
    LittleEndianRoundTrip(x % 0x1_0000, 2);
  }

  // ---------------------------------------------------------------------------
  // The CodeView record (ReadDebugInformation)

  /** The debug information of the CodeView record of `size` bytes at `address`:
      present when it starts with the "RSDS" signature and the name, which excludes
      the 24-byte header and the zero terminator, is not empty. */
  function DebugInformation(img: Image, address: int, size: int): (r: Read<Option<DebugInfo>>)
    ensures r.Ok? && r.value.Some? ==>
      Int32At(img, address) == Ok(RsdsSignature) &&
      NameLength(size) > 0 &&
      InImage(img, address + 4, 16) && InImage(img, address + 24, NameLength(size)) &&
      r.value.value.guid == img[address + 4..address + 20] &&
      r.value.value.pdbFileName == img[address + 24..address + 24 + NameLength(size)]
    ensures Int32At(img, address).Ok? && Int32At(img, address).value != RsdsSignature ==> r == Ok(None)
  {
    match Int32At(img, address)
    case Fault => Fault
    case Ok(signature) =>
      if signature != RsdsSignature then Ok(None)
      else
        match BytesAt(img, address + 4, 16)
        case Fault => Fault
        case Ok(guid) =>
          var nameSize := NameLength(size);
          if nameSize <= 0 then Ok(None)
          else
            match BytesAt(img, address + 24, nameSize)
            case Fault => Fault
            case Ok(name) => Ok(Some(DebugInfo(name, guid)))
  }

  /** The length of the PDB name in a record of `size` bytes: the size less the
      24-byte header, less the zero terminator, each step in 32-bit arithmetic. */
  function NameLength(size: int): int {
    Wrap32(Wrap32(size - 24) - 1)
  }

  /** The bytes of a CodeView record for a GUID, an age and a PDB path. */
  function CodeViewRecord(guid: seq<Byte>, age: int, name: seq<Byte>): seq<Byte>
    requires |guid| == 16 && IsInt32(age)
  {
    EncodeInt32(RsdsSignature) + guid + EncodeInt32(age) + name + [0]
  }

  /** A well-formed record, stored anywhere in the image with its size, reads back as
      its GUID and path. */
  lemma CodeViewRoundTrip(pre: seq<Byte>, guid: seq<Byte>, age: int, name: seq<Byte>, post: seq<Byte>)
    requires |guid| == 16 && IsInt32(age) && 0 < |name| < 0x1000_0000
    ensures DebugInformation(pre + CodeViewRecord(guid, age, name) + post, |pre|,
                             |CodeViewRecord(guid, age, name)|) == Ok(Some(DebugInfo(name, guid)))
  {
    var record := CodeViewRecord(guid, age, name);
    var rest := guid + EncodeInt32(age) + name + [0] + post;
    var img := pre + record + post;
    var a := |pre|;
    assert img == pre + EncodeInt32(RsdsSignature) + rest;
    Int32RoundTrip(pre, RsdsSignature, rest);
    NameSize(|name|);
    assert img[a + 4..a + 20] == guid by {
      assert forall k :: 0 <= k < 16 ==> img[a + 4 + k] == guid[k];
    }
    assert img[a + 24..a + 24 + |name|] == name by {
      assert forall k :: 0 <= k < |name| ==> img[a + 24 + k] == name[k];
    }
  }

  lemma NameSize(n: nat)
    requires 0 < n < 0x1000_0000
    ensures NameLength(25 + n) == n
  {
  }

  // ---------------------------------------------------------------------------
  // Debug directory entries (ReadDebugDirectories)

  /** Entry `i` of the debug directory table at `table`: nothing unless it is a
      CodeView entry, in which case the record it points at is read. */
  function DebugEntry(img: Image, table: int, i: nat): (r: Read<Option<DebugInfo>>)
    ensures r.Ok? && r.value.Some? ==>
      var entry := Wrap32(table + i * DebugDirectorySize);
      Int32At(img, entry + 12) == Ok(CodeViewType) &&
      Int32At(img, entry + 16).Ok? && Int32At(img, entry + 20).Ok? &&
      r == DebugInformation(img, Int32At(img, entry + 20).value, Int32At(img, entry + 16).value)
  {
    var entry := Wrap32(table + i * DebugDirectorySize);
    match Int32At(img, entry + 12)
    case Fault => Fault
    case Ok(entryType) =>
      if entryType != CodeViewType then Ok(None)
      else
        match Int32At(img, entry + 16)
        case Fault => Fault
        case Ok(sizeOfData) =>
          match Int32At(img, entry + 20)
          case Fault => Fault
          case Ok(addressOfRawData) => DebugInformation(img, addressOfRawData, sizeOfData)
  }

  /** The reads of the first `n` entries of the table, in table order. */
  function EntryReads(img: Image, table: int, n: nat): (r: seq<Read<Option<DebugInfo>>>)
    ensures |r| == n && forall i :: 0 <= i < n ==> r[i] == DebugEntry(img, table, i)
  {
    seq(n, i requires 0 <= i => DebugEntry(img, table, i))
  }

  /** The debug infos that a run of entry reads yields, in order; a fault in any of
      them faults the whole run. */
  function InfosOf(entries: seq<Read<Option<DebugInfo>>>): (r: Read<seq<DebugInfo>>)
    ensures r.Ok? ==> |r.value| <= |entries|
    ensures r.Ok? <==> forall i :: 0 <= i < |entries| ==> entries[i].Ok?
  {
    if entries == [] then Ok([])
    else
      var found := InfosOf(entries[..|entries| - 1]);
      var entry := entries[|entries| - 1];
      if found.Fault? || entry.Fault? then Fault
      else if entry.value.None? then found
      else Ok(found.value + [entry.value.value])
  }

  /** The debug infos found in the first `n` entries of the table. */
  function DebugInfosUpTo(img: Image, table: int, n: nat): (r: Read<seq<DebugInfo>>)
    ensures r.Ok? ==> |r.value| <= n
    ensures r.Ok? <==> forall i :: 0 <= i < n ==> DebugEntry(img, table, i).Ok?
  {
    InfosOf(EntryReads(img, table, n))
  }

  /** One more entry read extends the run by its info, if it yields one. */
  lemma InfosOfSnoc(entries: seq<Read<Option<DebugInfo>>>, entry: Read<Option<DebugInfo>>)
    ensures InfosOf(entries + [entry]) ==
      if InfosOf(entries).Fault? || entry.Fault? then Fault
      else if entry.value.None? then InfosOf(entries)
      else Ok(InfosOf(entries).value + [entry.value.value])
  {
    assert (entries + [entry])[..|entries|] == entries;
  }

  /** The positions, in `entries`, of the entries that read and yield debug
      information, in order. */
  function InfoPositions(entries: seq<Read<Option<DebugInfo>>>): (r: seq<nat>)
    ensures forall k :: 0 <= k < |r| ==> r[k] < |entries|
  {
    if entries == [] then []
    else
      var last := |entries| - 1;
      InfoPositions(entries[..last]) + (if entries[last].Ok? && entries[last].value.Some? then [last] else [])
  }

  /** The positions selected are increasing and each yields an info. */
  lemma {:induction false} InfoPositionsSound(entries: seq<Read<Option<DebugInfo>>>)
    ensures forall k :: 0 <= k < |InfoPositions(entries)| ==>
      entries[InfoPositions(entries)[k]].Ok? && entries[InfoPositions(entries)[k]].value.Some?
    ensures forall k, l :: 0 <= k < l < |InfoPositions(entries)| ==>
      InfoPositions(entries)[k] < InfoPositions(entries)[l]
  {
    if entries != [] {
      var last := |entries| - 1;
      var init := entries[..last];
      InfoPositionsSound(init);
      var before := InfoPositions(init);
      if entries[last].Ok? && entries[last].value.Some? {
        var r := before + [last];
        assert InfoPositions(entries) == r;
        forall k | 0 <= k < |r|
          ensures entries[r[k]].Ok? && entries[r[k]].value.Some?
        {
          if k < |before| {
            assert r[k] == before[k] && entries[r[k]] == init[before[k]];
          }
        }
        forall k, l | 0 <= k < l < |r|
          ensures r[k] < r[l]
        {
          assert r[k] == before[k];
          if l < |before| {
            assert r[l] == before[l];
          }
        }
      } else {
        assert InfoPositions(entries) == before;
        forall k | 0 <= k < |before|
          ensures entries[before[k]] == init[before[k]]
        {
        }
      }
    }
  }

  /** Every position whose entry yields an info is selected. */
  lemma {:induction false} InfoPositionsComplete(entries: seq<Read<Option<DebugInfo>>>)
    ensures forall i :: 0 <= i < |entries| && entries[i].Ok? && entries[i].value.Some? ==>
      i in InfoPositions(entries)
  {
    forall i | 0 <= i < |entries| && entries[i].Ok? && entries[i].value.Some?
      ensures i in InfoPositions(entries)
    {
      InfoPositionsHas(entries, i);
    }
  }

  lemma {:induction false} InfoPositionsHas(entries: seq<Read<Option<DebugInfo>>>, i: nat)
    requires i < |entries| && entries[i].Ok? && entries[i].value.Some?
    ensures i in InfoPositions(entries)
    decreases |entries|
  {
    var last := |entries| - 1;
    if i < last {
      assert entries[..last][i] == entries[i];
      InfoPositionsHas(entries[..last], i);
    }
  }

  /** A successful run lists, in order, the infos of exactly the entries that yield
      one: the k-th is that of the k-th such entry. */
  lemma {:induction false} InfosInOrder(entries: seq<Read<Option<DebugInfo>>>)
    ensures InfosOf(entries).Ok? ==>
      |InfosOf(entries).value| == |InfoPositions(entries)| &&
      forall k :: 0 <= k < |InfoPositions(entries)| ==>
        entries[InfoPositions(entries)[k]] == Ok(Some(InfosOf(entries).value[k]))
  {
    if entries != [] && InfosOf(entries).Ok? {
      var last := |entries| - 1;
      var init, e := entries[..last], entries[last];
      InfosInOrder(init);
      var found, before := InfosOf(init).value, InfoPositions(init);
      if e.value.Some? {
        var r, pos := found + [e.value.value], before + [last];
        assert InfosOf(entries).value == r;
        assert InfoPositions(entries) == pos;
        forall k | 0 <= k < |pos|
          ensures entries[pos[k]] == Ok(Some(r[k]))
        {
          if k < |before| {
            assert pos[k] == before[k] && r[k] == found[k] && entries[pos[k]] == init[before[k]];
          }
        }
      } else {
        assert InfosOf(entries).value == found;
        assert InfoPositions(entries) == before;
        forall k | 0 <= k < |before|
          ensures entries[before[k]] == init[before[k]]
        {
        }
      }
    }
  }

  /** A successful table read lists, in table order, the infos of exactly the
      entries that yield one: the k-th is that of the k-th such entry. */
  lemma DebugInfosInOrder(img: Image, table: int, n: nat)
    ensures DebugInfosUpTo(img, table, n).Ok? ==>
      |DebugInfosUpTo(img, table, n).value| == |InfoPositions(EntryReads(img, table, n))| &&
      forall k :: 0 <= k < |InfoPositions(EntryReads(img, table, n))| ==>
        DebugEntry(img, table, InfoPositions(EntryReads(img, table, n))[k]) ==
          Ok(Some(DebugInfosUpTo(img, table, n).value[k]))
  {
    var entries := EntryReads(img, table, n);
    InfosInOrder(entries);
    InfoPositionsSound(entries);
  }

  /** Every entry that yields an info contributes it to a successful table read. */
  lemma DebugInfosComplete(img: Image, table: int, n: nat)
    ensures DebugInfosUpTo(img, table, n).Ok? ==>
      forall i :: 0 <= i < n && DebugEntry(img, table, i).value.Some? ==>
        DebugEntry(img, table, i).value.value in DebugInfosUpTo(img, table, n).value
  {
    var entries := EntryReads(img, table, n);
    if InfosOf(entries).Ok? {
      var infos := InfosOf(entries).value;
      InfosInOrder(entries);
      InfoPositionsComplete(entries);
      forall i | 0 <= i < n && entries[i].value.Some?
        ensures entries[i].value.value in infos
      {
        var k :| 0 <= k < |InfoPositions(entries)| && InfoPositions(entries)[k] == i;
        assert entries[i] == Ok(Some(infos[k]));
      }
    }
  }

  /** ReadDebugDirectories */
  method ReadDebugDirectories(img: Image, table: int, count: int) returns (r: Read<seq<DebugInfo>>)
    ensures r == DebugInfosUpTo(img, table, if count < 0 then 0 else count)
  {
    var n: nat := if count < 0 then 0 else count;
    var debugInfo: seq<DebugInfo> := [];
    for i := 0 to n
      invariant InfosOf(EntryReads(img, table, i)) == Ok(debugInfo)
    {
      var entry := DebugEntry(img, table, i);
      if entry.Fault? {
        assert EntryReads(img, table, n)[i].Fault?;
        return Fault;
      }
      if entry.value.Some? {
        debugInfo := debugInfo + [entry.value.value];
      }
      assert EntryReads(img, table, i + 1) == EntryReads(img, table, i) + [entry];
      InfosOfSnoc(EntryReads(img, table, i), entry);
    }
    r := Ok(debugInfo);
  }

  // ---------------------------------------------------------------------------
  // The data directory and the headers (ReadDebugDataDirectory, ReadImage)

  /** The debug data directory at `rva`: its table of entries when the virtual
      address is not zero, the entry count being its size divided by the entry size. */
  function DebugDataDirectory(img: Image, rva: int): (r: Read<Option<seq<DebugInfo>>>)
    ensures Int32At(img, rva) == Ok(0) ==> r == Ok(None)
    ensures r.Ok? && r.value.Some? ==>
      Int32At(img, rva).Ok? && Int32At(img, rva).value != 0 && Int32At(img, rva + 4).Ok? &&
      var count := TruncDiv(Int32At(img, rva + 4).value, DebugDirectorySize);
      |r.value.value| <= (if count < 0 then 0 else count)
    // with a non-zero address, the result is the read of that many table entries
    ensures Int32At(img, rva).Ok? && Int32At(img, rva).value != 0 && Int32At(img, rva + 4).Ok? ==>
      var count := TruncDiv(Int32At(img, rva + 4).value, DebugDirectorySize);
      var infos := DebugInfosUpTo(img, Int32At(img, rva).value, if count < 0 then 0 else count);
      (r.Ok? <==> infos.Ok?) && (r.Ok? ==> r.value == Some(infos.value))
    ensures Int32At(img, rva).Fault? ==> r.Fault?
  {
    match Int32At(img, rva)
    case Fault => Fault
    case Ok(virtualAddress) =>
      if virtualAddress == 0 then Ok(None)
      else
        match Int32At(img, rva + 4)
        case Fault => Fault
        case Ok(size) =>
          var count := TruncDiv(size, DebugDirectorySize);
          match DebugInfosUpTo(img, virtualAddress, if count < 0 then 0 else count)
          case Fault => Fault
          case Ok(infos) => Ok(Some(infos))
  }

  /** Where the optional header starts, from the offset stored at 0x3c. */
  function OptionalHeaderOffset(signatureOffset: int): int {
    Wrap32(signatureOffset + SignatureSize + CoffFileHeaderSize)
  }

  /** Where the Debug data directory sits for an optional header of this magic. */
  function DebugDirectoryOffset(optionalHeaderOffset: int, magic: int): (r: int)
    ensures magic == PE32Magic ==> r == Wrap32(optionalHeaderOffset + 144)
    ensures magic != PE32Magic ==> r == Wrap32(optionalHeaderOffset + 160)
  {
    Wrap32(optionalHeaderOffset + (if magic == PE32Magic then DebugDataDirectoryOffset32 else DebugDataDirectoryOffset64))
  }

  /** ReadImage: the image's debug information, present only when the Debug data
      directory lies inside the optional header and at least one CodeView record
      was found. */
  function ImageInfoOf(img: Image, base: int): (r: Read<Option<ImageInfo>>)
    ensures r.Ok? && r.value.Some? ==> r.value.value.baseAddress == base && r.value.value.debugInfo != []
    ensures r.Ok? && r.value.Some? ==>
      Int32At(img, SignatureOffsetOffset).Ok? &&
      var optionalHeader := OptionalHeaderOffset(Int32At(img, SignatureOffsetOffset).value);
      Int16At(img, Int32At(img, SignatureOffsetOffset).value + SignatureSize + 16).Ok? &&
      Int16At(img, optionalHeader).Ok? &&
      var debugDirectory := DebugDirectoryOffset(optionalHeader, Int16At(img, optionalHeader).value);
      debugDirectory < Wrap32(optionalHeader + Int16At(img, Int32At(img, SignatureOffsetOffset).value + SignatureSize + 16).value) &&
      DebugDataDirectory(img, debugDirectory) == Ok(Some(r.value.value.debugInfo))
  {
    match Int32At(img, SignatureOffsetOffset)
    case Fault => Fault
    case Ok(signatureOffset) =>
      match Int16At(img, signatureOffset + SignatureSize + 16)
      case Fault => Fault
      case Ok(sizeOfOptionalHeader) =>
        var optionalHeader := OptionalHeaderOffset(signatureOffset);
        match Int16At(img, optionalHeader)
        case Fault => Fault
        case Ok(magic) =>
          var debugDirectory := DebugDirectoryOffset(optionalHeader, magic);
          if debugDirectory < Wrap32(optionalHeader + sizeOfOptionalHeader) then
            match DebugDataDirectory(img, debugDirectory)
            case Fault => Fault
            case Ok(found) =>
              if found.Some? && |found.value| > 0 then Ok(Some(ImageInfo(base, found.value))) else Ok(None)
          else Ok(None)
  }

  /** ReadDebugDataDirectory */
  method ReadDebugDataDirectory(img: Image, rva: int) returns (r: Read<Option<seq<DebugInfo>>>)
    ensures r == DebugDataDirectory(img, rva)
  {
    var virtualAddress := Int32At(img, rva);
    if virtualAddress.Fault? {
      return Fault;
    }
    if virtualAddress.value == 0 {
      return Ok(None);
    }
    var size := Int32At(img, rva + 4);
    if size.Fault? {
      return Fault;
    }
    var infos := ReadDebugDirectories(img, virtualAddress.value, TruncDiv(size.value, DebugDirectorySize));
    r := if infos.Fault? then Fault else Ok(Some(infos.value));
  }

  /** ReadImage */
  method ReadImage(img: Image, base: int) returns (r: Read<Option<ImageInfo>>)
    ensures r == ImageInfoOf(img, base)
  {
    var signatureOffset := Int32At(img, SignatureOffsetOffset);
    if signatureOffset.Fault? {
      return Fault;
    }
    var sizeOfOptionalHeader := Int16At(img, signatureOffset.value + SignatureSize + 16);
    if sizeOfOptionalHeader.Fault? {
      return Fault;
    }
    var optionalHeader := OptionalHeaderOffset(signatureOffset.value);
    var magic := Int16At(img, optionalHeader);
    if magic.Fault? {
      return Fault;
    }
    var debugDirectory := DebugDirectoryOffset(optionalHeader, magic.value);
    if debugDirectory < Wrap32(optionalHeader + sizeOfOptionalHeader.value) {
      var found := ReadDebugDataDirectory(img, debugDirectory);
      if found.Fault? {
        return Fault;
      }
      if found.value.Some? && |found.value.value| > 0 {
        return Ok(Some(ImageInfo(base, found.value.value)));
      }
    }
    r := Ok(None);
  }

  // ---------------------------------------------------------------------------
  // A whole image read back

  /** `n` zero bytes. */
  function Zeros(n: nat): (r: seq<Byte>)
    ensures |r| == n
  {
    seq(n, _ => 0)
  }

  /** A 32-bit field whose bytes are those of `x` reads back as `x`. */
  lemma Int32Field(img: Image, off: int, x: int)
    requires IsInt32(x) && InImage(img, off, 4) && img[off..off + 4] == EncodeInt32(x)
    ensures Int32At(img, off) == Ok(x)
  {
    assert img == img[..off] + EncodeInt32(x) + img[off + 4..];
    Int32RoundTrip(img[..off], x, img[off + 4..]);
  }

  /** A 16-bit field whose bytes are those of `x` reads back as `x`. */
  lemma Int16Field(img: Image, off: int, x: int)
    requires -0x8000 <= x < 0x8000 && InImage(img, off, 2) && img[off..off + 2] == EncodeInt16(x)
    ensures Int16At(img, off) == Ok(x)
  {
    assert img == img[..off] + EncodeInt16(x) + img[off + 2..];
    Int16RoundTrip(img[..off], x, img[off + 2..]);
  }

  /** The headers of a PE32 image, 240 bytes: the PE signature at 64, an optional
      header of 224 bytes at 88, and its Debug data directory (at 88 + 144) naming a
      one-entry table at 240. */
  function PE32Headers(): (r: seq<Byte>)
    ensures |r| == 240
  {
    Zeros(60) + EncodeInt32(64) +
    Zeros(20) + EncodeInt16(224) + Zeros(2) +
    EncodeInt16(PE32Magic) + Zeros(142) +
    EncodeInt32(240) + EncodeInt32(DebugDirectorySize)
  }

  /** A debug directory entry of the CodeView type for a record of `size` bytes at
      `address`. */
  function CodeViewEntry(size: int, address: int): (r: seq<Byte>)
    requires IsInt32(size) && IsInt32(address)
    ensures |r| == DebugDirectorySize
  {
    Zeros(12) + EncodeInt32(CodeViewType) + EncodeInt32(size) + EncodeInt32(address) + Zeros(4)
  }

  /** The header fields of an image that starts with PE32Headers. */
  lemma PE32HeadersRead(img: Image)
    requires |img| >= 240 && img[..240] == PE32Headers()
    ensures Int32At(img, SignatureOffsetOffset) == Ok(64)
    ensures Int16At(img, 64 + SignatureSize + 16) == Ok(224)
    ensures Int16At(img, 88) == Ok(PE32Magic)
    ensures Int32At(img, 232) == Ok(240) && Int32At(img, 236) == Ok(DebugDirectorySize)
  {
    var h := PE32Headers();
    assert h[60..64] == EncodeInt32(64);
    assert img[60..64] == h[60..64];
    Int32Field(img, 60, 64);
    assert h[84..86] == EncodeInt16(224);
    assert img[84..86] == h[84..86];
    Int16Field(img, 84, 224);
    assert h[88..90] == EncodeInt16(PE32Magic);
    assert img[88..90] == h[88..90];
    Int16Field(img, 88, PE32Magic);
    assert h[232..236] == EncodeInt32(240);
    assert img[232..236] == h[232..236];
    Int32Field(img, 232, 240);
    assert h[236..240] == EncodeInt32(DebugDirectorySize);
    assert img[236..240] == h[236..240];
    Int32Field(img, 236, DebugDirectorySize);
  }

  /** The entry of a table at 240 that starts with a CodeView entry. */
  lemma CodeViewEntryRead(img: Image, size: int, address: int)
    requires IsInt32(size) && IsInt32(address)
    requires |img| >= 268 && img[240..268] == CodeViewEntry(size, address)
    ensures DebugEntry(img, 240, 0) == DebugInformation(img, address, size)
  {
    var z, t, n, a := Zeros(12), EncodeInt32(CodeViewType), EncodeInt32(size), EncodeInt32(address);
    FieldOf(img, 240, z, t, n + a + Zeros(4));
    Int32Field(img, 252, CodeViewType);
    FieldOf(img, 240, z + t, n, a + Zeros(4));
    Int32Field(img, 256, size);
    FieldOf(img, 240, z + t + n, a, Zeros(4));
    Int32Field(img, 260, address);
  }

  /** The bytes of the middle part of a run of bytes `p + m + q` laid at `off`. */
  lemma FieldOf(img: Image, off: nat, p: seq<Byte>, m: seq<Byte>, q: seq<Byte>)
    requires off + |p| + |m| + |q| <= |img| && img[off..off + |p| + |m| + |q|] == p + m + q
    ensures img[off + |p|..off + |p| + |m|] == m
  {
    forall k | 0 <= k < |m|
      ensures img[off + |p| + k] == m[k]
    {
      assert img[off + |p| + k] == img[off..off + |p| + |m| + |q|][|p| + k];
    }
  }

  /** A PE32 image whose one debug entry is a CodeView entry for the record that
      follows the table. */
  function PE32ImageWith(record: seq<Byte>): seq<Byte>
    requires IsInt32(|record|)
  {
    PE32Headers() + CodeViewEntry(|record|, 268) + record
  }

  /** ReadImage finds the PDB name and GUID of such an image, whatever follows it. */
  lemma ImageInfoRoundTrip(guid: seq<Byte>, age: int, name: seq<Byte>, post: seq<Byte>, base: int)
    requires |guid| == 16 && IsInt32(age) && 0 < |name| < 0x1000_0000
    ensures ImageInfoOf(PE32ImageWith(CodeViewRecord(guid, age, name)) + post, base) ==
      Ok(Some(ImageInfo(base, [DebugInfo(name, guid)])))
  {
    var record := CodeViewRecord(guid, age, name);
    var pre := PE32Headers() + CodeViewEntry(|record|, 268);
    var img := PE32ImageWith(record) + post;
    ImageLayout(PE32Headers(), CodeViewEntry(|record|, 268), record, post);
    PE32HeadersRead(img);
    CodeViewEntryRead(img, |record|, 268);
    CodeViewRoundTrip(pre, guid, age, name, post);
    OneEntryTable(img, DebugInfo(name, guid));
    OneEntryDirectory(img, [DebugInfo(name, guid)]);
    PE32DirectoryRead(img, base, [DebugInfo(name, guid)]);
  }

  /** Where the parts of headers, entry, record and what follows lie. */
  lemma ImageLayout(headers: seq<Byte>, entry: seq<Byte>, record: seq<Byte>, post: seq<Byte>)
    requires |headers| == 240 && |entry| == DebugDirectorySize
    ensures (headers + entry + record + post)[..240] == headers
    ensures (headers + entry + record + post)[240..268] == entry
    ensures headers + entry + record + post == (headers + entry) + record + post
  {
    var img := headers + entry + record + post;
    assert img[..240] == headers;
    assert img[240..268] == entry;
  }

  lemma OneEntryTable(img: Image, info: DebugInfo)
    requires DebugEntry(img, 240, 0) == Ok(Some(info))
    ensures DebugInfosUpTo(img, 240, 1) == Ok([info])
  {
    assert DebugInfosUpTo(img, 240, 0) == Ok([]);
    assert [] + [info] == [info];
  }

  lemma OneEntryDirectory(img: Image, infos: seq<DebugInfo>)
    requires Int32At(img, 232) == Ok(240) && Int32At(img, 236) == Ok(DebugDirectorySize)
    requires DebugInfosUpTo(img, 240, 1) == Ok(infos)
    ensures DebugDataDirectory(img, 232) == Ok(Some(infos))
  {
    assert TruncDiv(DebugDirectorySize, DebugDirectorySize) == 1;
  }

  lemma PE32DirectoryRead(img: Image, base: int, infos: seq<DebugInfo>)
    requires Int32At(img, SignatureOffsetOffset) == Ok(64)
    requires Int16At(img, 64 + SignatureSize + 16) == Ok(224)
    requires Int16At(img, 88) == Ok(PE32Magic)
    requires DebugDataDirectory(img, 232) == Ok(Some(infos)) && infos != []
    ensures ImageInfoOf(img, base) == Ok(Some(ImageInfo(base, infos)))
  {
    assert OptionalHeaderOffset(64) == 88;
    assert DebugDirectoryOffset(88, PE32Magic) == 232;
  }
}
