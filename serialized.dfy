/** The serialized file stored in each non-resource node of a bundle, and the export loop
    that cuts every node out of the bundle and decodes it. */
module SerializedFile {
  import opened Wire
  import opened Results
  import opened Reader
  import opened Objects
  import opened TypeTrees
  import opened Bundle

  /** The fixed header: four big-endian u32 fields, and the byte order of everything after
      the header. */
  datatype Header = Header(metadataSize: U32, fileSize: U32, format: U32, dataOffset: U32, little: bool)

  /** One entry of the additional-objects table. */
  datatype AddEntry = AddEntry(addId: I64, unk: I32)

  /** What a serialized file's header and tables decode to. `numRefs` is the external
      reference count, present from format 6 on; no reference entry is read. */
  datatype SerializedFile = SerializedFile(
    header: Header,
    metadata: TypeMetadata,
    isLongObjectIds: bool,
    objects: seq<ObjectInfo>,
    adds: seq<AddEntry>,
    numRefs: Option<U32>)

  // ---------------------------------------------------------------------------------------
  // Header

  /** The byte order marker is read from format 9 on; only a zero marker selects
      little-endian. */
  function HeaderAt(data: seq<Byte>, pos: nat): (o: Outcome<Header>)
    ensures o.Parsed? ==> o.value.little ==> o.value.format >= 9
    ensures o.Parsed? ==> o.pos == pos + (if o.value.format >= 9 then 20 else 16)
  {
    var metadataSize :- U32At(data, pos, false);
    var fileSize :- U32At(data, metadataSize.pos, false);
    var format :- U32At(data, fileSize.pos, false);
    var dataOffset :- U32At(data, format.pos, false);
    if format.value >= 9 then
      var endianness :- U32At(data, dataOffset.pos, false);
      Parsed(Header(metadataSize.value, fileSize.value, format.value, dataOffset.value, endianness.value == 0),
             endianness.pos)
    else
      Parsed(Header(metadataSize.value, fileSize.value, format.value, dataOffset.value, false), dataOffset.pos)
  }

  /** Every header field is big-endian at its fixed offset, and the marker, when there is
      one, directly follows them. */
  lemma HeaderLayout(data: seq<Byte>, pos: nat)
    ensures var h := HeaderAt(data, pos);
      && (pos + 16 <= |data| ==>
            var format := Unsigned(data[pos + 8..pos + 12], false);
            && (h.Parsed? <==> format < 9 || pos + 20 <= |data|)
            && (h.Parsed? ==>
                  && h.value.metadataSize == Unsigned(data[pos..pos + 4], false)
                  && h.value.fileSize == Unsigned(data[pos + 4..pos + 8], false)
                  && h.value.format == format
                  && h.value.dataOffset == Unsigned(data[pos + 12..pos + 16], false)
                  && h.value.little == (format >= 9 && Unsigned(data[pos + 16..pos + 20], false) == 0)))
      && (pos + 16 > |data| ==> h.Failed?)
  {
  }

  // ---------------------------------------------------------------------------------------
  // Object table

  /** The long-object-ids flag is read only from format 7 to 13, as a u32 in the file's byte
      order, and is set by any nonzero value. */
  function LongIdsAt(data: seq<Byte>, pos: nat, format: U32, little: bool): (o: Outcome<bool>)
    ensures !(7 <= format <= 13) ==> o == Parsed(false, pos)
    ensures 7 <= format <= 13 ==>
      && (o.Parsed? <==> pos + 4 <= |data|)
      && (o.Parsed? ==> o.pos == pos + 4 && o.value == (Unsigned(data[pos..pos + 4], little) > 0))
  {
    if 7 <= format <= 13 then
      var flag :- U32At(data, pos, little);
      Parsed(flag.value > 0, flag.pos)
    else Parsed(false, pos)
  }

  /** Decode `k` object records, appending them to `acc`. */
  function ObjectsAt(data: seq<Byte>, pos: nat, k: nat, format: U32, isLongObjectIds: bool, little: bool,
                     acc: seq<ObjectInfo>): (o: Outcome<seq<ObjectInfo>>)
    decreases k
    ensures o.Parsed? ==> |o.value| == |acc| + k && o.value[..|acc|] == acc
    ensures o.Failed? ==> o.error in {Eof, UnexpectedEof}
  {
    if k == 0 then Parsed(acc, pos)
    else
      var obj :- ObjectInfoAt(data, pos, format, isLongObjectIds, little);
      var o := ObjectsAt(data, obj.pos, k - 1, format, isLongObjectIds, little, acc + [obj.value]);
      if o.Parsed? then
        PrefixOfPrefix(o.value, acc + [obj.value], acc);
        o
      else o
  }

  /** The flag, the u32 object count and that many records. */
  function ObjectTableAt(data: seq<Byte>, pos: nat, format: U32, little: bool)
    : (o: Outcome<(bool, seq<ObjectInfo>)>)
  {
    var isLongObjectIds :- LongIdsAt(data, pos, format, little);
    var numObjects :- U32At(data, isLongObjectIds.pos, little);
    var objects :- ObjectsAt(data, numObjects.pos, numObjects.value, format, isLongObjectIds.value, little, []);
    Parsed((isLongObjectIds.value, objects.value), objects.pos)
  }

  /** The flag is the one read first, the table holds exactly as many records as the u32
      count after the flag says, and the first record starts right after the count. */
  lemma ObjectTableCount(data: seq<Byte>, pos: nat, format: U32, little: bool)
    requires ObjectTableAt(data, pos, format, little).Parsed?
    ensures var t := ObjectTableAt(data, pos, format, little).value;
      var l := LongIdsAt(data, pos, format, little);
      && l.Parsed? && t.0 == l.value && l.pos + 4 <= |data|
      && |t.1| == Unsigned(data[l.pos..l.pos + 4], little)
      && (|t.1| > 0 ==> t.1[0] == ObjectInfoAt(data, l.pos + 4, format, l.value, little).value)
  {
    var l := LongIdsAt(data, pos, format, little);
    assert l.Parsed?;
    var n := U32At(data, l.pos, little);
    assert n.Parsed?;
    var objs := ObjectsAt(data, l.pos + 4, n.value, format, l.value, little, []);
    assert ObjectTableAt(data, pos, format, little) == Parsed((l.value, objs.value), objs.pos);
    if n.value > 0 {
      ObjectsFirst(data, l.pos + 4, n.value, format, l.value, little, []);
    }
  }

  /** The first of the records decoded is the one at the start. */
  lemma ObjectsFirst(data: seq<Byte>, pos: nat, k: nat, format: U32, isLongObjectIds: bool, little: bool,
                     acc: seq<ObjectInfo>)
    requires k > 0 && ObjectsAt(data, pos, k, format, isLongObjectIds, little, acc).Parsed?
    ensures ObjectInfoAt(data, pos, format, isLongObjectIds, little).Parsed?
    ensures ObjectsAt(data, pos, k, format, isLongObjectIds, little, acc).value[|acc|]
         == ObjectInfoAt(data, pos, format, isLongObjectIds, little).value
  {
    var obj := ObjectInfoAt(data, pos, format, isLongObjectIds, little);
    var acc' := acc + [obj.value];
    var rest := ObjectsAt(data, obj.pos, k - 1, format, isLongObjectIds, little, acc');
    assert rest.value[..|acc'|][|acc|] == acc'[|acc|];
  }

  /** Decoding `k` records is decoding the first, then `k - 1` more from where it ended. */
  lemma ObjectsStep(data: seq<Byte>, pos: nat, k: nat, format: U32, isLongObjectIds: bool, little: bool,
                    acc: seq<ObjectInfo>, obj: ObjectInfo, next: nat)
    requires k > 0 && ObjectInfoAt(data, pos, format, isLongObjectIds, little) == Parsed(obj, next)
    ensures ObjectsAt(data, pos, k, format, isLongObjectIds, little, acc)
         == ObjectsAt(data, next, k - 1, format, isLongObjectIds, little, acc + [obj])
  {
  }

  // ---------------------------------------------------------------------------------------
  // Additional objects and external references

  /** An additional object: aligned from format 14 on, then an i64 id and an i32. */
  function AddAt(data: seq<Byte>, pos: nat, format: U32, little: bool): (o: Outcome<AddEntry>)
    ensures var p := ObjectStart(data, pos, format);
      && (o.Parsed? <==> p + 12 <= |data|)
      && (o.Parsed? ==> o.pos == p + 12
                        && o.value.addId == AsI64(Unsigned(data[p..p + 8], little))
                        && o.value.unk == AsI32(Unsigned(data[p + 8..p + 12], little)))
  {
    var start := ObjectStart(data, pos, format);
    var addId :- I64At(data, start, little);
    var unk :- I32At(data, addId.pos, little);
    Parsed(AddEntry(addId.value, unk.value), unk.pos)
  }

  function AddsAt(data: seq<Byte>, pos: nat, k: nat, format: U32, little: bool, acc: seq<AddEntry>)
    : (o: Outcome<seq<AddEntry>>)
    decreases k
    ensures o.Parsed? ==> |o.value| == |acc| + k && o.value[..|acc|] == acc
  {
    if k == 0 then Parsed(acc, pos)
    else
      var add :- AddAt(data, pos, format, little);
      var o := AddsAt(data, add.pos, k - 1, format, little, acc + [add.value]);
      if o.Parsed? then
        PrefixOfPrefix(o.value, acc + [add.value], acc);
        o
      else o
  }

  /** The additional-objects table exists from format 11 on: a u32 count and the entries. */
  function AddsTableAt(data: seq<Byte>, pos: nat, format: U32, little: bool): (o: Outcome<seq<AddEntry>>)
    ensures format < 11 ==> o == Parsed([], pos)
    ensures format >= 11 && o.Parsed? ==>
      pos + 4 <= |data| && |o.value| == Unsigned(data[pos..pos + 4], little)
  {
    if format >= 11 then
      var numAdds :- U32At(data, pos, little);
      AddsAt(data, numAdds.pos, numAdds.value, format, little, [])
    else Parsed([], pos)
  }

  /** From format 6 on the external reference count is read, and nothing else: no entry is
      consumed. */
  function RefsAt(data: seq<Byte>, pos: nat, format: U32, little: bool): (o: Outcome<Option<U32>>)
    ensures format < 6 ==> o == Parsed(None, pos)
    ensures format >= 6 ==>
      && (o.Parsed? <==> pos + 4 <= |data|)
      && (o.Parsed? ==> o == Parsed(Some(Unsigned(data[pos..pos + 4], little)), pos + 4))
  {
    if format >= 6 then
      var numRefs :- U32At(data, pos, little);
      Parsed(Some(numRefs.value), numRefs.pos)
    else Parsed(None, pos)
  }

  // ---------------------------------------------------------------------------------------
  // The whole file

  /** Everything after the header, in the byte order the header chose: type metadata,
      object table, additional objects, external reference count and a trailing string
      (at most 256 bytes) that is read and dropped. */
  function TablesAt(data: seq<Byte>, pos: nat, h: Header): (o: Outcome<SerializedFile>)
    ensures o.Parsed? ==> o.value.header == h
  {
    var metadata :- TypeMetadataAt(data, pos, h.format, h.little);
    var table :- ObjectTableAt(data, metadata.pos, h.format, h.little);
    var adds :- AddsTableAt(data, table.pos, h.format, h.little);
    var numRefs :- RefsAt(data, adds.pos, h.format, h.little);
    var trailing :- CStringAt(data, numRefs.pos, 256);
    Parsed(SerializedFile(h, metadata.value, table.value.0, table.value.1, adds.value, numRefs.value),
           trailing.pos)
  }

  function SerializedFileOf(data: seq<Byte>): (res: Result<SerializedFile>)
  {
    var h :- HeaderAt(data, 0).Res();
    TablesAt(data, HeaderAt(data, 0).pos, h).Res()
  }

  /** A decoded file is its header, whose size depends only on the format, followed by its
      tables in the byte order the header chose. */
  lemma SerializedFileTables(data: seq<Byte>)
    requires SerializedFileOf(data).Ok?
    ensures var f := SerializedFileOf(data).value;
      var format := f.header.format;
      && HeaderAt(data, 0) == Parsed(f.header, if format >= 9 then 20 else 16)
      && (f.header.little ==> format >= 9)
      && TablesAt(data, HeaderAt(data, 0).pos, f.header) == Parsed(f, TablesAt(data, HeaderAt(data, 0).pos, f.header).pos)
  {
  }

  /** The tables of a decoded file: the format-dependent tables are empty or absent below
      their formats, and the metadata keeps its per-type hash widths. */
  lemma TablesByFormat(data: seq<Byte>, pos: nat, h: Header)
    requires TablesAt(data, pos, h).Parsed?
    ensures var f := TablesAt(data, pos, h).value;
      var format := h.format;
      && (!(7 <= format <= 13) ==> !f.isLongObjectIds)
      && (format < 11 ==> f.adds == [])
      && (format < 6 <==> f.numRefs.None?)
      && HashWidthsAgree(f.metadata.hashes)
      && (format < 13 ==> f.metadata.hashes == [] && f.metadata.typeTrees == [])
  {
    var md := TypeMetadataAt(data, pos, h.format, h.little);
    assert md.Parsed?;
    var tb := ObjectTableAt(data, md.pos, h.format, h.little);
    assert tb.Parsed?;
    var ad := AddsTableAt(data, tb.pos, h.format, h.little);
    assert ad.Parsed?;
    var rf := RefsAt(data, ad.pos, h.format, h.little);
    assert rf.Parsed?;
    var tr := CStringAt(data, rf.pos, 256);
    assert TablesAt(data, pos, h)
        == Parsed(SerializedFile(h, md.value, tb.value.0, tb.value.1, ad.value, rf.value), tr.pos);
    ObjectTableCount(data, md.pos, h.format, h.little);
  }

  // ---------------------------------------------------------------------------------------
  // Export

  /** What exporting a node wrote: its name, its bytes, and the decoded serialized file
      unless the node was skipped. */
  datatype Export = Export(name: seq<Byte>, data: seq<Byte>, file: Option<SerializedFile>)

  /** The nodes written, in order, and the error that stopped the loop, if any. */
  datatype ExportLog = ExportLog(written: seq<Export>, failure: Option<Error>)

  /** ".resource" as bytes. */
  const ResourceExt: seq<Byte> := [0x2e, 0x72, 0x65, 0x73, 0x6f, 0x75, 0x72, 0x63, 0x65]

  /** A node is exported without decoding when ".resource" ends with its name (the suffix
      test takes its two arguments the other way round from what its name suggests). */
  predicate Skipped(name: seq<Byte>)
  {
    HasSuffix(ResourceExt, name)
  }

  /** Only the nine suffixes of ".resource" are skipped: the empty name, "e", ..., "resource"
      and ".resource" itself, while a file named like "CAB-1.resource" is decoded. */
  lemma SkippedNames()
    ensures Skipped([]) && Skipped(ResourceExt) && Skipped(ResourceExt[1..])
    ensures !Skipped([0x43, 0x41, 0x42, 0x2d, 0x31] + ResourceExt)
    ensures forall name :: Skipped(name) ==> |name| <= 9
  {
  }

  /** The node's bytes are `[start, start + size)` with `start = nodeStartAt + offset`, both
      sums wrapping as 64-bit integers; a range outside the binary is an error. */
  function NodeSlice(binary: seq<Byte>, nodeStartAt: I64, node: Node): (res: Result<seq<Byte>>)
    ensures var startAt := WrapI64(nodeStartAt + node.offset);
      var endAt := WrapI64(startAt + node.size);
      && (res.Ok? <==> 0 <= startAt <= endAt <= |binary|)
      && (res.Ok? ==> res.value == binary[startAt..endAt])
      && (res.Err? ==> res.error == SliceOutOfRange)
  {
    var startAt := WrapI64(nodeStartAt + node.offset);
    var endAt := WrapI64(startAt + node.size);
    if 0 <= startAt <= endAt <= |binary| then Ok(binary[startAt..endAt]) else Err(SliceOutOfRange)
  }

  /** Export one node: cut it out, refuse bundles that are not UnityFS, and decode it
      unless it is skipped. */
  function ExportNode(b: AssetBundle, node: Node): (res: Result<Export>)
  {
    var data :- NodeSlice(b.binary, b.nodeStartAt, node);
    if b.signature != SignatureUnityFS then Err(NotImplemented)
    else
      var file :- FileUnlessSkipped(node.name, data);
      Ok(Export(node.name, data, file))
  }

  /** A skipped node is not decoded; any other is decoded as a serialized file. */
  function FileUnlessSkipped(name: seq<Byte>, data: seq<Byte>): Result<Option<SerializedFile>>
  {
    if Skipped(name) then Ok(None)
    else
      var file :- SerializedFileOf(data);
      Ok(Some(file))
  }

  /** An exported node keeps its name and exactly its slice of the binary, happens only in
      a UnityFS bundle, carries a decoded file exactly when it is not skipped, and that file
      is what its bytes decode to; a node that cannot be exported fails with the slice error,
      the unsupported-signature error or the decoder's error. */
  lemma ExportNodeShape(b: AssetBundle, node: Node)
    ensures var res := ExportNode(b, node);
      var slice := NodeSlice(b.binary, b.nodeStartAt, node);
      && (res.Ok? ==> res.value.name == node.name && b.signature == SignatureUnityFS)
      && (res.Ok? ==> slice == Ok(res.value.data))
      && (res.Ok? ==> (res.value.file.None? <==> Skipped(node.name)))
      && (res.Ok? && res.value.file.Some? ==> SerializedFileOf(res.value.data) == Ok(res.value.file.value))
      && (res.Err? ==>
            || slice == Err(res.error)
            || (slice.Ok? && b.signature != SignatureUnityFS && res.error == NotImplemented)
            || (slice.Ok? && !Skipped(node.name) && SerializedFileOf(slice.value) == Err(res.error)))
  {
  }

  /** The results of exporting every node, one per node, each computed on its own. */
  function NodeExports(b: AssetBundle): (rs: seq<Result<Export>>)
    ensures |rs| == |b.nodes|
  {
    seq(|b.nodes|, j requires 0 <= j < |b.nodes| => ExportNode(b, b.nodes[j]))
  }

  /** Go through the results from index `i` on, in order, recording each success until the
      first failure. */
  function UntilFailure(rs: seq<Result<Export>>, i: nat): (log: ExportLog)
    requires i <= |rs|
    decreases |rs| - i
    ensures |log.written| <= |rs| - i
    ensures log.failure.None? ==> |log.written| == |rs| - i
  {
    if i == |rs| then ExportLog([], None)
    else if rs[i].Err? then ExportLog([], Some(rs[i].error))
    else
      var rest := UntilFailure(rs, i + 1);
      ExportLog([rs[i].value] + rest.written, rest.failure)
  }

  /** What is recorded is each success in turn, and a failure is the error of the result
      right after the last one recorded. */
  lemma {:induction false} UntilFailureParts(rs: seq<Result<Export>>, i: nat)
    requires i <= |rs|
    decreases |rs| - i
    ensures var log := UntilFailure(rs, i);
      && (forall j :: 0 <= j < |log.written| ==> rs[i + j] == Ok(log.written[j]))
      && (log.failure.Some? ==> i + |log.written| < |rs| && rs[i + |log.written|] == Err(log.failure.value))
  {
    if i < |rs| && rs[i].Ok? {
      UntilFailureParts(rs, i + 1);
      var log, rest := UntilFailure(rs, i), UntilFailure(rs, i + 1);
      assert log.written == [rs[i].value] + rest.written;
      forall j | 0 <= j < |log.written|
        ensures rs[i + j] == Ok(log.written[j])
      {
        if j > 0 {
          assert log.written[j] == rest.written[j - 1];
          assert rs[i + j] == rs[(i + 1) + (j - 1)];
        }
      }
    }
  }

  /** Exporting a bundle: its nodes in order, stopping at the first one that fails. */
  function Exports(b: AssetBundle): ExportLog
  {
    UntilFailure(NodeExports(b), 0)
  }

  /** Every node before the failure, or every node when there is none, is exported as
      `ExportNode` says, and the failure is that of the next node. */
  lemma ExportsInOrder(b: AssetBundle)
    ensures var log := Exports(b);
      && (log.failure.None? ==> |log.written| == |b.nodes|)
      && (forall j :: 0 <= j < |log.written| ==> ExportNode(b, b.nodes[j]) == Ok(log.written[j]))
      && (log.failure.Some? ==>
            |log.written| < |b.nodes| && ExportNode(b, b.nodes[|log.written|]) == Err(log.failure.value))
  {
    var rs := NodeExports(b);
    UntilFailureParts(rs, 0);
    var log := Exports(b);
    forall j | 0 <= j < |log.written|
      ensures ExportNode(b, b.nodes[j]) == Ok(log.written[j])
    {
      assert rs[0 + j] == Ok(log.written[j]);
    }
  }

  lemma ObjectsStop(data: seq<Byte>, pos: nat, k: nat, format: U32, isLongObjectIds: bool, little: bool,
                    acc: seq<ObjectInfo>)
    requires k > 0 && ObjectInfoAt(data, pos, format, isLongObjectIds, little).Failed?
    ensures var e := ObjectInfoAt(data, pos, format, isLongObjectIds, little);
      ObjectsAt(data, pos, k, format, isLongObjectIds, little, acc) == Failed(e.error, e.pos)
  {
  }

  lemma AddsStep(data: seq<Byte>, pos: nat, k: nat, format: U32, little: bool, acc: seq<AddEntry>,
                 add: AddEntry, next: nat)
    requires k > 0 && AddAt(data, pos, format, little) == Parsed(add, next)
    ensures AddsAt(data, pos, k, format, little, acc) == AddsAt(data, next, k - 1, format, little, acc + [add])
  {
  }

  lemma AddsStop(data: seq<Byte>, pos: nat, k: nat, format: U32, little: bool, acc: seq<AddEntry>)
    requires k > 0 && AddAt(data, pos, format, little).Failed?
    ensures var e := AddAt(data, pos, format, little);
      AddsAt(data, pos, k, format, little, acc) == Failed(e.error, e.pos)
  {
  }

  // ---------------------------------------------------------------------------------------
  // Reading through a DataReader

  method ReadHeader(r: DataReader) returns (res: Result<Header>)
    modifies r
    ensures AtPos(res, r.pos) == HeaderAt(r.data, old(r.pos))
  {
    var metadataSize :- r.ReadUint(false);
    var fileSize :- r.ReadUint(false);
    var format :- r.ReadUint(false);
    var dataOffset :- r.ReadUint(false);
    var isLittleEndian := false;
    if format >= 9 {
      var endianness :- r.ReadUint(false);
      if endianness == 0 {
        isLittleEndian := true;
      }
    }
    return Ok(Header(metadataSize, fileSize, format, dataOffset, isLittleEndian));
  }

  method ReadLongIds(r: DataReader, format: U32, little: bool) returns (res: Result<bool>)
    modifies r
    ensures AtPos(res, r.pos) == LongIdsAt(r.data, old(r.pos), format, little)
  {
    var isLongObjectIds := false;
    if 7 <= format <= 13 {
      var longObjectIdsFlag :- r.ReadUint(little);
      if longObjectIdsFlag > 0 {
        isLongObjectIds := true;
      }
    }
    return Ok(isLongObjectIds);
  }

  /** Read `k` object records in order; the record reads are those of `ParseObjectInfo`. */
  method ReadObjects(r: DataReader, k: nat, format: U32, isLongObjectIds: bool, little: bool)
    returns (res: Result<seq<ObjectInfo>>)
    modifies r
    ensures AtPos(res, r.pos) == ObjectsAt(r.data, old(r.pos), k, format, isLongObjectIds, little, [])
  {
    var objects := [];
    var i := 0;
    ghost var whole := ObjectsAt(r.data, r.pos, k - i, format, isLongObjectIds, little, objects);
    while i < k
      invariant i <= k
      invariant whole == ObjectsAt(r.data, r.pos, k - i, format, isLongObjectIds, little, objects)
    {
      ghost var p, left := r.pos, k - i;
      var obj := ParseObjectInfo(r, format, isLongObjectIds, little);
      if obj.Err? {
        ObjectsStop(r.data, p, left, format, isLongObjectIds, little, objects);
        return Err(obj.error);
      }
      ObjectsStep(r.data, p, left, format, isLongObjectIds, little, objects, obj.value, r.pos);
      objects := objects + [obj.value];
      i := i + 1;
    }
    return Ok(objects);
  }

  method ReadObjectTable(r: DataReader, format: U32, little: bool) returns (res: Result<(bool, seq<ObjectInfo>)>)
    modifies r
    ensures AtPos(res, r.pos) == ObjectTableAt(r.data, old(r.pos), format, little)
  {
    var isLongObjectIds :- ReadLongIds(r, format, little);
    var numObjects :- r.ReadUint(little);
    var objects :- ReadObjects(r, numObjects, format, isLongObjectIds, little);
    return Ok((isLongObjectIds, objects));
  }

  method ReadAdd(r: DataReader, format: U32, little: bool) returns (res: Result<AddEntry>)
    modifies r
    ensures AtPos(res, r.pos) == AddAt(r.data, old(r.pos), format, little)
  {
    if format >= 14 {
      r.Align();
    }
    var addId :- r.ReadLong(little);
    var unk :- r.ReadInt(little);
    return Ok(AddEntry(addId, unk));
  }

  method ReadAdds(r: DataReader, k: nat, format: U32, little: bool) returns (res: Result<seq<AddEntry>>)
    modifies r
    ensures AtPos(res, r.pos) == AddsAt(r.data, old(r.pos), k, format, little, [])
  {
    var adds := [];
    var i := 0;
    ghost var whole := AddsAt(r.data, r.pos, k - i, format, little, adds);
    while i < k
      invariant i <= k
      invariant whole == AddsAt(r.data, r.pos, k - i, format, little, adds)
    {
      ghost var p, left := r.pos, k - i;
      var add := ReadAdd(r, format, little);
      if add.Err? {
        AddsStop(r.data, p, left, format, little, adds);
        return Err(add.error);
      }
      AddsStep(r.data, p, left, format, little, adds, add.value, r.pos);
      adds := adds + [add.value];
      i := i + 1;
    }
    return Ok(adds);
  }

  method ReadAddsTable(r: DataReader, format: U32, little: bool) returns (res: Result<seq<AddEntry>>)
    modifies r
    ensures AtPos(res, r.pos) == AddsTableAt(r.data, old(r.pos), format, little)
  {
    if format >= 11 {
      var numAdds :- r.ReadUint(little);
      res := ReadAdds(r, numAdds, format, little);
    } else {
      res := Ok([]);
    }
  }

  method ReadRefs(r: DataReader, format: U32, little: bool) returns (res: Result<Option<U32>>)
    modifies r
    ensures AtPos(res, r.pos) == RefsAt(r.data, old(r.pos), format, little)
  {
    if format >= 6 {
      var numRefs :- r.ReadUint(little);
      res := Ok(Some(numRefs));
    } else {
      res := Ok(None);
    }
  }

  method ReadTables(r: DataReader, h: Header) returns (res: Result<SerializedFile>)
    modifies r
    ensures AtPos(res, r.pos) == TablesAt(r.data, old(r.pos), h)
  {
    var metadata :- ParseTypeMetadata(r, h.format, h.little);
    var table :- ReadObjectTable(r, h.format, h.little);
    var adds :- ReadAddsTable(r, h.format, h.little);
    var numRefs :- ReadRefs(r, h.format, h.little);
    var _ :- r.ReadStringNull(256);
    return Ok(SerializedFile(h, metadata, table.0, table.1, adds, numRefs));
  }

  /** Decode the serialized file held in one node's bytes, through a reader of its own. */
  method ParseSerializedFile(data: seq<Byte>) returns (res: Result<SerializedFile>)
    ensures res == SerializedFileOf(data)
  {
    var r := new DataReader(data);
    var h :- ReadHeader(r);
    var tables := ReadTables(r, h);
    ResOfAtPos(tables, r.pos, TablesAt(data, HeaderAt(data, 0).pos, h));
    res := tables;
  }

  /** Export one node: cut its bytes out of the binary and decode them unless the node is
      skipped; bundles that are not UnityFS are refused. */
  method ExportOne(b: AssetBundle, nodePos: I64, node: Node) returns (res: Result<Export>)
    requires nodePos == b.nodeStartAt
    ensures res == ExportNode(b, node)
  {
    var startAt := WrapI64(nodePos + node.offset);
    var endAt := WrapI64(startAt + node.size);
    if !(0 <= startAt <= endAt <= |b.binary|) {
      res := Err(SliceOutOfRange);
    } else if b.signature == SignatureUnityFS {
      var data := b.binary[startAt..endAt];
      var file := DecodeUnlessSkipped(node.name, data);
      res := if file.Ok? then Ok(Export(node.name, data, file.value)) else Err(file.error);
    } else {
      res := Err(NotImplemented);
    }
  }

  /** Decode the node's bytes unless its name marks it as skipped. */
  method DecodeUnlessSkipped(name: seq<Byte>, data: seq<Byte>) returns (res: Result<Option<SerializedFile>>)
    ensures res == FileUnlessSkipped(name, data)
  {
    if !HasSuffix(ResourceExt, name) {
      var f :- ParseSerializedFile(data);
      return Ok(Some(f));
    }
    return Ok(None);
  }

  /** Export every node of the bundle in order. The first failure ends the loop, with the
      nodes before it already written. */
  method ExportAssets(b: AssetBundle) returns (log: ExportLog)
    ensures log == Exports(b)
  {
    var nodePos := b.nodeStartAt;
    var written := [];
    ghost var rs := NodeExports(b);
    var i := 0;
    while i < |b.nodes|
      invariant i <= |b.nodes|
      invariant UntilFailure(rs, 0) == ExportLog(written + UntilFailure(rs, i).written, UntilFailure(rs, i).failure)
    {
      var x := ExportOne(b, nodePos, b.nodes[i]);
      assert x == rs[i];
      if x.Err? {
        return ExportLog(written, Some(x.error));
      }
      assert written + UntilFailure(rs, i).written == (written + [x.value]) + UntilFailure(rs, i + 1).written;
      written := written + [x.value];
      i := i + 1;
    }
    assert written + [] == written;
    log := ExportLog(written, None);
  }
}
