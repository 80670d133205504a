# UnityAssetTools decoder core, modelled in Dafny

This project models how the Go package `unity` of UnityAssetTools decodes Unity asset bundles.
It covers five parts:

- **The byte cursor** (`DataReader`, module `Reader`). It reads fixed-width integers in either
  byte order and strings up to a 0x00 terminator, seeks, and aligns to 4 bytes. It also cuts
  its next bytes into an independent reader. A failed read behaves as in the standard
  in-memory reader:
  - it consumes what was left;
  - it reports plain EOF when nothing was left and unexpected EOF otherwise;
  - reading zero bytes never fails.
- **The UnityFS bundle envelope** (module `Bundle`). This is the signature, the format, engine
  and player versions, the sizes and the flags, and the dispatch on the player version.
  For 5.3.4 players it also reads the uncompressed block and node directory found at the end
  of the declared file.
- **The serialized file in each node** (module `SerializedFile`).
  - It reads the fixed header and its byte-order marker.
  - It then reads the type metadata, the object table, the additional-objects table, the
    external-reference count and a trailing string.
  - The export loop cuts every node out of the bundle and decodes it, stopping at the first
    failure.
- **Type metadata and type trees** (module `TypeTrees`). Type trees come in a flat
  24-byte-record form (format 10 and format 12 or later) and an older recursive form with
  big-endian numbers.
- **The smaller records.** These are object-table entries (`Objects`), asset references
  (`AssetRefs`) and `NewVersionInfo` version strings (`Common`).

Each decoder is stated twice:
- as a pure function of the buffer and the start position, returning an `Outcome`: the value
  and the position after it, or the error and the position the cursor was left at;
- as a method that moves a `DataReader` the way the Go code does, with the same reads, loops
  and recursion.

Every method is proved to agree with its function. The lemmas then state what the functions
promise: layouts, counts, error kinds, round trips, the order of the export loop and the
effect of the format number.

Modules follow the source files:

| module | models | file |
|---|---|---|
| `Wire` | the two byte orders of `encoding/binary`, fixed widths, two's complement, int64 wrap-around | results.dfy, wire.dfy |
| `Reader` | reader.go | reader.dfy |
| `Common` | common.go | common.dfy |
| `Objects` | object.go | objects.dfy |
| `AssetRefs` | assetref.go | assetref.dfy |
| `TypeTrees` | type.go | typetree.dfy |
| `Bundle` | bundle.go:75-263 | bundle.dfy |
| `SerializedFile` | bundle.go:265-479 | serialized.dfy |

A Go `panic` ends the program, so the model turns each one into an error value:
- `panic(ErrNotImplemented)` becomes `NotImplemented`;
- a slice expression out of range becomes `SliceOutOfRange`.

The package's own sentinel errors are constructors of `Results.Error`.

## Model

| member | source | states |
|---|---|---|
| Wire.Unsigned | reader.go:39-47 | the decoded value fits the width read (2, 4 or 8 bytes), whichever byte order the flag selects |
| Wire.LittleEndianIsReversedBigEndian | reader.go:39-47 | reading little-endian is reading the reversed bytes big-endian |
| Wire.UnsignedOfEncode | reader.go:39-47 | decoding the n-byte encoding of a value in either byte order gives the value back |
| Wire.EncodeOfUnsigned | reader.go:39-47 | a decoded value determines its bytes: re-encoding gives the original bytes |
| Wire.WrapI64 | bundle.go:80 | signed 64-bit sums wrap modulo 2^64 and are unchanged when in range |
| Wire.AsU32 | common.go:7 | converting a negative signed value to the unsigned 32-bit class id adds 2^32, and a non-negative one is kept |
| Reader.BytesAt | reader.go:129-136 | reading n bytes succeeds exactly when n is 0 or they all fit; it then returns those bytes and advances by n; otherwise it reports EOF or unexpected EOF and consumes the rest |
| Reader.U8At | reader.go:35-37 | one byte is read when one is left; otherwise plain EOF, position unchanged |
| Reader.I8At | reader.go:50-57 | one byte as a signed value when one is left; otherwise plain EOF |
| Reader.U16At | reader.go:80-87 | two bytes in the chosen byte order, or the short-read error and position |
| Reader.I16At | reader.go:70-77 | two bytes as a signed value, or the short-read error and position |
| Reader.U32At | reader.go:100-107 | four bytes in the chosen byte order, or the short-read error and position |
| Reader.I32At | reader.go:90-97 | four bytes as a signed value, or the short-read error and position |
| Reader.U64At | reader.go:120-127 | eight bytes in the chosen byte order, or the short-read error and position |
| Reader.I64At | reader.go:110-117 | eight bytes as a signed value, or the short-read error and position |
| Reader.CStringAt | reader.go:154-167 | a string read holds no 0x00, is at most the limit long and ends inside the buffer; running out of input is plain EOF at the end of the buffer |
| Reader.CStringAtTerminated | reader.go:154-167 | a string followed by 0x00 within the limit is returned without the terminator, and the cursor stops just after it |
| Reader.CStringAtLimit | reader.go:154-167 | `limit` non-zero bytes are returned as they are, and nothing more is consumed |
| Reader.CStringAtEof | reader.go:154-167 | input ending before a terminator and before the limit is an EOF error |
| Reader.CStringRoundTrip | reader.go:154-167 | a terminated string written anywhere in a buffer reads back as itself |
| Reader.AlignedPos | reader.go:179-190 | alignment moves forward by less than 4 to a multiple of 4 of the consumed count; past the end, the quirk of measuring consumption as length minus bytes left is kept |
| Reader.AlignedPosIsSmallest | reader.go:182 | no multiple of 4 lies between the old position and the aligned one |
| Reader.DataReader.constructor | reader.go:17-23 | a new reader is at position 0 over the given bytes |
| Reader.DataReader.Take | reader.go:129-136 | the fixed-size read primitive agrees with `BytesAt` |
| Reader.DataReader.ReadByte | reader.go:35-37 | agrees with `U8At` |
| Reader.DataReader.ReadChar | reader.go:50-57 | agrees with `I8At` |
| Reader.DataReader.ReadUchar | reader.go:60-67 | agrees with `U8At` |
| Reader.DataReader.ReadShort | reader.go:70-77 | agrees with `I16At` |
| Reader.DataReader.ReadUshort | reader.go:80-87 | agrees with `U16At` |
| Reader.DataReader.ReadInt | reader.go:90-97 | agrees with `I32At` |
| Reader.DataReader.ReadUint | reader.go:100-107 | agrees with `U32At` |
| Reader.DataReader.ReadLong | reader.go:110-117 | agrees with `I64At` |
| Reader.DataReader.ReadUlong | reader.go:120-127 | agrees with `U64At` |
| Reader.DataReader.ReadBytes | reader.go:129-136 | agrees with `BytesAt`; the byte-order flag has no effect |
| Reader.DataReader.ReNew | reader.go:139-151 | on success, a fresh reader at position 0 over exactly the next n bytes; the error and new position are those of `BytesAt` |
| Reader.DataReader.ReadStringNull | reader.go:154-167 | the byte loop agrees with `CStringAt` |
| Reader.DataReader.Seek | reader.go:170-172 | absolute, relative and end-relative seeks move to their target, past the end too; a negative target or an unknown reference point is an error that leaves the position |
| Reader.DataReader.Len | reader.go:175-177 | the number of unread bytes, 0 past the end |
| Reader.DataReader.Align | reader.go:179-190 | moves the position to `AlignedPos` |
| Common.ToClassID | common.go:7 | the conversion to the unsigned class id loses nothing: reinterpreting it as signed gives the value back |
| Common.DigitValue | common.go:20-33 | a one-byte string converts exactly when it is a decimal digit, and then to that digit |
| Common.NewVersionInfo | common.go:19-43 | nil for a non-digit at index 0, 2 or 4; out of range for input too short to reach the next index tried; otherwise the three digits, the build from index 5 on, and the raw text |
| Common.NewVersionInfoOfFormat | common.go:19-43 | parsing "M.m.p" followed by a build gives those parts back |
| Common.SeparatorsIgnored | common.go:20-30 | bytes 1 and 3 are never looked at: changing them changes only the raw text |
| Common.NewVersionInfoExample | common_test.go:5-10 | "5.3.3p3" parses to 5, 3, 3 and build "p3" |
| Objects.PathIdAt | object.go:23-42 | the path id is 8 bytes when ids are long or from format 14 on, otherwise 4 bytes widened to 64 bits; a short read gives the reader's error and position |
| Objects.ObjectInfoAt | object.go:11-92 | a record succeeds exactly when the whole record fits after the alignment of format 14 and later, and then consumes exactly the record; it otherwise fails with EOF or unexpected EOF, having consumed the rest |
| Objects.ObjectInfoOfParts | object.go:23-90 | a record is its path id, then the four fixed fields, then the trailer; it fails with the error and position of the first part that fails |
| Objects.ParseObjectInfo | object.go:11-92 | the reader's method agrees with `ObjectInfoAt` |
| Objects.ReadPathId | object.go:23-42 | agrees with `PathIdAt` |
| Objects.ReadFields | object.go:46-71 | agrees with `FieldsAt`, the four fixed fields |
| Objects.SkipTrailer | object.go:74-90 | agrees with `TrailerAt`: two skipped bytes, three from format 15 on |
| AssetRefs.AssetRefAt | assetref.go:10-38 | a decoded reference has a 16-byte GUID and two paths of at most 256 bytes without 0x00 |
| AssetRefs.AssetRefSucceeds | assetref.go:10-38 | a reference decodes exactly when its asset path does, 20 bytes follow it, and a file path follows those |
| AssetRefs.AssetRefLayout | assetref.go:19-35 | the GUID and type directly follow the asset path's terminator, and the file path follows them |
| AssetRefs.AssetRefRoundTrip | assetref.go:10-38 | an encoded reference decodes back to itself wherever it sits, and decoding stops right after it |
| AssetRefs.ParseAssetRef | assetref.go:10-38 | the reader's method agrees with `AssetRefAt` |
| TypeTrees.Root | type.go:310-313 | a new tree carries only its class id |
| TypeTrees.Mask31 | type.go:199-201 | masking a negative offset with 0x7fffffff gives a non-negative value: the offset plus 2^31 |
| TypeTrees.NodeOf | type.go:169-236 | a depth-0 record's node starts from the root as it stands, any other from the zero tree; negative offsets are masked; the record's fields are stored |
| TypeTrees.FlatRecordsAt | type.go:156-237 | k records succeed exactly when 24k bytes are there; they then consume them and give k records |
| TypeTrees.FlatRecordsAtOffsets | type.go:156-237 | record j of a run is the one 24j bytes in |
| TypeTrees.Assemble | type.go:156-237 | one child is appended per record |
| TypeTrees.AssemblePrefix | type.go:236 | appending never changes the children already there |
| TypeTrees.AssembleChild | type.go:169-236 | child i is the node of record i built over all the children before it, whatever the depths say |
| TypeTrees.Flat1012At | type.go:120-240 | the flat form keeps the class id |
| TypeTrees.Flat1012Header | type.go:121-132 | the record count and the buffer length are the two u32 values at the start, in the file's byte order |
| TypeTrees.FlatBodyAt | type.go:134-237 | the body keeps the class id |
| TypeTrees.FlatBodySucceeds | type.go:134-237 | the body succeeds exactly when 24 times the count does not overflow 32 bits and the records and the buffer fit; it then stores the buffer and its length, appends one child per record and changes nothing else |
| TypeTrees.FlatCountOverflowFails | type.go:134 | a count whose record bytes overflow 32 bits fails, however long the input |
| TypeTrees.FlatRoot | type.go:131-236 | the root gets the buffer and its length and one more child per record, and nothing else changes |
| TypeTrees.OldHeaderAt | type.go:243-290 | a header consumes at least one byte and ends inside the buffer |
| TypeTrees.OldTreeAt | type.go:242-301 | an old-form node consumes input, keeps its class id and the children it had, and appends after them |
| TypeTrees.OldChildrenAt | type.go:292-299 | k children are appended after those already there |
| TypeTrees.OldTreeIgnoresByteOrder | type.go:255-290 | the old form reads big-endian whatever the file's byte order |
| TypeTrees.OldTreeShape | type.go:242-301 | a node carries its header; is-array is set if it was, or if the value read is positive; it gets max(count, 0) new children; nothing else changes |
| TypeTrees.TypeTreeAt | type.go:303-321 | the form is chosen by the format, and the class id survives either decoder |
| TypeTrees.TypeEntryAt | type.go:65-91 | a hash is 32 bytes for a negative class id and 16 otherwise; a tree is there only when the flag is set, and then it is for that class |
| TypeTrees.TypesAt | type.go:64-92 | k more hashes and, with the flag, k more trees, each tree for the class of its hash, appended in order |
| TypeTrees.TypeMetadataAt | type.go:31-118 | every hash has the width its class calls for; trees are absent or one per hash for its class; before format 13 there are none |
| TypeTrees.TypeMetadataBefore13 | type.go:97-117 | before format 13 only the player version and target platform are read |
| TypeTrees.TypeMetadataLayout | type.go:31-96 | from format 13 on, the player version and target platform are followed by the type section, which supplies the hashes and trees |
| TypeTrees.TypesSectionCounts | type.go:45-92 | the count fixes how many hashes there are; the flag decides whether every hash has its tree or none has |
| TypeTrees.ReadFlatRecord | type.go:157-233 | reading a record field by field agrees with decoding it at fixed offsets, including the error for a record cut short |
| TypeTrees.ParseTypeTree1012 | type.go:120-240 | the reader's method agrees with `Flat1012At` |
| TypeTrees.ParseFlatBody | type.go:134-237 | agrees with `FlatBodyAt` |
| TypeTrees.ReadFlatChildren | type.go:151-237 | the record loop succeeds exactly when all records decode, and then gives the children `Assemble` describes |
| TypeTrees.ReadOldFields | type.go:255-290 | agrees with `OldFieldsAt`, six big-endian numbers |
| TypeTrees.ReadOldHeader | type.go:243-290 | agrees with `OldHeaderAt` |
| TypeTrees.ParseTypeTreeOld | type.go:242-301 | the recursive method agrees with `OldTreeAt` |
| TypeTrees.ParseTypeTree | type.go:303-321 | agrees with `TypeTreeAt` |
| TypeTrees.ParseTypeMetadata | type.go:31-118 | agrees with `TypeMetadataAt` |
| TypeTrees.ReadTypesSection | type.go:46-92 | agrees with `TypesSectionAt` |
| TypeTrees.ReadTypes | type.go:64-92 | the entry loop agrees with `TypesAt` |
| TypeTrees.ReadTypeEntry | type.go:65-91 | agrees with `TypeEntryAt` |
| Bundle.CompressionOf | bundle.go:242 | the compression type is the low six bits of the flags |
| Bundle.BlockAt | bundle.go:115-135 | a block succeeds exactly when 10 bytes are there, and consumes them |
| Bundle.BlocksAt | bundle.go:113-137 | max(count, 0) blocks succeed exactly when 10 bytes each are there; they are appended in order |
| Bundle.BlocksAtOffsets | bundle.go:114-136 | block j of the table is the one 10j bytes in |
| Bundle.NodeAt | bundle.go:146-172 | a node's fixed part is 20 bytes, and its name is at most 256 bytes without 0x00 |
| Bundle.NodesAt | bundle.go:144-174 | the nodes are appended in order |
| Bundle.DirectoryAt | bundle.go:102-174 | the directory's GUID is 16 bytes |
| Bundle.DirectoryCounts | bundle.go:102-174 | the GUID is the first 16 bytes; the block and node counts give the table sizes, each count read big-endian right before its table |
| Bundle.DirectoryLocation | bundle.go:84-100 | the directory is the ciBlockSize bytes starting ciBlockSize before the declared end of the file; a start before the buffer is a negative-position error |
| Bundle.SizesAt | bundle.go:218-240 | the sizes and flags take exactly 20 bytes |
| Bundle.Envelope | bundle.go:186-243 | every header field (signature, format, engine and player versions, file size, both block sizes, flags) is stored as read, the compression comes from the flags, and the directory is still empty |
| Bundle.BundleOk | bundle.go:180-263 | a bundle decodes only with signature UnityFS and a 5.3.4p player version, and is then the 5.3.4 decode of its header |
| Bundle.OtherSignatureNotImplemented | bundle.go:217-262 | any other signature is not implemented |
| Bundle.PlayerVersionDispatch | bundle.go:245-257 | 5.3.3p is not implemented; another prefix than 5.3.3p or 5.3.4p is unsupported |
| Bundle.CompressedDirectoryUnsupported | bundle.go:84-100 | any compression but none fails before a directory byte is read |
| Bundle.Bundle534Layout | bundle.go:79-177 | a decoded 5.3.4 bundle is uncompressed; its node data starts at the file size minus the bytes left after the header; its GUID, blocks and nodes are `DirectoryOf`'s; every other field is unchanged |
| Bundle.ReadBlock | bundle.go:115-135 | agrees with `BlockAt` |
| Bundle.ReadBlocks | bundle.go:113-137 | the block loop agrees with `BlocksAt` |
| Bundle.ReadNode | bundle.go:146-172 | agrees with `NodeAt` |
| Bundle.ReadNodes | bundle.go:144-174 | the node loop agrees with `NodesAt` |
| Bundle.ReadDirectory | bundle.go:102-174 | agrees with `DirectoryAt` |
| Bundle.ReadUncompressedDirectory | bundle.go:84-100 | the seek and the sub-reader agree with `DirectoryOf` |
| Bundle.ParseBundle534 | bundle.go:79-177 | agrees with `Bundle534Of` |
| Bundle.ReadPreamble | bundle.go:193-215 | agrees with `PreambleAt` |
| Bundle.ReadSizes | bundle.go:218-240 | agrees with `SizesAt` |
| Bundle.ParseBundle | bundle.go:180-263 | decoding a bundle held in memory agrees with `BundleOf` |
| SerializedFile.HeaderAt | bundle.go:280-316 | little-endian is chosen only from format 9 on; the header is 20 bytes from format 9 and 16 before |
| SerializedFile.HeaderLayout | bundle.go:280-316 | the header fields are big-endian at fixed offsets; a marker of zero selects little-endian |
| SerializedFile.LongIdsAt | bundle.go:325-336 | the long-ids flag is read only for formats 7 to 13, and any nonzero value sets it |
| SerializedFile.ObjectsAt | bundle.go:345-421 | the records are appended in order; a failure is an EOF kind |
| SerializedFile.ObjectTableCount | bundle.go:325-421 | the table holds exactly as many records as the u32 count says, the first of them right after the count |
| SerializedFile.ObjectsFirst | bundle.go:345-421 | the first record decoded is the one at the start |
| SerializedFile.AddAt | bundle.go:430-447 | an entry is 12 bytes after the alignment of format 14 and later: an i64 id and an i32 |
| SerializedFile.AddsAt | bundle.go:429-448 | the entries are appended in order |
| SerializedFile.AddsTableAt | bundle.go:423-449 | the table exists from format 11 on and holds the counted number of entries |
| SerializedFile.RefsAt | bundle.go:451-460 | from format 6 on the reference count is read and no entry is consumed |
| SerializedFile.TablesAt | bundle.go:318-465 | the tables keep the header they were read under |
| SerializedFile.SerializedFileTables | bundle.go:275-465 | a decoded file is its header, whose size depends only on the format, followed by its tables |
| SerializedFile.TablesByFormat | bundle.go:318-465 | below formats 7, 11 and 6 respectively, the long-ids flag, the additional objects and the reference count are absent; the metadata keeps its hash widths |
| SerializedFile.SkippedNames | bundle.go:274 | only the suffixes of ".resource" are skipped; a name like "CAB-1.resource" is decoded |
| SerializedFile.NodeSlice | bundle.go:269-271 | a node's bytes are the range from node start plus offset, of its size, with 64-bit wrap-around; a range that is reversed, starts before 0 or ends past the bundle's bytes (taken to have no spare capacity) is the slice-bounds error |
| SerializedFile.ExportNodeShape | bundle.go:268-475 | an exported node keeps its name and exactly its slice, happens only in a UnityFS bundle, and carries a decoded file exactly when not skipped; failures are the slice error, the signature error or the decoder's error |
| SerializedFile.NodeExports | bundle.go:268 | there is one result per node |
| SerializedFile.UntilFailure | bundle.go:268-477 | no more entries are recorded than results remain, and all of them when nothing fails |
| SerializedFile.UntilFailureParts | bundle.go:268-477 | each recorded entry is the success at its index; a failure is the error of the next result |
| SerializedFile.ExportsInOrder | bundle.go:265-478 | the nodes are exported in order; every node before the failure, or all nodes when there is none, is exported as `ExportNode` says; the failure is that of the next node |
| SerializedFile.ReadHeader | bundle.go:280-316 | agrees with `HeaderAt` |
| SerializedFile.ReadLongIds | bundle.go:325-336 | agrees with `LongIdsAt` |
| SerializedFile.ReadObjects | bundle.go:345-421 | the object loop agrees with `ObjectsAt` |
| SerializedFile.ReadObjectTable | bundle.go:325-421 | agrees with `ObjectTableAt` |
| SerializedFile.ReadAdd | bundle.go:430-447 | agrees with `AddAt` |
| SerializedFile.ReadAdds | bundle.go:429-448 | the entry loop agrees with `AddsAt` |
| SerializedFile.ReadAddsTable | bundle.go:423-449 | agrees with `AddsTableAt` |
| SerializedFile.ReadRefs | bundle.go:451-460 | agrees with `RefsAt` |
| SerializedFile.ReadTables | bundle.go:318-465 | agrees with `TablesAt` |
| SerializedFile.ParseSerializedFile | bundle.go:275-465 | decoding a node's bytes through a fresh reader agrees with `SerializedFileOf` |
| SerializedFile.ExportOne | bundle.go:269-466 | one node's export agrees with `ExportNode` |
| SerializedFile.DecodeUnlessSkipped | bundle.go:274-466 | agrees with `FileUnlessSkipped` |
| SerializedFile.ExportAssets | bundle.go:265-478 | the export loop agrees with `Exports` |

## Left out

- Reading files and writing them are not modelled, and neither is the debug printing. This
  covers `NewDataReaderFromFilePath`, the file read in `ParseBundle`, and `pp.Println`.
  `ParseBundle` takes the file's bytes. `ExportAssets` does not write files, and its export
  log lists, in order, the name and bytes of each node it would have written. A write
  error cannot happen in the model.
- SerializedFile.ExportAssets: the log also carries each node's decoded serialized file. The
  Go code decodes it only to check it and then discards it.
- SerializedFile.ReadObjects: in `ExportAssets` the object loop is written inline. The model
  reuses `ParseObjectInfo`, which performs the same reads in the same order, and keeps the
  decoded records, which the Go code throws away.
- Decompression (LZMA, LZ4, LZ4HC, LZHAM) is not part of the Go code. A compressed directory
  is the unsupported-compression error, as in the source.
- Slices in Go share a backing array and have a capacity. Here they are values, so aliasing
  between a node's bytes and the bundle's binary is not modelled.
- SerializedFile.NodeSlice: the bundle's bytes are taken to have no spare capacity, so a
  node whose range ends past the last byte of the file is the slice-bounds error. In Go the
  bound of `b.Binary[startAt:endAt]` is the capacity of the buffer the file read returned,
  which is larger than the file's length and zero-filled. A node that overruns the end of
  the file by less than that spare capacity is therefore cut out with zero padding there, and
  written or decoded, instead of stopping the export. The spare capacity depends on the file
  read, which is not modelled.
- Reader.DataReader.Align: its error result is left out. The only seek it performs is a
  forward relative one, which cannot fail.
- Bundle.CompressionOf: the mask `flags & 0x3F` is written as `flags % 64`, which is the same
  for an unsigned value.
- Common.NewVersionInfo: the raw version is a byte sequence. Go's integer conversion is
  modelled only for one-byte strings, which is all it is called on; a lone sign byte is not
  a digit there either.
- The functions that update a tree through a pointer (`parseTypeTree1012`, `parseTypeTreeOld`,
  `parseTypeTree`) are modelled as taking the tree and returning the updated tree. When they
  fail, the partly updated tree is not returned, and the Go callers drop it too.
- The flat type-tree form does not rebuild a parent stack. The source has that code commented
  out and appends every record to the root's children; the model does the same (see
  `AssembleChild`).
- Before format 13 the type metadata reads only the player version and the target platform.
  The loop that might read fields there is commented out in the source, and the model follows
  the code.
- `ParseAssetRef` is modelled although nothing in the core calls it. The external-reference
  loop in `ExportAssets` has an empty body, so it reads only the count.
- The skip test `strings.HasSuffix(".resource", node.Name)` has its arguments reversed. It
  skips a node only when ".resource" ends with the node's name. The model keeps that
  behaviour, and `SkippedNames` shows which names it skips.
- `selectByteOrder` is folded into the `little` flag of every read. `ReadByte` has no byte
  order.
- The generated class-id table (`cmd/gen_classids`) is not part of this model.
