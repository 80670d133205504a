/** Type trees (the field layout of each serialized class) and the type metadata table that
    carries one hash, and optionally one type tree, per class. */
module TypeTrees {
  import opened Wire
  import opened Results
  import opened Reader
  import opened Common

  /** A node of a type tree. The flat decoder fills `bufferBytes` and `data` on the root and
      appends every record it reads to the root's `children`; the old decoder fills the
      remaining fields and nests children. */
  datatype TypeTree = TypeTree(
    classId: ClassID,
    bufferBytes: U32,
    data: seq<Byte>,
    version: I32,
    isArray: bool,
    typeOffset: I32,
    typ: seq<Byte>,
    nameOffset: I32,
    name: seq<Byte>,
    size: I32,
    index: I64,
    flags: I32,
    children: seq<TypeTree>)

  /** The zero value of a tree: every number 0, every string and list empty. */
  const Zero := TypeTree(0, 0, [], 0, false, 0, [], 0, [], 0, 0, 0, [])

  /** A tree carrying only its class id, as the decoder starts it. */
  function Root(classId: ClassID): (t: TypeTree)
    ensures t.classId == classId && t.children == []
  {
    Zero.(classId := classId)
  }

  /** The flat record form is used by format 10 and by format 12 and later. */
  predicate UsesFlatForm(format: U32)
  {
    format == 10 || format >= 12
  }

  /** Masking a negative 32-bit offset with 0x7fffffff clears its sign bit, which for a
      two's-complement value is adding 2^31. Non-negative offsets are kept. */
  function Mask31(x: I32): (r: I32)
    ensures 0 <= r
    ensures x >= 0 ==> r == x
    ensures x < 0 ==> r == x + 0x8000_0000
  {
    if x < 0 then x + 0x8000_0000 else x
  }

  // ---------------------------------------------------------------------------------------
  // Flat form

  /** One 24-byte record of the flat form. */
  datatype FlatRecord = FlatRecord(version: I16, depth: I8, isArray: I8, typeOffset: I32,
                                   nameOffset: I32, size: I32, index: U32, flags: I32)

  /** A record: i16 version, i8 depth, i8 is-array, i32 type offset, i32 name offset, i32 size,
      u32 index, i32 flags, in the file's byte order. The fields are read one at a time, so a
      record that does not fit fails at the first field that does not fit: with plain EOF when
      the bytes left end exactly where that field starts, with unexpected EOF otherwise. */
  function FlatRecordAt(rec: seq<Byte>, pos: nat, little: bool): (o: Outcome<FlatRecord>)
  {
    if pos + 24 <= |rec| then Parsed(DecodeFlatRecord(rec, pos, little), pos + 24)
    else Failed(ShortRecordError(Remaining(rec, pos)), ShortReadPos(rec, pos))
  }

  /** The fields of the record at `pos`, each at its fixed offset. */
  function DecodeFlatRecord(rec: seq<Byte>, pos: nat, little: bool): FlatRecord
    requires pos + 24 <= |rec|
  {
    FlatRecord(AsI16(Unsigned(rec[pos..pos + 2], little)), AsI8(rec[pos + 2]), AsI8(rec[pos + 3]),
               AsI32(Unsigned(rec[pos + 4..pos + 8], little)),
               AsI32(Unsigned(rec[pos + 8..pos + 12], little)),
               AsI32(Unsigned(rec[pos + 12..pos + 16], little)),
               Unsigned(rec[pos + 16..pos + 20], little),
               AsI32(Unsigned(rec[pos + 20..pos + 24], little)))
  }

  /** The error of a record with `left` bytes left: plain EOF exactly at a field boundary. */
  function ShortRecordError(left: nat): Error
  {
    if left in {0, 2, 3, 4, 8, 12, 16, 20} then Eof else UnexpectedEof
  }

  /** The fields of a node that do not come from its record keep the values of the tree the
      node starts from. */
  predicate SameBase(v: TypeTree, b: TypeTree)
  {
    v.classId == b.classId && v.bufferBytes == b.bufferBytes && v.data == b.data
    && v.typ == b.typ && v.name == b.name && v.children == b.children
  }

  /** The node a record becomes: a depth-0 record starts from a copy of the root as it stands,
      children so far included, any other depth from the zero tree; negative offsets are
      masked, so stored offsets are never negative. */
  function NodeOf(root: TypeTree, kids: seq<TypeTree>, r: FlatRecord): (t: TypeTree)
    ensures SameBase(t, if r.depth == 0 then root.(children := kids) else Zero)
    ensures t.typeOffset >= 0 && t.nameOffset >= 0
    ensures t.typeOffset == Mask31(r.typeOffset) && t.nameOffset == Mask31(r.nameOffset)
    ensures t.version == r.version && t.isArray == (r.isArray > 0) && t.size == r.size
    ensures t.index == r.index && t.flags == r.flags
  {
    var base := if r.depth == 0 then root.(children := kids) else Zero;
    base.(version := r.version, isArray := r.isArray > 0,
          typeOffset := Mask31(r.typeOffset), nameOffset := Mask31(r.nameOffset),
          size := r.size, index := r.index, flags := r.flags)
  }

  /** Decode `k` consecutive records from `pos`. */
  function FlatRecordsAt(rec: seq<Byte>, pos: nat, k: nat, little: bool): (o: Outcome<seq<FlatRecord>>)
    decreases k
    ensures o.Parsed? <==> k == 0 || pos + 24 * k <= |rec|
    ensures o.Parsed? ==> o.pos == pos + 24 * k && |o.value| == k
    ensures o.Failed? ==> o.error in {Eof, UnexpectedEof}
  {
    if k == 0 then Parsed([], pos)
    else
      var r :- FlatRecordAt(rec, pos, little);
      var rest :- FlatRecordsAt(rec, r.pos, k - 1, little);
      Parsed([r.value] + rest.value, rest.pos)
  }

  /** Record `j` of a run is the one that starts `24 * j` bytes in. */
  lemma FlatRecordsAtOffsets(rec: seq<Byte>, pos: nat, k: nat, little: bool, j: nat)
    requires FlatRecordsAt(rec, pos, k, little).Parsed? && j < k
    ensures FlatRecordsAt(rec, pos, k, little).value[j] == FlatRecordAt(rec, pos + 24 * j, little).value
  {
    var o := FlatRecordsAt(rec, pos, k, little);
    FlatRecordAtOffset(rec, pos, k, little, o.value, o.pos, j, pos + 24 * j);
  }

  lemma {:induction false} FlatRecordAtOffset(rec: seq<Byte>, pos: nat, k: nat, little: bool,
                                              v: seq<FlatRecord>, end: nat, j: nat, q: nat)
    requires FlatRecordsAt(rec, pos, k, little) == Parsed(v, end) && j < k && q == pos + 24 * j
    ensures v[j] == FlatRecordAt(rec, q, little).value
    decreases k
  {
    FlatRecordsStep(rec, pos, k, little, v, end);
    if j > 0 {
      FlatRecordAtOffset(rec, pos + 24, k - 1, little, v[1..], end, j - 1, q);
    }
  }

  /** A run whose first record fits is that record followed by the rest of the run. */
  lemma FlatRecordsUnfold(rec: seq<Byte>, pos: nat, next: nat, k: nat, k': nat, little: bool)
    requires k > 0 && pos + 24 <= |rec| && next == pos + 24 && k' == k - 1
    ensures FlatRecordsAt(rec, pos, k, little)
      == Prefixed([FlatRecordAt(rec, pos, little).value], FlatRecordsAt(rec, next, k', little))
  {
  }

  /** A run of records is its first record followed by the rest of the run. */
  lemma FlatRecordsStep(rec: seq<Byte>, pos: nat, k: nat, little: bool, v: seq<FlatRecord>, end: nat)
    requires FlatRecordsAt(rec, pos, k, little) == Parsed(v, end) && k > 0
    ensures FlatRecordsAt(rec, pos + 24, k - 1, little) == Parsed(v[1..], end)
    ensures v[0] == FlatRecordAt(rec, pos, little).value
  {
  }

  /** The children after the records `rs`: each record's node is appended in turn, a depth-0
      node starting from the root with the children appended before it. */
  function Assemble(root: TypeTree, acc: seq<TypeTree>, rs: seq<FlatRecord>): (cs: seq<TypeTree>)
    ensures |cs| == |acc| + |rs|
  {
    if rs == [] then acc
    else
      var prev := Assemble(root, acc, rs[..|rs| - 1]);
      prev + [NodeOf(root, prev, rs[|rs| - 1])]
  }

  /** Assembling never changes the children already there. */
  lemma {:induction false} AssemblePrefix(root: TypeTree, acc: seq<TypeTree>, rs: seq<FlatRecord>)
    ensures Assemble(root, acc, rs)[..|acc|] == acc
    decreases |rs|
  {
    if rs != [] {
      var init := rs[..|rs| - 1];
      var prev := Assemble(root, acc, init);
      AssemblePrefix(root, acc, init);
      assert Assemble(root, acc, rs)[..|acc|] == prev[..|acc|];
    }
  }

  /** Child `i` after the existing ones is the node of record `i - |acc|` built over all the
      children before it: one child per record, in order, whatever the depths say. */
  lemma {:induction false} AssembleChild(root: TypeTree, acc: seq<TypeTree>, rs: seq<FlatRecord>, i: nat)
    requires |acc| <= i < |acc| + |rs|
    ensures var cs := Assemble(root, acc, rs);
      cs[i] == NodeOf(root, cs[..i], rs[i - |acc|])
    decreases |rs|
  {
    var init := rs[..|rs| - 1];
    var prev := Assemble(root, acc, init);
    var cs := prev + [NodeOf(root, prev, rs[|rs| - 1])];
    assert Assemble(root, acc, rs) == cs;
    if i < |prev| {
      AssembleChild(root, acc, init, i);
      assert cs[..i] == prev[..i];
      assert rs[i - |acc|] == init[i - |acc|];
    } else {
      assert cs[..i] == prev;
    }
  }

  /** The flat form: u32 record count, u32 string-buffer length, then the body. */
  function Flat1012At(data: seq<Byte>, pos: nat, t: TypeTree, little: bool): (o: Outcome<TypeTree>)
    ensures o.Parsed? ==> o.value.classId == t.classId
  {
    var count :- U32At(data, pos, little);
    var bufferBytes :- U32At(data, count.pos, little);
    FlatBodyAt(data, bufferBytes.pos, count.value, bufferBytes.value, t, little)
  }

  /** The body of the flat form: the records (24 bytes each, the byte count computed in 32
      bits), then the string buffer, which is stored on the root together with its length.
      The records are decoded from their own sub-buffer and appended to the root's children. */
  function FlatBodyAt(data: seq<Byte>, pos: nat, n: U32, b: U32, t: TypeTree, little: bool)
    : (o: Outcome<TypeTree>)
    ensures o.Parsed? ==> o.value.classId == t.classId
  {
    var records :- BytesAt(data, pos, (24 * n) % 0x1_0000_0000);
    var buffer :- BytesAt(data, records.pos, b);
    var rs := FlatRecordsAt(records.value, 0, n, little);
    if rs.Failed? then Failed(rs.error, buffer.pos)
    else Parsed(FlatRoot(t, b, buffer.value, rs.value), buffer.pos)
  }

  /** The root after the flat form: its buffer and buffer length set, one child appended per
      record, everything else as it was. */
  function FlatRoot(t: TypeTree, b: U32, buffer: seq<Byte>, rs: seq<FlatRecord>): (root: TypeTree)
    ensures root.bufferBytes == b && root.data == buffer
    ensures |root.children| == |t.children| + |rs| && root.children[..|t.children|] == t.children
    ensures root.(bufferBytes := t.bufferBytes, data := t.data, children := t.children) == t
  {
    var base := t.(bufferBytes := b, data := buffer);
    AssemblePrefix(base, base.children, rs);
    base.(children := Assemble(base, base.children, rs))
  }

  // ---------------------------------------------------------------------------------------
  // Old (recursive) form

  /** What an old-form node reads before its children. */
  datatype OldHeader = OldHeader(typ: seq<Byte>, name: seq<Byte>, size: I32, index: I32,
                                 isArray: I32, version: I32, flags: I32, count: I32)

  /** Type and name strings, then size, index, is-array, version, flags and the child count,
      each a big-endian i32 whatever byte order the file uses. */
  function OldHeaderAt(data: seq<Byte>, pos: nat): (o: Outcome<OldHeader>)
    ensures o.Parsed? ==> pos < o.pos <= |data|
  {
    var typ :- CStringAt(data, pos, 256);
    var name :- CStringAt(data, typ.pos, 256);
    var fields :- OldFieldsAt(data, name.pos);
    var (size, index, isArray, version, flags, count) := fields.value;
    Parsed(OldHeader(typ.value, name.value, size, index, isArray, version, flags, count), fields.pos)
  }

  /** The six numbers of a header, read one at a time as big-endian i32: a header that does
      not fit fails at the first number that does not fit, with plain EOF when the bytes left
      end exactly where that number starts, with unexpected EOF otherwise. */
  function OldFieldsAt(data: seq<Byte>, pos: nat): (o: Outcome<(I32, I32, I32, I32, I32, I32)>)
  {
    if pos + 24 <= |data| then
      var f := (BigEndianI32(data, pos), BigEndianI32(data, pos + 4), BigEndianI32(data, pos + 8),
                BigEndianI32(data, pos + 12), BigEndianI32(data, pos + 16), BigEndianI32(data, pos + 20));
      Parsed(f, pos + 24)
    else Failed(if Remaining(data, pos) % 4 == 0 then Eof else UnexpectedEof, ShortReadPos(data, pos))
  }

  function BigEndianI32(data: seq<Byte>, pos: nat): I32
    requires pos + 4 <= |data|
  {
    AsI32(Unsigned(data[pos..pos + 4], false))
  }

  /** A negative child count means no children. */
  function ChildCount(count: I32): nat
  {
    if count > 0 then count else 0
  }

  /** Store a header and the children on a node. Is-array is only ever set, never cleared. */
  function WithHeader(t: TypeTree, h: OldHeader, kids: seq<TypeTree>): TypeTree
  {
    t.(typ := h.typ, name := h.name, size := h.size, index := h.index,
       isArray := t.isArray || h.isArray > 0, version := h.version, flags := h.flags,
       children := kids)
  }

  /** The old form: a header, then that many children, each decoded recursively from a zero
      tree and appended in order. */
  function OldTreeAt(data: seq<Byte>, pos: nat, t: TypeTree, little: bool): (o: Outcome<TypeTree>)
    decreases Remaining(data, pos), 0
    ensures o.Parsed? ==> pos < o.pos <= |data|
    ensures o.Parsed? ==> o.value.classId == t.classId
    ensures o.Parsed? ==> |o.value.children| >= |t.children|
    ensures o.Parsed? ==> o.value.children[..|t.children|] == t.children
  {
    var h :- OldHeaderAt(data, pos);
    var kids :- OldChildrenAt(data, h.pos, ChildCount(h.value.count), t.children, little);
    Parsed(WithHeader(t, h.value, kids.value), kids.pos)
  }

  /** Decode `k` children, each into a fresh zero tree, appending them to `acc`. */
  function OldChildrenAt(data: seq<Byte>, pos: nat, k: nat, acc: seq<TypeTree>, little: bool)
    : (o: Outcome<seq<TypeTree>>)
    decreases Remaining(data, pos), 1, k
    ensures o.Parsed? ==> pos <= o.pos <= |data| || (k == 0 && o.pos == pos)
    ensures o.Parsed? ==> |o.value| == |acc| + k && o.value[..|acc|] == acc
  {
    if k == 0 then Parsed(acc, pos)
    else
      var child :- OldTreeAt(data, pos, Zero, little);
      OldChildrenAt(data, child.pos, k - 1, acc + [child.value], little)
  }

  /** Decode a type tree for the given class in the form the format calls for; the class id
      survives either decoder. */
  function TypeTreeAt(data: seq<Byte>, pos: nat, format: U32, little: bool, classId: ClassID)
    : (o: Outcome<TypeTree>)
    ensures o.Parsed? ==> o.value.classId == classId
  {
    if UsesFlatForm(format) then Flat1012At(data, pos, Root(classId), little)
    else OldTreeAt(data, pos, Root(classId), little)
  }

  // ---------------------------------------------------------------------------------------
  // Properties of the flat form

  /** The flat form reads the record count and the buffer length at `pos`, then its body. */
  lemma Flat1012Header(data: seq<Byte>, pos: nat, t: TypeTree, little: bool)
    requires pos + 8 <= |data|
    ensures var n := U32At(data, pos, little);
      var b := U32At(data, pos + 4, little);
      && n.Parsed? && b.Parsed?
      && n.value == Unsigned(data[pos..pos + 4], little)
      && b.value == Unsigned(data[pos + 4..pos + 8], little)
      && Flat1012At(data, pos, t, little) == FlatBodyAt(data, pos + 8, n.value, b.value, t, little)
  {
  }

  /** The body succeeds exactly when the record bytes do not overflow 32 bits and the records
      and the string buffer both fit; it then stores the buffer and its length on the root,
      appends one child per record and changes nothing else. */
  lemma FlatBodySucceeds(data: seq<Byte>, pos: nat, n: U32, b: U32, t: TypeTree, little: bool)
    requires pos <= |data|
    ensures var o := FlatBodyAt(data, pos, n, b, t, little);
      && (o.Parsed? <==> 24 * n < 0x1_0000_0000 && pos + 24 * n + b <= |data|)
      && (o.Parsed? ==>
           && o.pos == pos + 24 * n + b
           && o.value.bufferBytes == b
           && o.value.data == data[pos + 24 * n..pos + 24 * n + b]
           && |o.value.children| == |t.children| + n
           && o.value.children[..|t.children|] == t.children
           && o.value.(bufferBytes := t.bufferBytes, data := t.data, children := t.children) == t)
  {
    var m := (24 * n) % 0x1_0000_0000;
    var records := BytesAt(data, pos, m);
    if 24 * n >= 0x1_0000_0000 {
      assert m < 24 * n;
    } else {
      assert m == 24 * n;
    }
  }

  /** The record bytes are counted in 32 bits: a count whose 24-byte records overflow that
      always fails, however long the input. */
  lemma FlatCountOverflowFails(data: seq<Byte>, pos: nat, t: TypeTree, little: bool)
    requires pos + 8 <= |data|
    requires 24 * Unsigned(data[pos..pos + 4], little) >= 0x1_0000_0000
    ensures Flat1012At(data, pos, t, little).Failed?
  {
    Flat1012Header(data, pos, t, little);
    FlatBodySucceeds(data, pos + 8, U32At(data, pos, little).value, U32At(data, pos + 4, little).value, t, little);
  }

  // ---------------------------------------------------------------------------------------
  // Properties of the old form

  /** The old form reads every number big-endian: the file's byte order changes nothing. */
  lemma {:induction false} OldTreeIgnoresByteOrder(data: seq<Byte>, pos: nat, t: TypeTree)
    ensures OldTreeAt(data, pos, t, true) == OldTreeAt(data, pos, t, false)
    decreases Remaining(data, pos), 0
  {
    var h := OldHeaderAt(data, pos);
    if h.Parsed? {
      OldChildrenIgnoresByteOrder(data, h.pos, ChildCount(h.value.count), t.children);
    }
  }

  lemma {:induction false} OldChildrenIgnoresByteOrder(data: seq<Byte>, pos: nat, k: nat, acc: seq<TypeTree>)
    ensures OldChildrenAt(data, pos, k, acc, true) == OldChildrenAt(data, pos, k, acc, false)
    decreases Remaining(data, pos), 1, k
  {
    if k > 0 {
      OldTreeIgnoresByteOrder(data, pos, Zero);
      var child := OldTreeAt(data, pos, Zero, false);
      if child.Parsed? {
        OldChildrenIgnoresByteOrder(data, child.pos, k - 1, acc + [child.value]);
      }
    }
  }

  /** A decoded old-form node carries its header, is-array set if the node's flag was or the
      read value is positive, and exactly max(count, 0) children after the ones it had. */
  lemma OldTreeShape(data: seq<Byte>, pos: nat, t: TypeTree, little: bool)
    requires OldTreeAt(data, pos, t, little).Parsed?
    ensures var o := OldTreeAt(data, pos, t, little).value;
      var h := OldHeaderAt(data, pos);
      && h.Parsed?
      && o.typ == h.value.typ && o.name == h.value.name && o.size == h.value.size
      && o.index == h.value.index && o.version == h.value.version && o.flags == h.value.flags
      && o.isArray == (t.isArray || h.value.isArray > 0)
      && |o.children| == |t.children| + ChildCount(h.value.count)
      && o.(typ := t.typ, name := t.name, size := t.size, index := t.index, isArray := t.isArray,
            version := t.version, flags := t.flags, children := t.children) == t
  {
  }

  // ---------------------------------------------------------------------------------------
  // Type metadata

  /** The hash stored for one class. */
  datatype TypeMetadataHash = TypeMetadataHash(classId: ClassID, hash: seq<Byte>)

  datatype TypeMetadata = TypeMetadata(playerVersion: seq<Byte>, targetPlatform: U32,
                                       hashes: seq<TypeMetadataHash>, typeTrees: seq<TypeTree>)

  /** Script types (negative class ids, which wrap to 2^31 and above) carry a 32-byte hash,
      every other class a 16-byte one. */
  function HashWidth(classId: ClassID): nat
  {
    if classId >= 0x8000_0000 then 32 else 16
  }

  predicate HashWidthsAgree(hs: seq<TypeMetadataHash>)
  {
    forall j :: 0 <= j < |hs| ==> |hs[j].hash| == HashWidth(hs[j].classId)
  }

  /** Tree `j` belongs to the class of hash `j`. */
  predicate TreesFollowHashes(hs: seq<TypeMetadataHash>, ts: seq<TypeTree>)
  {
    |ts| == |hs| && forall j :: 0 <= j < |ts| ==> ts[j].classId == hs[j].classId
  }

  /** Player version (string of at most 256 bytes) and u32 target platform; from format 13
      on also an i8 "has type trees" flag (positive means set), an i32 type count and the
      entries. Before format 13 nothing more is read. */
  function TypeMetadataAt(data: seq<Byte>, pos: nat, format: U32, little: bool): (o: Outcome<TypeMetadata>)
    ensures o.Parsed? ==> HashWidthsAgree(o.value.hashes)
    ensures o.Parsed? ==> o.value.typeTrees == [] || TreesFollowHashes(o.value.hashes, o.value.typeTrees)
    ensures o.Parsed? && format < 13 ==> o.value.hashes == [] && o.value.typeTrees == []
  {
    var playerVersion :- CStringAt(data, pos, 256);
    var targetPlatform :- U32At(data, playerVersion.pos, little);
    if format >= 13 then
      var entries :- TypesSectionAt(data, targetPlatform.pos, format, little);
      Parsed(TypeMetadata(playerVersion.value, targetPlatform.value, entries.value.0, entries.value.1),
             entries.pos)
    else
      Parsed(TypeMetadata(playerVersion.value, targetPlatform.value, [], []), targetPlatform.pos)
  }

  /** The i8 "has type trees" flag (positive means set), the i32 type count and the entries;
      cut short before the entries, it fails with plain EOF right before the flag or the
      count. */
  function TypesSectionAt(data: seq<Byte>, pos: nat, format: U32, little: bool)
    : (o: Outcome<(seq<TypeMetadataHash>, seq<TypeTree>)>)
  {
    if pos + 5 <= |data| then
      TypesAt(data, pos + 5, format, little, AsI8(data[pos]) > 0,
              ChildCount(AsI32(Unsigned(data[pos + 1..pos + 5], little))), [], [])
    else Failed(if Remaining(data, pos) in {0, 1} then Eof else UnexpectedEof, ShortReadPos(data, pos))
  }

  /** Decode `k` entries, appending their hashes and (when the flag is set) their trees to
      the lists read so far. */
  function TypesAt(data: seq<Byte>, pos: nat, format: U32, little: bool, withTrees: bool, k: nat,
                   hashes: seq<TypeMetadataHash>, trees: seq<TypeTree>)
    : (o: Outcome<(seq<TypeMetadataHash>, seq<TypeTree>)>)
    decreases k
    ensures o.Parsed? ==> |o.value.0| == |hashes| + k && o.value.0[..|hashes|] == hashes
    ensures o.Parsed? ==> |o.value.1| == |trees| + (if withTrees then k else 0) && o.value.1[..|trees|] == trees
    ensures o.Parsed? && HashWidthsAgree(hashes) ==> HashWidthsAgree(o.value.0)
    ensures o.Parsed? && withTrees && TreesFollowHashes(hashes, trees) ==> TreesFollowHashes(o.value.0, o.value.1)
  {
    if k == 0 then Parsed((hashes, trees), pos)
    else
      var e :- TypeEntryAt(data, pos, format, little, withTrees);
      var hashes', trees' := hashes + [e.value.hash], trees + e.value.tree;
      assert HashWidthsAgree(hashes) ==> HashWidthsAgree(hashes');
      assert withTrees && TreesFollowHashes(hashes, trees) ==> TreesFollowHashes(hashes', trees');
      var o := TypesAt(data, e.pos, format, little, withTrees, k - 1, hashes', trees');
      if o.Parsed? then
        PrefixOfPrefix(o.value.0, hashes', hashes);
        PrefixOfPrefix(o.value.1, trees', trees);
        o
      else o
  }

  /** One entry and its tree, if it has one. */
  datatype TypeEntry = TypeEntry(hash: TypeMetadataHash, tree: seq<TypeTree>)

  /** One entry: an i32 class id, a hash of the width its sign calls for, and, when the flag
      is set, the class's type tree. */
  function TypeEntryAt(data: seq<Byte>, pos: nat, format: U32, little: bool, withTrees: bool)
    : (o: Outcome<TypeEntry>)
    ensures o.Parsed? ==> |o.value.hash.hash| == HashWidth(o.value.hash.classId)
    ensures o.Parsed? ==> |o.value.tree| == (if withTrees then 1 else 0)
    ensures o.Parsed? && withTrees ==> o.value.tree[0].classId == o.value.hash.classId
  {
    var id :- I32At(data, pos, little);
    var classId := ToClassID(id.value);
    var hash :- BytesAt(data, id.pos, if id.value < 0 then 32 else 16);
    var h := TypeMetadataHash(classId, hash.value);
    if withTrees then
      var tree :- TypeTreeAt(data, hash.pos, format, little, classId);
      Parsed(TypeEntry(h, [tree.value]), tree.pos)
    else
      Parsed(TypeEntry(h, []), hash.pos)
  }

  /** Before format 13 only the player version and the target platform are read. */
  lemma TypeMetadataBefore13(data: seq<Byte>, pos: nat, format: U32, little: bool)
    requires format < 13
    ensures var o := TypeMetadataAt(data, pos, format, little);
      var pv := CStringAt(data, pos, 256);
      && (o.Parsed? <==> pv.Parsed? && pv.pos + 4 <= |data|)
      && (o.Parsed? ==>
            && o.pos == pv.pos + 4
            && o == Parsed(TypeMetadata(pv.value, U32At(data, pv.pos, little).value, [], []), pv.pos + 4))
  {
  }

  /** From format 13 on the player version and the target platform are followed by the
      type section, which gives the hashes and the trees. */
  lemma TypeMetadataLayout(data: seq<Byte>, pos: nat, format: U32, little: bool)
    requires format >= 13 && TypeMetadataAt(data, pos, format, little).Parsed?
    ensures var o := TypeMetadataAt(data, pos, format, little);
      var pv := CStringAt(data, pos, 256);
      var tp := U32At(data, pv.pos, little);
      var section := TypesSectionAt(data, tp.pos, format, little);
      && pv.Parsed? && tp.Parsed? && section.Parsed?
      && o == Parsed(TypeMetadata(pv.value, tp.value, section.value.0, section.value.1), section.pos)
  {
    var pv := CStringAt(data, pos, 256);
    assert pv.Parsed?;
  }

  /** The count fixes the number of hashes, and the flag whether every hash has its tree or
      none has. */
  lemma TypesSectionCounts(data: seq<Byte>, pos: nat, format: U32, little: bool)
    requires TypesSectionAt(data, pos, format, little).Parsed?
    ensures var o := TypesSectionAt(data, pos, format, little).value;
      && pos + 5 <= |data|
      && var withTrees := AsI8(data[pos]) > 0;
         && |o.0| == ChildCount(AsI32(Unsigned(data[pos + 1..pos + 5], little)))
         && (withTrees ==> TreesFollowHashes(o.0, o.1))
         && (!withTrees ==> o.1 == [])
  {
    var withTrees := AsI8(data[pos]) > 0;
    var entries := TypesAt(data, pos + 5, format, little, withTrees,
                           ChildCount(AsI32(Unsigned(data[pos + 1..pos + 5], little))), [], []);
    if withTrees {
      assert TreesFollowHashes([], []);
    } else {
      assert |entries.value.1| == 0;
    }
  }

  // ---------------------------------------------------------------------------------------
  // Decoding through the reader

  /** Read one flat record field by field from the records' own reader. */
  method ReadFlatRecord(r: DataReader, little: bool) returns (res: Result<FlatRecord>)
    modifies r
    ensures AtPos(res, r.pos) == FlatRecordAt(r.data, old(r.pos), little)
  {
    var version :- r.ReadShort(little);
    var depth :- r.ReadChar(little);
    var isArray :- r.ReadChar(little);
    var typeOffset :- r.ReadInt(little);
    var nameOffset :- r.ReadInt(little);
    var size :- r.ReadInt(little);
    var index :- r.ReadUint(little);
    var flags :- r.ReadInt(little);
    return Ok(FlatRecord(version, depth, isArray, typeOffset, nameOffset, size, index, flags));
  }

  /** The flat form through the reader: count, buffer length, the record bytes and the
      buffer, then a loop over the records that appends one child per record. */
  method ParseTypeTree1012(r: DataReader, t: TypeTree, little: bool) returns (res: Result<TypeTree>)
    modifies r
    ensures AtPos(res, r.pos) == Flat1012At(r.data, old(r.pos), t, little)
  {
    var count :- r.ReadUint(little);
    var bufferBytes :- r.ReadUint(little);
    res := ParseFlatBody(r, count, bufferBytes, t, little);
  }

  method ParseFlatBody(r: DataReader, count: U32, bufferBytes: U32, t: TypeTree, little: bool)
    returns (res: Result<TypeTree>)
    modifies r
    ensures AtPos(res, r.pos) == FlatBodyAt(r.data, old(r.pos), count, bufferBytes, t, little)
  {
    var records :- r.ReadBytes((24 * count) % 0x1_0000_0000, little);
    var buffer :- r.ReadBytes(bufferBytes, little);
    var root := t.(bufferBytes := bufferBytes, data := buffer);
    var sub := new DataReader(records);
    var children :- ReadFlatChildren(sub, root, count, little);
    return Ok(root.(children := children));
  }

  /** The record loop: read `count` records from the records' reader, appending the node of
      each to the root's children. */
  method ReadFlatChildren(sub: DataReader, root: TypeTree, count: U32, little: bool)
    returns (res: Result<seq<TypeTree>>)
    requires sub.pos == 0
    modifies sub
    ensures var rs := FlatRecordsAt(sub.data, 0, count, little);
      && (res.Ok? <==> rs.Parsed?)
      && (res.Ok? ==> res.value == Assemble(root, root.children, rs.value))
      && (res.Err? ==> res.error == rs.error)
  {
    var children := root.children;
    ghost var rs: seq<FlatRecord> := [];
    ghost var left: nat := count;
    PrefixedEmpty(FlatRecordsAt(sub.data, 0, count, little));
    var i: nat := 0;
    while i < count
      invariant i <= count && left == count - i && |rs| == i
      invariant FlatRecordsAt(sub.data, 0, count, little) == Prefixed(rs, FlatRecordsAt(sub.data, sub.pos, left, little))
      invariant children == Assemble(root, root.children, rs)
    {
      ghost var p, k, before := sub.pos, left, rs;
      var rec := ReadFlatRecord(sub, little);
      if rec.Err? {
        return Err(rec.error);
      }
      children := children + [NodeOf(root, children, rec.value)];
      rs := rs + [rec.value];
      left := left - 1;
      i := i + 1;
      FlatRecordsUnfold(sub.data, p, sub.pos, k, left, little);
      PrefixedPrefixed(before, [rec.value], FlatRecordsAt(sub.data, sub.pos, left, little));
      assert rs[..|before|] == before;
    }
    assert rs + [] == rs;
    return Ok(children);
  }

  /** The six numbers of an old-form header, each read big-endian. */
  method ReadOldFields(r: DataReader) returns (res: Result<(I32, I32, I32, I32, I32, I32)>)
    modifies r
    ensures AtPos(res, r.pos) == OldFieldsAt(r.data, old(r.pos))
  {
    var size :- r.ReadInt(false);
    var index :- r.ReadInt(false);
    var isArray :- r.ReadInt(false);
    var version :- r.ReadInt(false);
    var flags :- r.ReadInt(false);
    var count :- r.ReadInt(false);
    return Ok((size, index, isArray, version, flags, count));
  }

  method ReadOldHeader(r: DataReader) returns (res: Result<OldHeader>)
    modifies r
    ensures AtPos(res, r.pos) == OldHeaderAt(r.data, old(r.pos))
  {
    var typ :- r.ReadStringNull(256);
    var name :- r.ReadStringNull(256);
    var fields :- ReadOldFields(r);
    var (size, index, isArray, version, flags, count) := fields;
    return Ok(OldHeader(typ, name, size, index, isArray, version, flags, count));
  }

  /** The old form through the reader: the header, then each child decoded recursively into
      a zero tree and appended. */
  method ParseTypeTreeOld(r: DataReader, t: TypeTree, little: bool) returns (res: Result<TypeTree>)
    modifies r
    ensures AtPos(res, r.pos) == OldTreeAt(r.data, old(r.pos), t, little)
    decreases Remaining(r.data, r.pos)
  {
    ghost var start := r.pos;
    var h :- ReadOldHeader(r);
    var k := ChildCount(h.count);
    var children := t.children;
    ghost var left: nat := k;
    ghost var kidsStart := r.pos;
    var i: nat := 0;
    while i < k
      invariant i <= k && left == k - i && start < kidsStart <= r.pos
      invariant OldChildrenAt(r.data, kidsStart, k, t.children, little)
             == OldChildrenAt(r.data, r.pos, left, children, little)
    {
      ghost var p, n := r.pos, left;
      var child := ParseTypeTreeOld(r, Zero, little);
      if child.Err? {
        return Err(child.error);
      }
      children := children + [child.value];
      left := left - 1;
      i := i + 1;
      OldChildrenStep(r.data, p, r.pos, n, left, children[..|children| - 1], little);
    }
    return Ok(WithHeader(t, h, children));
  }

  lemma OldChildrenStep(data: seq<Byte>, pos: nat, next: nat, k: nat, k': nat, acc: seq<TypeTree>, little: bool)
    requires k > 0 && k' == k - 1 && OldTreeAt(data, pos, Zero, little).Parsed?
    requires next == OldTreeAt(data, pos, Zero, little).pos
    ensures OldChildrenAt(data, pos, k, acc, little)
         == OldChildrenAt(data, next, k', acc + [OldTreeAt(data, pos, Zero, little).value], little)
  {
  }

  /** Decode a type tree for `classId` in the form the format calls for. */
  method ParseTypeTree(r: DataReader, format: U32, little: bool, classId: ClassID) returns (res: Result<TypeTree>)
    modifies r
    ensures AtPos(res, r.pos) == TypeTreeAt(r.data, old(r.pos), format, little, classId)
  {
    var t := Root(classId);
    if UsesFlatForm(format) {
      res := ParseTypeTree1012(r, t, little);
    } else {
      res := ParseTypeTreeOld(r, t, little);
    }
  }

  /** The type metadata through the reader, with a loop over the entries. */
  method ParseTypeMetadata(r: DataReader, format: U32, little: bool) returns (res: Result<TypeMetadata>)
    modifies r
    ensures AtPos(res, r.pos) == TypeMetadataAt(r.data, old(r.pos), format, little)
  {
    var playerVersion :- r.ReadStringNull(256);
    var targetPlatform :- r.ReadUint(little);
    if format >= 13 {
      var entries :- ReadTypesSection(r, format, little);
      res := Ok(TypeMetadata(playerVersion, targetPlatform, entries.0, entries.1));
    } else {
      res := Ok(TypeMetadata(playerVersion, targetPlatform, [], []));
    }
  }

  /** The flag, the count and the loop over the entries. */
  method ReadTypesSection(r: DataReader, format: U32, little: bool)
    returns (res: Result<(seq<TypeMetadataHash>, seq<TypeTree>)>)
    modifies r
    ensures AtPos(res, r.pos) == TypesSectionAt(r.data, old(r.pos), format, little)
  {
    var flag :- r.ReadChar(little);
    var count :- r.ReadInt(little);
    res := ReadTypes(r, format, little, flag > 0, ChildCount(count));
  }

  method ReadTypes(r: DataReader, format: U32, little: bool, withTrees: bool, k: nat)
    returns (res: Result<(seq<TypeMetadataHash>, seq<TypeTree>)>)
    modifies r
    ensures AtPos(res, r.pos) == TypesAt(r.data, old(r.pos), format, little, withTrees, k, [], [])
  {
    var hashes: seq<TypeMetadataHash> := [];
    var trees: seq<TypeTree> := [];
    ghost var left: nat := k;
    var i: nat := 0;
    while i < k
      invariant i <= k && left == k - i
      invariant TypesAt(r.data, old(r.pos), format, little, withTrees, k, [], [])
             == TypesAt(r.data, r.pos, format, little, withTrees, left, hashes, trees)
    {
      ghost var p, n := r.pos, left;
      var e := ReadTypeEntry(r, format, little, withTrees);
      if e.Err? {
        return Err(e.error);
      }
      hashes := hashes + [e.value.hash];
      trees := trees + e.value.tree;
      left := left - 1;
      i := i + 1;
      TypesStep(r.data, p, r.pos, format, little, withTrees, n, left, hashes[..|hashes| - 1], trees[..|trees| - |e.value.tree|]);
    }
    return Ok((hashes, trees));
  }

  lemma TypesStep(data: seq<Byte>, pos: nat, next: nat, format: U32, little: bool, withTrees: bool,
                  k: nat, k': nat, hashes: seq<TypeMetadataHash>, trees: seq<TypeTree>)
    requires k > 0 && k' == k - 1
    requires TypeEntryAt(data, pos, format, little, withTrees).Parsed?
    requires next == TypeEntryAt(data, pos, format, little, withTrees).pos
    ensures var e := TypeEntryAt(data, pos, format, little, withTrees).value;
      TypesAt(data, pos, format, little, withTrees, k, hashes, trees)
        == TypesAt(data, next, format, little, withTrees, k', hashes + [e.hash], trees + e.tree)
  {
  }

  method ReadTypeEntry(r: DataReader, format: U32, little: bool, withTrees: bool) returns (res: Result<TypeEntry>)
    modifies r
    ensures AtPos(res, r.pos) == TypeEntryAt(r.data, old(r.pos), format, little, withTrees)
  {
    var id :- r.ReadInt(little);
    var classId := ToClassID(id);
    var hash: seq<Byte>;
    if id < 0 {
      hash :- r.ReadBytes(0x20, little);
    } else {
      hash :- r.ReadBytes(0x10, little);
    }
    var h := TypeMetadataHash(classId, hash);
    if withTrees {
      var tree :- ParseTypeTree(r, format, little, classId);
      return Ok(TypeEntry(h, [tree]));
    }
    return Ok(TypeEntry(h, []));
  }
}
