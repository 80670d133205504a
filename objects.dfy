/** One entry of a serialized file's object table. */
module Objects {
  import opened Wire
  import opened Results
  import opened Reader
  import opened Common

  datatype ObjectInfo = ObjectInfo(pathId: I64, dataOffset: U32, size: U32, typeId: I32, classId: ClassID)

  /** Path ids are 64-bit when the file says so or from format 14 on, 32-bit otherwise. */
  predicate HasLongPathId(format: U32, isLongObjectIds: bool)
  {
    isLongObjectIds || format >= 14
  }

  function PathIdWidth(format: U32, isLongObjectIds: bool): nat
  {
    if HasLongPathId(format, isLongObjectIds) then 8 else 4
  }

  /** Bytes of one record after alignment: path id, offset, size, type id, class id, two
      skipped bytes, and from format 15 on one more skipped byte. */
  function ObjectRecordSize(format: U32, isLongObjectIds: bool): nat
  {
    PathIdWidth(format, isLongObjectIds) + 16 + (if format >= 15 then 1 else 0)
  }

  /** From format 14 on a record starts on a 4-byte boundary. */
  function ObjectStart(data: seq<Byte>, pos: nat, format: U32): nat
  {
    if format >= 14 then AlignedPos(data, pos) else pos
  }

  function PathIdAt(data: seq<Byte>, pos: nat, format: U32, isLongObjectIds: bool, little: bool)
    : (o: Outcome<I64>)
    ensures var w := PathIdWidth(format, isLongObjectIds);
      && (o.Parsed? <==> pos + w <= |data|)
      && (o.Parsed? ==> o.pos == pos + w)
      && (o.Parsed? && w == 8 ==> o.value == AsI64(Unsigned(data[pos..pos + 8], little)))
      && (o.Parsed? && w == 4 ==> o.value == AsI32(Unsigned(data[pos..pos + 4], little)))
      && (o.Failed? ==> o.error == ShortReadError(data, pos) && o.pos == ShortReadPos(data, pos))
  {
    if isLongObjectIds then I64At(data, pos, little)
    else if format >= 14 then I64At(data, pos, little)
    else
      var id :- I32At(data, pos, little);
      Parsed(id.value, id.pos)
  }

  /** The bytes that follow the class id and are read only to be skipped: an i16, and from
      format 15 on one more byte. */
  function TrailerAt(data: seq<Byte>, pos: nat, format: U32): (o: Outcome<()>)
  {
    var n := if format >= 15 then 3 else 2;
    if pos + n <= |data| then Parsed((), pos + n)
    else Failed(if Remaining(data, pos) in {0, 2} then Eof else UnexpectedEof, ShortReadPos(data, pos))
  }

  /** The four fixed fields between the path id and the trailer: data offset, size, type
      id and the 16-bit class id. */
  function FieldsAt(data: seq<Byte>, pos: nat, little: bool): (o: Outcome<(U32, U32, I32, I16)>)
  {
    if pos + 14 <= |data| then
      Parsed((Unsigned(data[pos..pos + 4], little), Unsigned(data[pos + 4..pos + 8], little),
              AsI32(Unsigned(data[pos + 8..pos + 12], little)), AsI16(Unsigned(data[pos + 12..pos + 14], little))),
             pos + 14)
    else Failed(if Remaining(data, pos) in {0, 4, 8, 12} then Eof else UnexpectedEof, ShortReadPos(data, pos))
  }

  /** Offsets, from the record start, at which one of the record's reads begins; a record
      cut short exactly there fails with plain EOF. */
  function FieldStarts(format: U32, isLongObjectIds: bool): set<nat>
  {
    var w := PathIdWidth(format, isLongObjectIds);
    {0, w, w + 4, w + 8, w + 12, w + 14} + (if format >= 15 then {w + 16} else {})
  }

  /** Decode one object record: it succeeds exactly when the whole record fits after the
      alignment, and then consumes exactly that record; each field sits at a fixed offset
      from the aligned start. */
  function ObjectInfoAt(data: seq<Byte>, pos: nat, format: U32, isLongObjectIds: bool, little: bool)
    : (o: Outcome<ObjectInfo>)
    ensures var p := ObjectStart(data, pos, format);
      && p >= pos
      && (o.Parsed? <==> p + ObjectRecordSize(format, isLongObjectIds) <= |data|)
      && (o.Parsed? ==> o.pos == p + ObjectRecordSize(format, isLongObjectIds))
      && (o.Failed? ==> o.error in {Eof, UnexpectedEof} && o.pos == ShortReadPos(data, p))
  {
    var p, w := ObjectStart(data, pos, format), PathIdWidth(format, isLongObjectIds);
    if p + ObjectRecordSize(format, isLongObjectIds) <= |data| then
      var pathId := if w == 8 then AsI64(Unsigned(data[p..p + 8], little)) else AsI32(Unsigned(data[p..p + 4], little));
      Parsed(ObjectInfo(pathId, Unsigned(data[p + w..p + w + 4], little), Unsigned(data[p + w + 4..p + w + 8], little),
                        AsI32(Unsigned(data[p + w + 8..p + w + 12], little)),
                        ToClassID(AsI16(Unsigned(data[p + w + 12..p + w + 14], little)))),
             p + ObjectRecordSize(format, isLongObjectIds))
    else
      Failed(if Remaining(data, p) in FieldStarts(format, isLongObjectIds) then Eof else UnexpectedEof,
             ShortReadPos(data, p))
  }

  /** A record is its path id, then the four fields, then the trailer: it fails where the
      first of the three fails, and otherwise ends where the trailer ends. */
  lemma ObjectInfoOfParts(data: seq<Byte>, pos: nat, format: U32, isLongObjectIds: bool, little: bool)
    ensures var id := PathIdAt(data, ObjectStart(data, pos, format), format, isLongObjectIds, little);
      var o := ObjectInfoAt(data, pos, format, isLongObjectIds, little);
      && (id.Failed? ==> o == Failed(id.error, id.pos))
      && (id.Parsed? ==> var f := FieldsAt(data, id.pos, little);
           && (f.Failed? ==> o == Failed(f.error, f.pos))
           && (f.Parsed? ==> var t := TrailerAt(data, f.pos, format);
                && (t.Failed? ==> o == Failed(t.error, t.pos))
                && (t.Parsed? ==> o == Parsed(ObjectInfo(id.value, f.value.0, f.value.1, f.value.2,
                                                          ToClassID(f.value.3)), t.pos))))
  {
    var p, w := ObjectStart(data, pos, format), PathIdWidth(format, isLongObjectIds);
    if p + w + 14 <= |data| {
      ObjectTrailerCut(data, pos, format, isLongObjectIds, little);
    } else if p + w <= |data| {
      ObjectFieldsCut(data, pos, format, isLongObjectIds, little);
    }
  }

  lemma ObjectFieldsCut(data: seq<Byte>, pos: nat, format: U32, isLongObjectIds: bool, little: bool)
    requires var p, w := ObjectStart(data, pos, format), PathIdWidth(format, isLongObjectIds);
      p + w <= |data| < p + w + 14
    ensures var p, w := ObjectStart(data, pos, format), PathIdWidth(format, isLongObjectIds);
      var f := FieldsAt(data, p + w, little);
      ObjectInfoAt(data, pos, format, isLongObjectIds, little) == Failed(f.error, f.pos)
  {
    var p, w := ObjectStart(data, pos, format), PathIdWidth(format, isLongObjectIds);
    assert Remaining(data, p) == Remaining(data, p + w) + w;
  }

  lemma ObjectTrailerCut(data: seq<Byte>, pos: nat, format: U32, isLongObjectIds: bool, little: bool)
    requires var p, w := ObjectStart(data, pos, format), PathIdWidth(format, isLongObjectIds);
      p + w + 14 <= |data|
    ensures var p, w := ObjectStart(data, pos, format), PathIdWidth(format, isLongObjectIds);
      var t := TrailerAt(data, p + w + 14, format);
      t.Failed? ==> ObjectInfoAt(data, pos, format, isLongObjectIds, little) == Failed(t.error, t.pos)
  {
    var p, w := ObjectStart(data, pos, format), PathIdWidth(format, isLongObjectIds);
    assert Remaining(data, p) == Remaining(data, p + w + 14) + w + 14;
  }

  /** Read one object record from the reader: align (format 14 and later), path id, data
      offset, size, type id, class id, and the skipped trailing bytes. */
  method ParseObjectInfo(r: DataReader, format: U32, isLongObjectIds: bool, little: bool)
    returns (res: Result<ObjectInfo>)
    modifies r
    ensures AtPos(res, r.pos) == ObjectInfoAt(r.data, old(r.pos), format, isLongObjectIds, little)
  {
    ObjectInfoOfParts(r.data, r.pos, format, isLongObjectIds, little);
    if format >= 14 {
      r.Align();
    }
    var pathId :- ReadPathId(r, format, isLongObjectIds, little);
    var fields :- ReadFields(r, little);
    var (dataOffset, size, typeId, classId) := fields;
    var _ :- SkipTrailer(r, format, little);
    return Ok(ObjectInfo(pathId, dataOffset, size, typeId, ToClassID(classId)));
  }

  method ReadPathId(r: DataReader, format: U32, isLongObjectIds: bool, little: bool)
    returns (res: Result<I64>)
    modifies r
    ensures AtPos(res, r.pos) == PathIdAt(r.data, old(r.pos), format, isLongObjectIds, little)
  {
    if isLongObjectIds {
      res := r.ReadLong(little);
    } else {
      if format >= 14 {
        res := r.ReadLong(little);
      } else {
        var pathId32 :- r.ReadInt(little);
        res := Ok(pathId32);
      }
    }
  }

  method ReadFields(r: DataReader, little: bool) returns (res: Result<(U32, U32, I32, I16)>)
    modifies r
    ensures AtPos(res, r.pos) == FieldsAt(r.data, old(r.pos), little)
  {
    var dataOffset :- r.ReadUint(little);
    var size :- r.ReadUint(little);
    var typeId :- r.ReadInt(little);
    var classId :- r.ReadShort(little);
    return Ok((dataOffset, size, typeId, classId));
  }

  method SkipTrailer(r: DataReader, format: U32, little: bool) returns (res: Result<()>)
    modifies r
    ensures AtPos(res, r.pos) == TrailerAt(r.data, old(r.pos), format)
  {
    if format <= 10 {
      var _ :- r.ReadShort(little);
    } else if format >= 11 {
      var _ :- r.ReadShort(little);
      if format >= 15 {
        var _ :- r.ReadChar(little);
      }
    }
    res := Ok(());
  }
}
