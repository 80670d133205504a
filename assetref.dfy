/** A reference to an asset stored in another file. */
module AssetRefs {
  import opened Wire
  import opened Results
  import opened Reader

  datatype AssetRef = AssetRef(assetPath: seq<Byte>, guid: seq<Byte>, refType: I32, filePath: seq<Byte>)

  /** Decode a reference: asset path (at most 256 bytes to a terminator), 16 GUID bytes,
      a 32-bit type in the given byte order, file path. The format version plays no part. */
  function AssetRefAt(data: seq<Byte>, pos: nat, little: bool): (o: Outcome<AssetRef>)
    ensures o.Parsed? ==> |o.value.guid| == 16
    ensures o.Parsed? ==> |o.value.assetPath| <= 256 && NoZero(o.value.assetPath)
    ensures o.Parsed? ==> |o.value.filePath| <= 256 && NoZero(o.value.filePath)
  {
    var assetPath :- CStringAt(data, pos, 256);
    var guid :- BytesAt(data, assetPath.pos, 16);
    var refType :- I32At(data, guid.pos, little);
    var filePath :- CStringAt(data, refType.pos, 256);
    Parsed(AssetRef(assetPath.value, guid.value, refType.value, filePath.value), filePath.pos)
  }

  /** A reference decodes exactly when its asset path does, the 20 bytes of GUID and type
      follow it, and so does a file path. */
  lemma AssetRefSucceeds(data: seq<Byte>, pos: nat, little: bool)
    ensures var a := CStringAt(data, pos, 256);
      AssetRefAt(data, pos, little).Parsed? <==>
        a.Parsed? && a.pos + 20 <= |data| && CStringAt(data, a.pos + 20, 256).Parsed?
  {
    var a := CStringAt(data, pos, 256);
    if a.Parsed? && a.pos + 20 <= |data| {
      AssetRefLayout(data, pos, little);
    }
  }

  /** Where the fields of a reference come from: the GUID and the type sit right after the
      asset path's terminator, the file path right after them. */
  lemma AssetRefLayout(data: seq<Byte>, pos: nat, little: bool)
    requires CStringAt(data, pos, 256).Parsed? && CStringAt(data, pos, 256).pos + 20 <= |data|
    ensures var a := CStringAt(data, pos, 256);
      var o := AssetRefAt(data, pos, little);
      var f := CStringAt(data, a.pos + 20, 256);
      && (o.Parsed? <==> f.Parsed?)
      && (o.Parsed? ==>
            && o.value.assetPath == a.value
            && o.value.guid == data[a.pos..a.pos + 16]
            && o.value.refType == AsI32(Unsigned(data[a.pos + 16..a.pos + 20], little))
            && o.value.filePath == f.value && o.pos == f.pos)
  {
    var a := CStringAt(data, pos, 256);
    var g := BytesAt(data, a.pos, 16);
    var t := I32At(data, a.pos + 16, little);
    var f := CStringAt(data, a.pos + 20, 256);
    assert g == Parsed(data[a.pos..a.pos + 16], a.pos + 16);
    assert t.Parsed? && t.pos == a.pos + 20;
    if f.Parsed? {
      assert AssetRefAt(data, pos, little) == Parsed(AssetRef(a.value, g.value, t.value, f.value), f.pos);
    } else {
      assert AssetRefAt(data, pos, little) == Failed(f.error, f.pos);
    }
  }

  /** A reference that its own encoding can carry: paths shorter than the limit and without
      0x00 bytes, and a 16-byte GUID. */
  predicate Encodable(a: AssetRef)
  {
    |a.assetPath| < 256 && NoZero(a.assetPath) && |a.guid| == 16
    && |a.filePath| < 256 && NoZero(a.filePath)
  }

  function EncodeAssetRef(a: AssetRef, little: bool): seq<Byte>
    requires |a.guid| == 16
  {
    a.assetPath + [0] + a.guid + Encode(AsU32(a.refType), 4, little) + a.filePath + [0]
  }

  /** Decoding an encoded reference, wherever it sits in a buffer, gives it back and stops
      right after it. */
  lemma AssetRefRoundTrip(prefix: seq<Byte>, a: AssetRef, suffix: seq<Byte>, little: bool)
    requires Encodable(a)
    ensures var e := EncodeAssetRef(a, little);
      AssetRefAt(prefix + e + suffix, |prefix|, little) == Parsed(a, |prefix| + |e|)
  {
    var e := EncodeAssetRef(a, little);
    var data := prefix + e + suffix;
    EncodedParts(data, prefix, a, suffix, little);
    AssetRefOfParts(data, |prefix|, a, little);
    assert |prefix| + |a.assetPath| + |a.filePath| + 22 == |prefix| + |e|;
  }

  /** `s` lies in `data` from `q` on. */
  predicate SliceAt(data: seq<Byte>, q: nat, s: seq<Byte>)
  {
    q + |s| <= |data| && data[q..q + |s|] == s
  }

  /** `s` lies in `data` from `q` on and is followed by a 0x00 byte. */
  predicate TerminatedAt(data: seq<Byte>, q: nat, s: seq<Byte>)
  {
    SliceAt(data, q, s) && q + |s| < |data| && data[q + |s|] == 0
  }

  /** A reference whose fields lie at their places in the buffer reads back. */
  lemma AssetRefOfParts(data: seq<Byte>, p0: nat, a: AssetRef, little: bool)
    requires Encodable(a)
    requires var p1 := p0 + |a.assetPath| + 1;
      var p2 := p1 + 20;
      && TerminatedAt(data, p0, a.assetPath)
      && SliceAt(data, p1, a.guid)
      && SliceAt(data, p1 + 16, Encode(AsU32(a.refType), 4, little))
      && TerminatedAt(data, p2, a.filePath)
    ensures AssetRefAt(data, p0, little) == Parsed(a, p0 + |a.assetPath| + |a.filePath| + 22)
  {
    var p1 := p0 + |a.assetPath| + 1;
    CStringOfSlice(data, p0, a.assetPath);
    AssetRefTailOfParts(data, p0, a, little);
  }

  /** The part after the asset path: GUID, type and file path at their places read back. */
  lemma AssetRefTailOfParts(data: seq<Byte>, p0: nat, a: AssetRef, little: bool)
    requires Encodable(a)
    requires var p1 := p0 + |a.assetPath| + 1;
      && CStringAt(data, p0, 256) == Parsed(a.assetPath, p1)
      && SliceAt(data, p1, a.guid)
      && SliceAt(data, p1 + 16, Encode(AsU32(a.refType), 4, little))
      && TerminatedAt(data, p1 + 20, a.filePath)
    ensures AssetRefAt(data, p0, little) == Parsed(a, p0 + |a.assetPath| + |a.filePath| + 22)
  {
    var p1 := p0 + |a.assetPath| + 1;
    BytesOfSlice(data, p1, a.guid);
    I32OfEncode(data, p1 + 16, a.refType, little);
    CStringOfSlice(data, p1 + 20, a.filePath);
    AssetRefAtOfParts(data, p0, little, a, p1, p1 + 20 + |a.filePath| + 1);
  }

  lemma CStringOfSlice(data: seq<Byte>, q: nat, s: seq<Byte>)
    requires NoZero(s) && |s| < 256 && TerminatedAt(data, q, s)
    ensures CStringAt(data, q, 256) == Parsed(s, q + |s| + 1)
  {
    CStringAtTerminated(data, q, 256, |s|);
  }

  lemma BytesOfSlice(data: seq<Byte>, q: nat, g: seq<Byte>)
    requires SliceAt(data, q, g)
    ensures BytesAt(data, q, |g|) == Parsed(g, q + |g|)
  {
  }

  lemma I32OfEncode(data: seq<Byte>, q: nat, x: I32, little: bool)
    requires SliceAt(data, q, Encode(AsU32(x), 4, little))
    ensures I32At(data, q, little) == Parsed(x, q + 4)
  {
    UnsignedOfEncode(AsU32(x), 4, little);
  }

  /** Where each field of an encoded reference lies in the buffer that holds it. */
  lemma EncodedParts(data: seq<Byte>, prefix: seq<Byte>, a: AssetRef, suffix: seq<Byte>, little: bool)
    requires Encodable(a)
    requires data == prefix + EncodeAssetRef(a, little) + suffix
    ensures var p0 := |prefix|;
      var p1 := p0 + |a.assetPath| + 1;
      var p2 := p1 + 20;
      && |EncodeAssetRef(a, little)| == p2 + |a.filePath| + 1 - p0
      && TerminatedAt(data, p0, a.assetPath)
      && SliceAt(data, p1, a.guid)
      && SliceAt(data, p1 + 16, Encode(AsU32(a.refType), 4, little))
      && TerminatedAt(data, p2, a.filePath)
  {
  }

  /** The reads of a reference in sequence, one step at a time. */
  lemma AssetRefAtOfParts(data: seq<Byte>, pos: nat, little: bool, a: AssetRef, p1: nat, end: nat)
    requires CStringAt(data, pos, 256) == Parsed(a.assetPath, p1)
    requires BytesAt(data, p1, 16) == Parsed(a.guid, p1 + 16)
    requires I32At(data, p1 + 16, little) == Parsed(a.refType, p1 + 20)
    requires CStringAt(data, p1 + 20, 256) == Parsed(a.filePath, end)
    ensures AssetRefAt(data, pos, little) == Parsed(a, end)
  {
  }

  /** Read one reference through the reader. */
  method ParseAssetRef(r: DataReader, format: U32, little: bool) returns (res: Result<AssetRef>)
    modifies r
    ensures AtPos(res, r.pos) == AssetRefAt(r.data, old(r.pos), little)
  {
    var assetPath :- r.ReadStringNull(256);
    var guid :- r.ReadBytes(16, little);
    var refType :- r.ReadInt(little);
    var filePath :- r.ReadStringNull(256);
    return Ok(AssetRef(assetPath, guid, refType, filePath));
  }
}
