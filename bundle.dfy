/** The UnityFS bundle envelope: the header, the dispatch on the player version, and the
    uncompressed block and node directory stored at the end of the file. */
module Bundle {
  import opened Wire
  import opened Results
  import opened Reader

  /** One entry of the block table. */
  datatype Block = Block(bcSize: I32, buSize: I32, bFlags: I16)

  /** One entry of the node table: a file stored in the bundle. */
  datatype Node = Node(offset: I64, size: I64, status: I32, name: seq<Byte>)

  /** The decoded directory. */
  datatype Directory = Directory(guid: seq<Byte>, blocks: seq<Block>, nodes: seq<Node>)

  datatype AssetBundle = AssetBundle(
    binary: seq<Byte>,
    signature: seq<Byte>,
    formatVersion: I32,
    engineVersion: seq<Byte>,
    playerVersion: seq<Byte>,
    fileSize: I64,
    ciBlockSize: U32,
    uiBlockSize: U32,
    flags: U32,
    compressionType: nat,
    guid: seq<Byte>,
    blocks: seq<Block>,
    nodeStartAt: I64,
    nodes: seq<Node>)

  /** "UnityFS", "5.3.3p" and "5.3.4p" as bytes. */
  const SignatureUnityFS: seq<Byte> := [0x55, 0x6e, 0x69, 0x74, 0x79, 0x46, 0x53]
  const Player533: seq<Byte> := [0x35, 0x2e, 0x33, 0x2e, 0x33, 0x70]
  const Player534: seq<Byte> := [0x35, 0x2e, 0x33, 0x2e, 0x34, 0x70]

  /** Compression types, in the order of their declaration. */
  const CompressionNone := 0
  const CompressionLZMA := 1
  const CompressionLZ4 := 2
  const CompressionLZ4HC := 3
  const CompressionLZHAM := 4

  /** The low six bits of the flags, written here as the remainder modulo 64. */
  function CompressionOf(flags: U32): (c: nat)
    ensures c < 64 && (flags - c) % 64 == 0
  {
    flags % 64
  }

  predicate HasPrefix(s: seq<Byte>, p: seq<Byte>)
  {
    |p| <= |s| && s[..|p|] == p
  }

  predicate HasSuffix(s: seq<Byte>, p: seq<Byte>)
  {
    |p| <= |s| && s[|s| - |p|..] == p
  }

  /** A negative count reads no entries. */
  function Count(n: I32): nat
  {
    if n > 0 then n else 0
  }

  // ---------------------------------------------------------------------------------------
  // Directory

  /** A block: i32 compressed size, i32 uncompressed size, i16 flags, all big-endian. A
      short block fails with plain EOF exactly at a field boundary. */
  function BlockAt(dir: seq<Byte>, pos: nat): (o: Outcome<Block>)
    ensures o.Parsed? <==> pos + 10 <= |dir|
    ensures o.Parsed? ==> o.pos == pos + 10
  {
    if pos + 10 <= |dir| then
      Parsed(Block(AsI32(Unsigned(dir[pos..pos + 4], false)), AsI32(Unsigned(dir[pos + 4..pos + 8], false)),
                   AsI16(Unsigned(dir[pos + 8..pos + 10], false))), pos + 10)
    else
      Failed(if Remaining(dir, pos) in {0, 4, 8} then Eof else UnexpectedEof, ShortReadPos(dir, pos))
  }

  /** Decode `k` blocks, appending them to `acc`. */
  function BlocksAt(dir: seq<Byte>, pos: nat, k: nat, acc: seq<Block>): (o: Outcome<seq<Block>>)
    decreases k
    ensures o.Parsed? <==> k == 0 || pos + 10 * k <= |dir|
    ensures o.Parsed? ==> o.pos == pos + 10 * k
    ensures o.Parsed? ==> |o.value| == |acc| + k && o.value[..|acc|] == acc
  {
    if k == 0 then Parsed(acc, pos)
    else
      var b :- BlockAt(dir, pos);
      var o := BlocksAt(dir, b.pos, k - 1, acc + [b.value]);
      if o.Parsed? then
        PrefixOfPrefix(o.value, acc + [b.value], acc);
        o
      else o
  }

  /** A node: i64 offset, i64 size, i32 status, then the name (at most 256 bytes), all
      big-endian. A node cut short in its fixed part fails with plain EOF exactly at a field
      boundary. */
  function NodeAt(dir: seq<Byte>, pos: nat): (o: Outcome<Node>)
    ensures o.Parsed? ==> pos + 20 < o.pos && |o.value.name| <= 256 && NoZero(o.value.name)
  {
    if pos + 20 <= |dir| then
      var name :- CStringAt(dir, pos + 20, 256);
      Parsed(Node(AsI64(Unsigned(dir[pos..pos + 8], false)), AsI64(Unsigned(dir[pos + 8..pos + 16], false)),
                  AsI32(Unsigned(dir[pos + 16..pos + 20], false)), name.value), name.pos)
    else
      Failed(if Remaining(dir, pos) in {0, 8, 16} then Eof else UnexpectedEof, ShortReadPos(dir, pos))
  }

  /** Decode `k` nodes, appending them to `acc`. */
  function NodesAt(dir: seq<Byte>, pos: nat, k: nat, acc: seq<Node>): (o: Outcome<seq<Node>>)
    decreases k
    ensures o.Parsed? ==> |o.value| == |acc| + k && o.value[..|acc|] == acc
  {
    if k == 0 then Parsed(acc, pos)
    else
      var n :- NodeAt(dir, pos);
      var o := NodesAt(dir, n.pos, k - 1, acc + [n.value]);
      if o.Parsed? then
        PrefixOfPrefix(o.value, acc + [n.value], acc);
        o
      else o
  }

  /** The directory: 16 GUID bytes, an i32 block count, the blocks, an i32 node count and
      the nodes, all big-endian. */
  function DirectoryAt(dir: seq<Byte>, pos: nat): (o: Outcome<Directory>)
    ensures o.Parsed? ==> |o.value.guid| == 16
  {
    var guid :- BytesAt(dir, pos, 16);
    var numBlocks :- I32At(dir, guid.pos, false);
    var blocks :- BlocksAt(dir, numBlocks.pos, Count(numBlocks.value), []);
    var numNodes :- I32At(dir, blocks.pos, false);
    var nodes :- NodesAt(dir, numNodes.pos, Count(numNodes.value), []);
    Parsed(Directory(guid.value, blocks.value, nodes.value), nodes.pos)
  }

  // ---------------------------------------------------------------------------------------
  // Envelope

  /** The fields every bundle starts with: signature, format version (big-endian i32),
      engine version and player version, each string at most 256 bytes. */
  datatype Preamble = Preamble(signature: seq<Byte>, formatVersion: I32, engineVersion: seq<Byte>,
                               playerVersion: seq<Byte>)

  function PreambleAt(data: seq<Byte>, pos: nat): (o: Outcome<Preamble>)
  {
    var signature :- CStringAt(data, pos, 256);
    var formatVersion :- I32At(data, signature.pos, false);
    var engineVersion :- CStringAt(data, formatVersion.pos, 256);
    var playerVersion :- CStringAt(data, engineVersion.pos, 256);
    Parsed(Preamble(signature.value, formatVersion.value, engineVersion.value, playerVersion.value),
           playerVersion.pos)
  }

  /** The UnityFS sizes: i64 file size, u32 compressed and uncompressed directory sizes and
      u32 flags, all big-endian. */
  function SizesAt(data: seq<Byte>, pos: nat): (o: Outcome<(I64, U32, U32, U32)>)
    ensures o.Parsed? <==> pos + 20 <= |data|
    ensures o.Parsed? ==> o.pos == pos + 20
  {
    var fileSize :- I64At(data, pos, false);
    var ciBlockSize :- U32At(data, fileSize.pos, false);
    var uiBlockSize :- U32At(data, ciBlockSize.pos, false);
    var flags :- U32At(data, uiBlockSize.pos, false);
    Parsed((fileSize.value, ciBlockSize.value, uiBlockSize.value, flags.value), flags.pos)
  }

  /** The bundle with its header fields filled in and the directory still empty. */
  function Envelope(data: seq<Byte>, p: Preamble, sizes: (I64, U32, U32, U32)): (b: AssetBundle)
    ensures b.binary == data && b.signature == p.signature && b.playerVersion == p.playerVersion
    ensures b.formatVersion == p.formatVersion && b.engineVersion == p.engineVersion
    ensures b.fileSize == sizes.0 && b.ciBlockSize == sizes.1 && b.uiBlockSize == sizes.2 && b.flags == sizes.3
    ensures b.compressionType == CompressionOf(sizes.3)
    ensures b.guid == [] && b.blocks == [] && b.nodes == [] && b.nodeStartAt == 0
  {
    AssetBundle(data, p.signature, p.formatVersion, p.engineVersion, p.playerVersion,
                sizes.0, sizes.1, sizes.2, sizes.3, CompressionOf(sizes.3), [], [], 0, [])
  }

  /** Decode a bundle from its bytes. A signature other than UnityFS and player version
      5.3.3p are not implemented; only 5.3.4p is decoded. */
  function BundleOf(data: seq<Byte>): (res: Result<AssetBundle>)
  {
    var p := PreambleAt(data, 0);
    if p.Failed? then Err(p.error)
    else if p.value.signature != SignatureUnityFS then Err(NotImplemented)
    else
      var sizes := SizesAt(data, p.pos);
      if sizes.Failed? then Err(sizes.error)
      else
        var b := Envelope(data, p.value, sizes.value);
        if HasPrefix(b.playerVersion, Player533) then Err(NotImplemented)
        else if HasPrefix(b.playerVersion, Player534) then Bundle534Of(data, sizes.pos, b)
        else Err(UnsupportedPlayerVersion)
  }

  /** The 5.3.4 layout: the node data starts where the header ends, counted back from the
      declared file size; only an uncompressed directory is read. */
  function Bundle534Of(data: seq<Byte>, pos: nat, b: AssetBundle): (res: Result<AssetBundle>)
  {
    if b.compressionType != CompressionNone then Err(UnsupportedCompressionType)
    else
      var d :- DirectoryOf(data, b.fileSize, b.ciBlockSize);
      Ok(b.(nodeStartAt := WrapI64(b.fileSize - Remaining(data, pos)),
            guid := d.guid, blocks := d.blocks, nodes := d.nodes))
  }

  /** Where the directory starts: `ciBlockSize` bytes before the declared end of the file,
      with 64-bit wrap-around. */
  function BlockPos(fileSize: I64, ciBlockSize: U32): I64
  {
    WrapI64(fileSize - ciBlockSize)
  }

  /** The uncompressed directory, read from the `ciBlockSize` bytes at `BlockPos`. */
  function DirectoryOf(data: seq<Byte>, fileSize: I64, ciBlockSize: U32): (res: Result<Directory>)
  {
    var blockPos := BlockPos(fileSize, ciBlockSize);
    if blockPos < 0 then Err(NegativePosition)
    else
      var dir := BytesAt(data, blockPos, ciBlockSize);
      if dir.Failed? then Err(dir.error)
      else DirectoryAt(dir.value, 0).Res()
  }

  // ---------------------------------------------------------------------------------------
  // Properties

  /** A bundle decodes only when its signature is UnityFS and its player version starts with
      "5.3.4p"; the header fields then come from the header, the directory from the last
      `ciBlockSize` bytes of the declared file. */
  lemma BundleOk(data: seq<Byte>)
    requires BundleOf(data).Ok?
    ensures var p := PreambleAt(data, 0);
      && p.Parsed? && p.value.signature == SignatureUnityFS
      && HasPrefix(p.value.playerVersion, Player534)
      && SizesAt(data, p.pos).Parsed?
      && BundleOf(data) == Bundle534Of(data, p.pos + 20, Envelope(data, p.value, SizesAt(data, p.pos).value))
  {
    var pv := PreambleAt(data, 0).value.playerVersion;
    assert Player534[4] != Player533[4];
  }

  /** A signature other than UnityFS is not implemented, whatever follows the preamble. */
  lemma OtherSignatureNotImplemented(data: seq<Byte>)
    requires PreambleAt(data, 0).Parsed? && PreambleAt(data, 0).value.signature != SignatureUnityFS
    ensures BundleOf(data) == Err(NotImplemented)
  {
  }

  /** Player version 5.3.3p is not implemented, any version other than 5.3.3p and 5.3.4p is
      unsupported. */
  lemma PlayerVersionDispatch(data: seq<Byte>)
    requires PreambleAt(data, 0).Parsed? && PreambleAt(data, 0).value.signature == SignatureUnityFS
    requires SizesAt(data, PreambleAt(data, 0).pos).Parsed?
    ensures var pv := PreambleAt(data, 0).value.playerVersion;
      && (HasPrefix(pv, Player533) ==> BundleOf(data) == Err(NotImplemented))
      && (!HasPrefix(pv, Player533) && !HasPrefix(pv, Player534) ==>
            BundleOf(data) == Err(UnsupportedPlayerVersion))
  {
  }

  /** Any compression other than none fails before a directory byte is looked at: the
      result does not depend on the buffer. */
  lemma CompressedDirectoryUnsupported(data: seq<Byte>, pos: nat, b: AssetBundle, data': seq<Byte>, pos': nat)
    requires b.compressionType != CompressionNone
    ensures Bundle534Of(data, pos, b) == Bundle534Of(data', pos', b) == Err(UnsupportedCompressionType)
  {
  }

  /** A decoded 5.3.4 bundle: it is uncompressed, the node data starts at the declared
      file size minus the bytes left after the header, the directory comes from
      `DirectoryOf`, and every other field is kept as the header set it. */
  lemma Bundle534Layout(data: seq<Byte>, pos: nat, b: AssetBundle)
    requires Bundle534Of(data, pos, b).Ok?
    ensures var d := DirectoryOf(data, b.fileSize, b.ciBlockSize);
      && b.compressionType == CompressionNone
      && d.Ok?
      && Bundle534Of(data, pos, b).value
         == b.(nodeStartAt := WrapI64(b.fileSize - Remaining(data, pos)),
               guid := d.value.guid, blocks := d.value.blocks, nodes := d.value.nodes)
  {
  }

  /** The directory is decoded (big-endian) from the `ciBlockSize` bytes that start
      `ciBlockSize` bytes before the declared end of the file, which must lie inside the
      buffer; a start before the buffer is a negative position. */
  lemma DirectoryLocation(data: seq<Byte>, fileSize: I64, ciBlockSize: U32)
    ensures var blockPos := BlockPos(fileSize, ciBlockSize);
      var d := DirectoryOf(data, fileSize, ciBlockSize);
      && (blockPos < 0 ==> d == Err(NegativePosition))
      && (d.Ok? ==> 0 <= blockPos && 24 <= ciBlockSize && blockPos + ciBlockSize <= |data|)
      && (0 <= blockPos && 0 < ciBlockSize && blockPos + ciBlockSize <= |data| ==>
            d == DirectoryAt(data[blockPos..blockPos + ciBlockSize], 0).Res())
  {
    var blockPos := BlockPos(fileSize, ciBlockSize);
    var d := DirectoryOf(data, fileSize, ciBlockSize);
    if d.Ok? {
      var dir := BytesAt(data, blockPos, ciBlockSize).value;
      DirectoryCounts(dir, 0);
    }
  }

  /** The directory holds max(count, 0) blocks of 10 bytes and max(count, 0) nodes, each
      count read big-endian right before its table. */
  lemma DirectoryCounts(dir: seq<Byte>, pos: nat)
    requires DirectoryAt(dir, pos).Parsed?
    ensures var d := DirectoryAt(dir, pos).value;
      && pos + 20 <= |dir|
      && d.guid == dir[pos..pos + 16]
      && |d.blocks| == Count(I32At(dir, pos + 16, false).value)
      && |d.nodes| == Count(I32At(dir, pos + 20 + 10 * |d.blocks|, false).value)
  {
    var n := Count(I32At(dir, pos + 16, false).value);
    var q := pos + 20 + 10 * n;
    assert BlocksAt(dir, pos + 20, n, []).pos == q;
  }

  /** Block `j` of a table is the one that starts `10 * j` bytes in. */
  lemma BlocksAtOffsets(dir: seq<Byte>, pos: nat, k: nat, j: nat)
    requires BlocksAt(dir, pos, k, []).Parsed? && j < k
    ensures BlocksAt(dir, pos, k, []).value[j] == BlockAt(dir, pos + 10 * j).value
  {
    var o := BlocksAt(dir, pos, k, []);
    BlockAtOffset(dir, pos, k, [], o.value, o.pos, j, pos + 10 * j);
  }

  lemma {:induction false} BlockAtOffset(dir: seq<Byte>, pos: nat, k: nat, acc: seq<Block>,
                                         v: seq<Block>, end: nat, j: nat, q: nat)
    requires BlocksAt(dir, pos, k, acc) == Parsed(v, end) && j < k && q == pos + 10 * j
    ensures v[|acc| + j] == BlockAt(dir, q).value
    decreases k
  {
    assert pos + 10 <= pos + 10 * k <= |dir|;
    var b := BlockAt(dir, pos);
    var acc' := acc + [b.value];
    BlocksStep(dir, pos, pos + 10, k, k - 1, acc);
    if j > 0 {
      assert q == pos + 10 + 10 * (j - 1);
      BlockAtOffset(dir, pos + 10, k - 1, acc', v, end, j - 1, q);
      assert |acc'| + (j - 1) == |acc| + j;
      assert v[|acc| + j] == BlockAt(dir, q).value;
    } else {
      BlocksPrefix(dir, pos + 10, k - 1, acc', |acc|);
      assert acc'[|acc|] == b.value;
      assert v[|acc| + j] == BlockAt(dir, q).value;
    }
  }

  lemma BlocksStep(dir: seq<Byte>, pos: nat, next: nat, k: nat, k': nat, acc: seq<Block>)
    requires k > 0 && k' == k - 1 && pos + 10 <= |dir| && next == pos + 10
    ensures BlocksAt(dir, pos, k, acc) == BlocksAt(dir, next, k', acc + [BlockAt(dir, pos).value])
  {
  }

  lemma BlocksPrefix(dir: seq<Byte>, pos: nat, k: nat, acc: seq<Block>, i: nat)
    requires BlocksAt(dir, pos, k, acc).Parsed? && i < |acc|
    ensures BlocksAt(dir, pos, k, acc).value[i] == acc[i]
  {
    var v := BlocksAt(dir, pos, k, acc).value;
    assert v[..|acc|][i] == v[i];
  }

  lemma NodesStep(dir: seq<Byte>, pos: nat, next: nat, k: nat, k': nat, acc: seq<Node>, n: Node)
    requires k > 0 && k' == k - 1 && NodeAt(dir, pos) == Parsed(n, next)
    ensures NodesAt(dir, pos, k, acc) == NodesAt(dir, next, k', acc + [n])
  {
  }

  lemma DirectoryOfSlice(data: seq<Byte>, fileSize: I64, ciBlockSize: U32, dir: seq<Byte>)
    requires BlockPos(fileSize, ciBlockSize) >= 0
    requires BytesAt(data, BlockPos(fileSize, ciBlockSize), ciBlockSize).Parsed?
    requires BytesAt(data, BlockPos(fileSize, ciBlockSize), ciBlockSize).value == dir
    ensures DirectoryOf(data, fileSize, ciBlockSize) == DirectoryAt(dir, 0).Res()
  {
  }

  lemma NodesStop(dir: seq<Byte>, pos: nat, k: nat, acc: seq<Node>)
    requires k > 0 && NodeAt(dir, pos).Failed?
    ensures NodesAt(dir, pos, k, acc) == Failed(NodeAt(dir, pos).error, NodeAt(dir, pos).pos)
  {
  }

  // ---------------------------------------------------------------------------------------
  // Reading through a DataReader

  method ReadBlock(r: DataReader) returns (res: Result<Block>)
    modifies r
    ensures AtPos(res, r.pos) == BlockAt(r.data, old(r.pos))
  {
    var bcSize :- r.ReadInt(false);
    var buSize :- r.ReadInt(false);
    var bFlags :- r.ReadShort(false);
    return Ok(Block(bcSize, buSize, bFlags));
  }

  /** Read `k` blocks in order. */
  method ReadBlocks(r: DataReader, k: nat) returns (res: Result<seq<Block>>)
    modifies r
    ensures AtPos(res, r.pos) == BlocksAt(r.data, old(r.pos), k, [])
  {
    var blocks := [];
    var i := 0;
    ghost var whole := BlocksAt(r.data, r.pos, k - i, blocks);
    while i < k
      invariant i <= k
      invariant whole == BlocksAt(r.data, r.pos, k - i, blocks)
    {
      ghost var p, left := r.pos, k - i;
      var b := ReadBlock(r);
      if b.Err? {
        return Err(b.error);
      }
      BlocksStep(r.data, p, r.pos, left, left - 1, blocks);
      blocks := blocks + [b.value];
      i := i + 1;
    }
    return Ok(blocks);
  }

  method ReadNode(r: DataReader) returns (res: Result<Node>)
    modifies r
    ensures AtPos(res, r.pos) == NodeAt(r.data, old(r.pos))
  {
    var offset :- r.ReadLong(false);
    var size :- r.ReadLong(false);
    var status :- r.ReadInt(false);
    var name :- r.ReadStringNull(256);
    return Ok(Node(offset, size, status, name));
  }

  /** Read `k` nodes in order. */
  method ReadNodes(r: DataReader, k: nat) returns (res: Result<seq<Node>>)
    modifies r
    ensures AtPos(res, r.pos) == NodesAt(r.data, old(r.pos), k, [])
  {
    var nodes := [];
    var i := 0;
    ghost var whole := NodesAt(r.data, r.pos, k - i, nodes);
    while i < k
      invariant i <= k
      invariant whole == NodesAt(r.data, r.pos, k - i, nodes)
    {
      ghost var p, left := r.pos, k - i;
      var n := ReadNode(r);
      if n.Err? {
        assert NodeAt(r.data, p) == Failed(n.error, r.pos);
        NodesStop(r.data, p, left, nodes);
        return Err(n.error);
      }
      assert NodeAt(r.data, p) == Parsed(n.value, r.pos);
      NodesStep(r.data, p, r.pos, left, left - 1, nodes, n.value);
      nodes := nodes + [n.value];
      i := i + 1;
    }
    assert whole == Parsed(nodes, r.pos);
    return Ok(nodes);
  }

  method ReadDirectory(r: DataReader) returns (res: Result<Directory>)
    modifies r
    ensures AtPos(res, r.pos) == DirectoryAt(r.data, old(r.pos))
  {
    var guid :- r.ReadBytes(16, false);
    var numBlocks :- r.ReadInt(false);
    var blocks :- ReadBlocks(r, Count(numBlocks));
    var numNodes :- r.ReadInt(false);
    var nodes :- ReadNodes(r, Count(numNodes));
    return Ok(Directory(guid, blocks, nodes));
  }

  /** The 5.3.4 layout through the reader: seek to the directory, cut it into a reader of
      its own and decode it; a compressed directory is not supported. */
  method ParseBundle534(r: DataReader, b: AssetBundle) returns (res: Result<AssetBundle>)
    modifies r
    ensures res == Bundle534Of(r.data, old(r.pos), b)
  {
    var left := r.Len();
    var nodeStartAt := WrapI64(b.fileSize - left);
    if b.compressionType != CompressionNone {
      return Err(UnsupportedCompressionType);
    }
    var d := ReadUncompressedDirectory(r, b.fileSize, b.ciBlockSize);
    if d.Err? {
      return Err(d.error);
    }
    return Ok(b.(nodeStartAt := nodeStartAt, guid := d.value.guid, blocks := d.value.blocks,
                 nodes := d.value.nodes));
  }

  /** Seek to the directory, cut it into a reader of its own and decode it. */
  method ReadUncompressedDirectory(r: DataReader, fileSize: I64, ciBlockSize: U32)
    returns (res: Result<Directory>)
    modifies r
    ensures res == DirectoryOf(r.data, fileSize, ciBlockSize)
  {
    var blockPos := WrapI64(fileSize - ciBlockSize);
    var s := r.Seek(blockPos, SeekStart);
    if s.Err? {
      return Err(s.error);
    }
    assert r.pos == blockPos;
    var c := r.ReNew(ciBlockSize, false);
    if c.Err? {
      return Err(c.error);
    }
    ghost var dir := c.value.data;
    DirectoryOfSlice(r.data, fileSize, ciBlockSize, dir);
    res := ReadDirectory(c.value);
    ResOfAtPos(res, c.value.pos, DirectoryAt(dir, 0));
  }

  method ReadPreamble(r: DataReader) returns (res: Result<Preamble>)
    modifies r
    ensures AtPos(res, r.pos) == PreambleAt(r.data, old(r.pos))
  {
    var signature :- r.ReadStringNull(256);
    var formatVersion :- r.ReadInt(false);
    var engineVersion :- r.ReadStringNull(256);
    var playerVersion :- r.ReadStringNull(256);
    return Ok(Preamble(signature, formatVersion, engineVersion, playerVersion));
  }

  method ReadSizes(r: DataReader) returns (res: Result<(I64, U32, U32, U32)>)
    modifies r
    ensures AtPos(res, r.pos) == SizesAt(r.data, old(r.pos))
  {
    var fileSize :- r.ReadLong(false);
    var ciBlockSize :- r.ReadUint(false);
    var uiBlockSize :- r.ReadUint(false);
    var flags :- r.ReadUint(false);
    return Ok((fileSize, ciBlockSize, uiBlockSize, flags));
  }

  /** Decode a bundle held in memory (the file has already been read into `data`). The
      unimplemented paths, which abort the program, end here with `NotImplemented`. */
  method ParseBundle(data: seq<Byte>) returns (res: Result<AssetBundle>)
    ensures res == BundleOf(data)
  {
    var r := new DataReader(data);
    var p :- ReadPreamble(r);
    if p.signature != SignatureUnityFS {
      return Err(NotImplemented);
    }
    var sizes :- ReadSizes(r);
    var b := Envelope(data, p, sizes);
    if HasPrefix(b.playerVersion, Player533) {
      return Err(NotImplemented);
    } else if HasPrefix(b.playerVersion, Player534) {
      res := ParseBundle534(r, b);
    } else {
      return Err(UnsupportedPlayerVersion);
    }
  }
}
