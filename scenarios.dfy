/** The concrete situations the test modules set up, replayed on the model.
    Random test data becomes a parameter of the stated length. */
module Scenarios {
  import opened Common
  import opened Progress
  import opened Chunking
  import opened BlockBlobs
  import opened ShareFiles

  const AAA: seq<byte> := [65, 65, 65]
  const BBB: seq<byte> := [66, 66, 66]
  const CCC: seq<byte> := [67, 67, 67]

  /** The bytes of `"block " + str(i)` for a one-digit `i`. */
  function BlockText(i: nat): (r: seq<byte>)
    requires i < 10
    ensures |r| == 7
  {
    [98, 108, 111, 99, 107, 32, (48 + i) as byte]
  }

  // ---- block blobs ----

  /** Stage `AAA`, `BBB`, `CCC` under ids "1", "2", "3" on `blob`. */
  method StageThree(blob: BlockBlob)
    requires blob.Valid() && blob.committed == [] && blob.uncommitted == []
    modifies blob
    ensures blob.Valid() && blob.committed == [] && blob.content == old(blob.content)
    ensures blob.uncommitted == Staged()
  {
    blob.PutBlock(AAA, "1");
    WithoutAbsent(blob.uncommitted, "2");
    blob.PutBlock(BBB, "2");
    WithoutAbsent(blob.uncommitted, "3");
    blob.PutBlock(CCC, "3");
  }

  /** Five `put_block` calls with ids 0..4 leave five uncommitted blocks in
      put order, each of its own size, and nothing committed. */
  method PutFiveBlocks() returns (committedBlocks: seq<BlockInfo>, uncommittedBlocks: seq<BlockInfo>)
    ensures committedBlocks == []
    ensures |uncommittedBlocks| == 5
    ensures forall i :: 0 <= i < 5 ==> uncommittedBlocks[i] == BlockInfo(Decimal(i), 7)
  {
    var blob := new BlockBlob();
    var i := 0;
    while i < 5
      invariant 0 <= i <= 5 && blob.Valid() && blob.committed == []
      invariant |blob.uncommitted| == i
      invariant forall k :: 0 <= k < i ==> blob.uncommitted[k] == Block(Decimal(k), BlockText(k))
    {
      forall b | b in blob.uncommitted
        ensures b.id != Decimal(i)
      {
        var k :| 0 <= k < i && blob.uncommitted[k] == b;
        DecimalInjective(k, i);
      }
      WithoutAbsent(blob.uncommitted, Decimal(i));
      blob.PutBlock(BlockText(i), Decimal(i));
      i := i + 1;
    }
    committedBlocks, uncommittedBlocks := blob.GetBlockList();
  }

  /** A freshly created empty blob lists no blocks. */
  method EmptyBlobBlocks() returns (committedBlocks: seq<BlockInfo>, uncommittedBlocks: seq<BlockInfo>)
    ensures committedBlocks == [] && uncommittedBlocks == []
  {
    var blob := new BlockBlob();
    var r := blob.CreateFromBytes([], 0, None, 1, [], BLOB_MAX_CHUNK_DATA_SIZE, BLOB_MAX_DATA_SIZE);
    committedBlocks, uncommittedBlocks := blob.GetBlockList();
  }

  /** Three staged blocks are listed uncommitted, in put order, of size 3. */
  method StagedBlocks() returns (committedBlocks: seq<BlockInfo>, uncommittedBlocks: seq<BlockInfo>)
    ensures committedBlocks == []
    ensures uncommittedBlocks == [BlockInfo("1", 3), BlockInfo("2", 3), BlockInfo("3", 3)]
  {
    var blob := new BlockBlob();
    StageThree(blob);
    committedBlocks, uncommittedBlocks := blob.GetBlockList();
  }

  /** The three staged blocks, in put order. */
  function Staged(): seq<Block>
  {
    [Block("1", AAA), Block("2", BBB), Block("3", CCC)]
  }

  /** Each of the ids "1", "2", "3" names its own staged block. */
  lemma StagedLookups()
    ensures Latest(Staged(), [], "1") == Some(Block("1", AAA))
    ensures Latest(Staged(), [], "2") == Some(Block("2", BBB))
    ensures Latest(Staged(), [], "3") == Some(Block("3", CCC))
    ensures AllStaged(["1", "2", "3"], Staged(), [])
  {
    var ids: seq<BlockId> := ["1", "2", "3"];
    assert ids[0] == "1" && ids[1] == "2" && ids[2] == "3";
    assert Staged()[1..] == [Block("2", BBB), Block("3", CCC)];
    assert Staged()[1..][1..] == [Block("3", CCC)];
    assert Latest(Staged(), [], "1") == Some(Block("1", AAA));
    assert Latest(Staged(), [], "2") == Some(Block("2", BBB));
    assert Latest(Staged(), [], "3") == Some(Block("3", CCC));
    forall i | 0 <= i < |ids|
      ensures Latest(Staged(), [], ids[i]).Some?
    {
      if i == 0 {
      } else if i == 1 {
      } else {
      }
    }
  }

  /** The three blocks concatenate to `AAABBBCCC`. */
  lemma StagedConcat()
    ensures Concat(Staged()) == AAA + BBB + CCC
  {
    ConcatSnoc([], Block("1", AAA));
    assert Concat([]) == [];
    assert [Block("1", AAA)] == [] + [Block("1", AAA)];
    ConcatSnoc([Block("1", AAA)], Block("2", BBB));
    assert [Block("1", AAA), Block("2", BBB)] == [Block("1", AAA)] + [Block("2", BBB)];
    ConcatSnoc([Block("1", AAA), Block("2", BBB)], Block("3", CCC));
    assert Staged() == [Block("1", AAA), Block("2", BBB)] + [Block("3", CCC)];
  }

  /** Committing `["1", "2", "3"]` makes the content `AAABBBCCC`, lists the
      three blocks as committed and none as uncommitted. */
  method CommitThree() returns (r: Outcome, content: seq<byte>,
                                committedBlocks: seq<BlockInfo>, uncommittedBlocks: seq<BlockInfo>)
    ensures r == Pass && content == AAA + BBB + CCC
    ensures committedBlocks == [BlockInfo("1", 3), BlockInfo("2", 3), BlockInfo("3", 3)]
    ensures uncommittedBlocks == []
  {
    var blob := new BlockBlob();
    StageThree(blob);
    r := CommitStaged(blob);
    content := blob.content;
    committedBlocks, uncommittedBlocks := blob.GetBlockList();
  }

  /** `put_block_list(["1", "2", "3"])` on the three staged blocks. */
  method CommitStaged(blob: BlockBlob) returns (r: Outcome)
    requires blob.Valid() && blob.uncommitted == Staged() && blob.committed == []
    modifies blob
    ensures blob.Valid() && r == Pass && blob.committed == Staged() && blob.uncommitted == []
    ensures blob.content == AAA + BBB + CCC
  {
    StagedLookups();
    r := blob.PutBlockList(["1", "2", "3"]);
    StagedResolve(blob.committed);
    StagedConcat();
  }

  /** The blocks the list `["1", "2", "3"]` resolves to are the staged ones. */
  lemma StagedResolve(blocks: seq<Block>)
    requires |blocks| == 3
    requires forall i :: 0 <= i < 3 ==> blocks[i] == Latest(Staged(), [], ["1", "2", "3"][i]).value
    ensures blocks == Staged()
  {
    var ids: seq<BlockId> := ["1", "2", "3"];
    assert ids[0] == "1" && ids[1] == "2" && ids[2] == "3";
    StagedLookups();
    assert blocks[0] == Block("1", AAA);
    assert blocks[1] == Block("2", BBB);
    assert blocks[2] == Block("3", CCC);
    ThreeBlocks(blocks, Block("1", AAA), Block("2", BBB), Block("3", CCC));
  }

  lemma ThreeBlocks(blocks: seq<Block>, a: Block, b: Block, c: Block)
    requires |blocks| == 3 && blocks[0] == a && blocks[1] == b && blocks[2] == c
    ensures blocks == [a, b, c]
  {
  }

  /** A block list naming the never-staged id "4" is refused and commits nothing. */
  method CommitUnknownId() returns (r: Outcome, committedBlocks: seq<BlockInfo>, content: seq<byte>)
    ensures r == Fail(InvalidBlockList) && committedBlocks == [] && content == []
  {
    var blob := new BlockBlob();
    StageThree(blob);
    assert Latest(blob.uncommitted, [], "4") == None;
    r := blob.PutBlockList(["1", "2", "4"]);
    content := blob.content;
    var uncommittedBlocks;
    committedBlocks, uncommittedBlocks := blob.GetBlockList();
  }

  /** A bytes upload of at most the threshold is one put whose progress is
      `[(0, n), (n, n)]`; above it the content is still the payload, and a
      sequential upload reports the helper's list against `len(data)`. */
  method BlobBytesUpload(data: seq<byte>, maxConnections: nat, order: seq<nat>)
    returns (r: Result<seq<Event>>, content: seq<byte>)
    requires maxConnections > 1 ==> IsOrder(order, |Plan(|data|, BLOB_MAX_CHUNK_DATA_SIZE)|)
    ensures r.Ok? && content == data
    ensures |data| <= BLOB_MAX_DATA_SIZE ==> r.value == [Event(0, Some(|data|)), Event(|data|, Some(|data|))]
    ensures |data| > BLOB_MAX_DATA_SIZE && maxConnections <= 1 ==>
      r.value == UploadProgress(|data|, BLOB_MAX_CHUNK_DATA_SIZE, Some(|data|))
  {
    var blob := new BlockBlob();
    assert BytesPayload(data, 0, None) == data;
    SequentialProgress(|data|, BLOB_MAX_CHUNK_DATA_SIZE, Some(|data|));
    r := blob.CreateFromBytes(data, 0, None, maxConnections, order, BLOB_MAX_CHUNK_DATA_SIZE, BLOB_MAX_DATA_SIZE);
    content := blob.content;
  }

  // ---- share files ----

  /** `_create_file`: a file created from the 1024 bytes `initial`. */
  method CreateShortFile(initial: seq<byte>) returns (file: ShareFile)
    requires |initial| == 1024
    ensures fresh(file) && fresh(file.data) && fresh(file.written)
    ensures file.Valid() && file.Contents() == initial
  {
    file := new ShareFile(0);
    assert BytesPayload(initial, 0, None) == initial;
    var r := file.CreateFromBytes(initial, 0, None, 1, [], FILE_MAX_CHUNK_DATA_SIZE);
  }

  /** `update_range(data, 0, 511)` on a 1024-byte file: the first 512 bytes
      are `data`, the rest are as before. */
  method UpdateFirstRange(initial: seq<byte>, data: seq<byte>) returns (content: seq<byte>)
    requires |initial| == 1024 && |data| == 512
    ensures |content| == 1024 && content[..512] == data && content[512..] == initial[512..]
  {
    var file := CreateShortFile(initial);
    var r := file.UpdateRange(data, 0, 511);
    content := file.Contents();
  }

  /** `clear_range(0, 511)` on a 1024-byte file: the first 512 bytes are
      zero, the rest are as before. */
  method ClearFirstRange(initial: seq<byte>) returns (content: seq<byte>)
    requires |initial| == 1024
    ensures |content| == 1024 && content[..512] == Zeros(512) && content[512..] == initial[512..]
  {
    var file := CreateShortFile(initial);
    var r := file.ClearRange(0, 511);
    content := file.Contents();
  }

  /** `resize_file(5)`: the file is 5 bytes long, the first 5 as before. */
  method ResizeToFive(initial: seq<byte>) returns (content: seq<byte>)
    requires |initial| == 1024
    ensures |content| == 5 && content == initial[..5]
  {
    var file := CreateShortFile(initial);
    file.Resize(5);
    content := file.Contents();
  }

  /** A file created with `create_file(1024)` lists no ranges. */
  method NoRanges() returns (ranges: seq<Range>)
    ensures ranges == []
  {
    var file := new ShareFile(1024);
    NoRangesWhenUnwritten(1024);
    ranges := file.ListRanges();
  }

  /** Writing `[0, 511]` and `[1024, 1535]` of a 2048-byte file lists
      exactly those two ranges, in order. */
  method TwoRanges(data: seq<byte>) returns (ranges: seq<Range>)
    requires |data| == 512
    ensures ranges == [Range(0, 511), Range(1024, 1535)]
  {
    var file := new ShareFile(2048);
    var r1 := file.UpdateRange(data, 0, 511);
    var r2 := file.UpdateRange(data, 1024, 1535);
    ranges := file.ListRanges();
    var w := file.Written();
    assert forall p :: 0 <= p < 2048 ==> w[p] == (p < 512 || 1024 <= p < 1536);
    TakeRun(w, 0, 512);
    SkipUnwritten(w, 512, 1024);
    TakeRun(w, 1024, 1536);
    SkipUnwritten(w, 1536, 2048);
  }

  /** `get_file_to_bytes(start_range = s, end_range = e)` on the 1024-byte
      file returns `initial[s:e + 1]`, with or without a range MD5. */
  method GetRange(initial: seq<byte>, s: nat, e: nat, md5: bool) returns (r: Result<Transfer>)
    requires |initial| == 1024 && s <= e < 1024
    ensures r.Ok? && r.value.content == initial[s..e + 1]
  {
    var file := CreateShortFile(initial);
    InclusiveEnd(initial, s, e, md5);
    r := file.Download(false, 1, Some(s), Some(e), md5, [], FILE_MAX_CHUNK_DATA_SIZE, FILE_MAX_DATA_SIZE);
  }

  /** A range MD5 with a start but no end is refused before any transfer. */
  method Md5WithoutEnd(initial: seq<byte>, order: seq<nat>) returns (r: Result<Transfer>)
    requires |initial| == 1024
    ensures r == Err(MissingEndRange)
  {
    var file := CreateShortFile(initial);
    r := file.Download(true, 5, Some(1), None, true, order, FILE_MAX_CHUNK_DATA_SIZE, FILE_MAX_DATA_SIZE);
  }

  /** `create_file_from_stream(stream, file_size)` with one connection stores
      the first `file_size` bytes and reports the helper's list ending at
      `(file_size, file_size)`. */
  method TruncatedStreamUpload(stream: seq<byte>, fileSize: nat) returns (content: seq<byte>, progress: seq<Event>)
    requires fileSize <= |stream|
    ensures content == stream[..fileSize]
    ensures progress == UploadProgress(fileSize, FILE_MAX_CHUNK_DATA_SIZE, Some(fileSize))
    ensures progress[|progress| - 1] == Event(fileSize, Some(fileSize))
  {
    var file := new ShareFile(0);
    SequentialProgress(fileSize, FILE_MAX_CHUNK_DATA_SIZE, Some(fileSize));
    var r := file.CreateFromStream(stream, fileSize, false, 1, [], FILE_MAX_CHUNK_DATA_SIZE);
    content := file.Contents();
    progress := r.value;
    UploadProgressEnds(fileSize, FILE_MAX_CHUNK_DATA_SIZE, Some(fileSize));
  }
}
