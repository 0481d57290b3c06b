/** A block blob as the block blob tests observe it: blocks are staged
    under an id, a block list commits staged blocks in list order, and the
    chunked upload stages one block per chunk before committing them all. */
module BlockBlobs {
  import opened Common
  import opened Progress
  import opened Chunking

  type BlockId = string

  /** A staged or committed block. */
  datatype Block = Block(id: BlockId, data: seq<byte>)

  /** An entry of `get_block_list`: the id and the byte size. */
  datatype BlockInfo = BlockInfo(id: BlockId, size: nat)

  /** What `get_block_list` reports for a list of blocks: one entry per
      block, in list order, with its id and the size of its data. */
  function Infos(blocks: seq<Block>): (r: seq<BlockInfo>)
    ensures |r| == |blocks|
    ensures forall i :: 0 <= i < |blocks| ==> r[i] == BlockInfo(blocks[i].id, |blocks[i].data|)
  {
    seq(|blocks|, i requires 0 <= i < |blocks| => BlockInfo(blocks[i].id, |blocks[i].data|))
  }

  /** The data of each block, in list order. */
  function Datas(blocks: seq<Block>): (r: seq<seq<byte>>)
    ensures |r| == |blocks| && forall i :: 0 <= i < |blocks| ==> r[i] == blocks[i].data
  {
    seq(|blocks|, i requires 0 <= i < |blocks| => blocks[i].data)
  }

  /** The content a committed block list stands for. */
  function Concat(blocks: seq<Block>): seq<byte>
  {
    Flatten(Datas(blocks))
  }

  lemma ConcatSnoc(blocks: seq<Block>, b: Block)
    ensures Concat(blocks + [b]) == Concat(blocks) + b.data
  {
    assert Datas(blocks + [b])[..|blocks|] == Datas(blocks);
  }

  predicate DistinctIds(blocks: seq<Block>)
  {
    forall i, j :: 0 <= i < j < |blocks| ==> blocks[i].id != blocks[j].id
  }

  /** The first block named `id`. */
  function Find(blocks: seq<Block>, id: BlockId): (r: Option<Block>)
    ensures r.Some? ==> r.value in blocks && r.value.id == id
    ensures r.None? <==> forall b :: b in blocks ==> b.id != id
  {
    if blocks == [] then None
    else if blocks[0].id == id then Some(blocks[0])
    else Find(blocks[1..], id)
  }

  /** `blocks` without the blocks named `id`, in their order. */
  function Without(blocks: seq<Block>, id: BlockId): (r: seq<Block>)
    ensures forall b :: b in r <==> b in blocks && b.id != id
  {
    if blocks == [] then []
    else if blocks[0].id == id then Without(blocks[1..], id)
    else [blocks[0]] + Without(blocks[1..], id)
  }

  lemma {:induction false} WithoutDistinct(blocks: seq<Block>, id: BlockId)
    requires DistinctIds(blocks)
    ensures DistinctIds(Without(blocks, id))
  {
    if blocks != [] {
      assert DistinctIds(blocks[1..]);
      WithoutDistinct(blocks[1..], id);
      var rest := Without(blocks[1..], id);
      forall b | b in rest
        ensures b.id != blocks[0].id
      {
        var j :| 0 <= j < |blocks[1..]| && blocks[1..][j] == b;
        assert blocks[j + 1] == b;
      }
    }
  }

  lemma {:induction false} FindWithout(blocks: seq<Block>, id: BlockId, other: BlockId)
    requires other != id
    ensures Find(Without(blocks, id), other) == Find(blocks, other)
  {
    if blocks != [] {
      FindWithout(blocks[1..], id, other);
    }
  }

  lemma {:induction false} FindAppend(blocks: seq<Block>, b: Block, id: BlockId)
    ensures Find(blocks + [b], id) == if Find(blocks, id).Some? then Find(blocks, id) else Find([b], id)
  {
    if blocks != [] {
      assert (blocks + [b])[1..] == blocks[1..] + [b];
      FindAppend(blocks[1..], b, id);
    }
  }

  /** `put_block` of an id not yet staged lists the new block last, after
      the earlier ones in their order, with the size of its data. */
  lemma {:induction false} PutBlockListing(blocks: seq<Block>, id: BlockId, data: seq<byte>)
    requires forall b :: b in blocks ==> b.id != id
    ensures Infos(Without(blocks, id) + [Block(id, data)]) == Infos(blocks) + [BlockInfo(id, |data|)]
  {
    WithoutAbsent(blocks, id);
  }

  /** Dropping an id nothing is staged under changes nothing: staging a
      new id appends its block, so blocks appear in the order they were put. */
  lemma {:induction false} WithoutAbsent(blocks: seq<Block>, id: BlockId)
    requires forall b :: b in blocks ==> b.id != id
    ensures Without(blocks, id) == blocks
  {
    if blocks != [] {
      assert blocks[0] in blocks;
      WithoutAbsent(blocks[1..], id);
    }
  }

  /** Staging `data` under `id` replaces any block staged under that id and
      changes nothing else that a lookup can see. */
  lemma FindAfterStage(blocks: seq<Block>, id: BlockId, data: seq<byte>, key: BlockId)
    ensures Find(Without(blocks, id) + [Block(id, data)], key)
         == if key == id then Some(Block(id, data)) else Find(blocks, key)
  {
    FindAppend(Without(blocks, id), Block(id, data), key);
    if key != id {
      FindWithout(blocks, id, key);
    }
  }

  /** The block a list entry names (the default "latest" lookup): the
      uncommitted block of that id if there is one, else the committed one. */
  function Latest(uncommitted: seq<Block>, committed: seq<Block>, id: BlockId): (r: Option<Block>)
    ensures r.Some? ==> r.value.id == id && (r.value in uncommitted || r.value in committed)
    ensures r.None? <==> (forall b :: b in uncommitted ==> b.id != id) && (forall b :: b in committed ==> b.id != id)
    ensures Find(uncommitted, id).Some? ==> r == Find(uncommitted, id)
    ensures Find(uncommitted, id).None? ==> r == Find(committed, id)
  {
    match Find(uncommitted, id)
    case Some(b) => Some(b)
    case None => Find(committed, id)
  }

  /** Staging an id again supersedes, for the next block list, both the
      earlier staging and any committed block of that id. */
  lemma RestageSupersedes(uncommitted: seq<Block>, committed: seq<Block>, id: BlockId, data: seq<byte>)
    ensures Latest(Without(uncommitted, id) + [Block(id, data)], committed, id) == Some(Block(id, data))
  {
    FindAfterStage(uncommitted, id, data, id);
  }

  predicate AllStaged(ids: seq<BlockId>, uncommitted: seq<Block>, committed: seq<Block>)
  {
    forall i :: 0 <= i < |ids| ==> Latest(uncommitted, committed, ids[i]).Some?
  }

  /** After a block list is committed, the committed listing names the
      list's ids in list order, each with the size of the block it
      resolved to. */
  lemma CommittedListing(ids: seq<BlockId>, uncommitted: seq<Block>, committed: seq<Block>, blocks: seq<Block>)
    requires AllStaged(ids, uncommitted, committed) && |blocks| == |ids|
    requires forall i :: 0 <= i < |ids| ==> blocks[i] == Latest(uncommitted, committed, ids[i]).value
    ensures |Infos(blocks)| == |ids|
    ensures forall i :: 0 <= i < |ids| ==>
      Infos(blocks)[i] == BlockInfo(ids[i], |Latest(uncommitted, committed, ids[i]).value.data|)
  {
  }

  /** The decimal digits of `n`: the id under which chunk `n` is staged. */
  function Decimal(n: nat): (r: BlockId)
    ensures |r| > 0
  {
    if n < 10 then [Digit(n)] else Decimal(n / 10) + [Digit(n % 10)]
  }

  function Digit(d: nat): char
    requires d < 10
  {
    ('0' as int + d) as char
  }

  /** The number a string of decimal digits spells. */
  function ParseDecimal(s: string): int
  {
    if s == [] then 0 else ParseDecimal(s[..|s| - 1]) * 10 + (s[|s| - 1] as int - '0' as int)
  }

  /** Parsing a block id gives back the chunk index it was made from. */
  lemma {:induction false} DecimalRoundTrip(n: nat)
    ensures ParseDecimal(Decimal(n)) == n
  {
    if n < 10 {
      assert Decimal(n)[..0] == [];
    } else {
      DecimalRoundTrip(n / 10);
      assert Decimal(n)[..|Decimal(n)| - 1] == Decimal(n / 10);
    }
  }

  /** Distinct chunks are staged under distinct ids. */
  lemma DecimalInjective(a: nat, b: nat)
    ensures Decimal(a) == Decimal(b) <==> a == b
  {
    DecimalRoundTrip(a);
    DecimalRoundTrip(b);
  }

  /** The ids `0, 1, ..., n - 1` of a chunked upload's block list. */
  function ChunkIds(n: nat): (r: seq<BlockId>)
    ensures |r| == n && forall k :: 0 <= k < n ==> r[k] == Decimal(k)
  {
    seq(n, k requires 0 <= k => Decimal(k))
  }

  /** Look up every id of a block list, in list order: the blocks it
      names and their concatenated bytes, or nothing when an id names no
      block. */
  method ResolveBlockList(ids: seq<BlockId>, uncommitted: seq<Block>, committed: seq<Block>)
    returns (blocks: Option<seq<Block>>, bytes: seq<byte>)
    ensures blocks.None? <==> !AllStaged(ids, uncommitted, committed)
    ensures blocks.Some? ==>
      && |blocks.value| == |ids|
      && (forall i :: 0 <= i < |ids| ==> blocks.value[i] == Latest(uncommitted, committed, ids[i]).value)
      && bytes == Concat(blocks.value)
  {
    var found: seq<Block> := [];
    bytes := [];
    var i := 0;
    while i < |ids|
      invariant 0 <= i <= |ids|
      invariant |found| == i
      invariant forall k :: 0 <= k < i ==> Latest(uncommitted, committed, ids[k]).Some?
      invariant forall k :: 0 <= k < i ==> found[k] == Latest(uncommitted, committed, ids[k]).value
      invariant bytes == Concat(found)
    {
      var next := Latest(uncommitted, committed, ids[i]);
      if next.None? {
        return None, [];
      }
      ConcatSnoc(found, next.value);
      found := found + [next.value];
      bytes := bytes + next.value.data;
      i := i + 1;
    }
    blocks := Some(found);
  }

  class BlockBlob {
    /** The blob's bytes, as a download returns them. */
    var content: seq<byte>
    var committed: seq<Block>
    var uncommitted: seq<Block>

    /** Staged ids are unique, and a committed block list is the content. */
    ghost predicate Valid()
      reads this
    {
      DistinctIds(uncommitted) && (committed != [] ==> content == Concat(committed))
    }

    /** A freshly created empty blob: no content, no blocks. */
    constructor ()
      ensures Valid()
      ensures content == [] && committed == [] && uncommitted == []
    {
      content := [];
      committed := [];
      uncommitted := [];
    }

    /** `put_block`: stage `data` under `id`, after any earlier staging of
        that id is dropped; the content and the committed list stay. */
    method PutBlock(data: seq<byte>, id: BlockId)
      requires Valid()
      modifies this
      ensures Valid()
      ensures uncommitted == Without(old(uncommitted), id) + [Block(id, data)]
      ensures committed == old(committed) && content == old(content)
    {
      WithoutDistinct(uncommitted, id);
      uncommitted := Without(uncommitted, id) + [Block(id, data)];
    }

    /** `put_block_list`: commit the blocks `ids` name, in list order. An id
        that names no staged or committed block rejects the whole list and
        leaves the blob as it was. */
    method PutBlockList(ids: seq<BlockId>) returns (r: Outcome)
      requires Valid()
      modifies this
      ensures Valid()
      ensures !AllStaged(ids, old(uncommitted), old(committed)) ==>
        r == Fail(InvalidBlockList) && content == old(content)
        && committed == old(committed) && uncommitted == old(uncommitted)
      ensures AllStaged(ids, old(uncommitted), old(committed)) ==>
        && r == Pass
        && |committed| == |ids|
        && (forall i :: 0 <= i < |ids| ==> committed[i] == Latest(old(uncommitted), old(committed), ids[i]).value)
        && uncommitted == []
        && content == Concat(committed)
    {
      var resolved, bytes := ResolveBlockList(ids, uncommitted, committed);
      if resolved.None? {
        return Fail(InvalidBlockList);
      }
      committed := resolved.value;
      uncommitted := [];
      content := bytes;
      return Pass;
    }

    /** The single-request upload: the blob holds `data`, with no block list. */
    method PutBlob(data: seq<byte>)
      requires Valid()
      modifies this
      ensures Valid()
      ensures content == data && committed == [] && uncommitted == []
    {
      content := data;
      committed := [];
      uncommitted := [];
    }

    /** `get_block_list(..., 'all')`: ids and sizes, committed and uncommitted, in order. */
    method GetBlockList() returns (committedBlocks: seq<BlockInfo>, uncommittedBlocks: seq<BlockInfo>)
      requires Valid()
      ensures committedBlocks == Infos(committed) && uncommittedBlocks == Infos(uncommitted)
      ensures forall i, j :: 0 <= i < j < |uncommittedBlocks| ==> uncommittedBlocks[i].id != uncommittedBlocks[j].id
    {
      committedBlocks := Infos(committed);
      uncommittedBlocks := Infos(uncommitted);
    }

    /** Stage every chunk of `payload` in `schedule` order under its
        index, reporting progress as each chunk completes. */
    method StageChunks(payload: seq<byte>, chunkSize: nat, schedule: seq<nat>, total: Option<nat>)
      returns (progress: seq<Event>)
      requires Valid() && chunkSize > 0
      requires IsOrder(schedule, |Plan(|payload|, chunkSize)|)
      modifies this
      ensures Valid() && committed == old(committed) && content == old(content)
      ensures ChunksStaged(payload, chunkSize, uncommitted)
      ensures OthersKept(uncommitted, old(uncommitted), ChunkIds(|Plan(|payload|, chunkSize)|))
      ensures Within(schedule, |Plan(|payload|, chunkSize)|)
      ensures progress == Reported(Plan(|payload|, chunkSize), schedule, total)
    {
      var plan := Plan(|payload|, chunkSize);
      PlanFits(|payload|, chunkSize);
      progress := StagePlan(payload, plan, schedule, total);
      StagedAll(uncommitted, payload, chunkSize, schedule);
    }

    /** The loop of `StageChunks`, over any plan that fits the payload. */
    method StagePlan(payload: seq<byte>, plan: seq<Chunk>, schedule: seq<nat>, total: Option<nat>)
      returns (progress: seq<Event>)
      requires Valid() && FitsIn(plan, |payload|) && IsOrder(schedule, |plan|)
      modifies this
      ensures Valid() && committed == old(committed) && content == old(content)
      ensures StagedUpTo(uncommitted, payload, plan, schedule, |schedule|)
      ensures OthersKept(uncommitted, old(uncommitted), ChunkIds(|plan|))
      ensures progress == Reported(plan, schedule, total)
    {
      var n := |plan|;
      OrderLength(schedule, n);
      progress := [Event(0, total)];
      var done := 0;
      var k := 0;
      while k < n
        invariant 0 <= k <= n && Valid()
        invariant committed == old(committed) && content == old(content)
        invariant done == Completed(plan, schedule[..k])
        invariant progress == Reported(plan, schedule[..k], total)
        invariant StagedUpTo(uncommitted, payload, plan, schedule, k)
        invariant OthersKept(uncommitted, old(uncommitted), ChunkIds(n))
      {
        done, progress := StageChunk(payload, plan, schedule, k, total, done, progress, old(uncommitted));
        k := k + 1;
      }
      assert schedule[..n] == schedule;
    }

    /** Stage chunk `schedule[k]` under its index with `put_block`, then
        count its bytes as done and report them. */
    method StageChunk(payload: seq<byte>, plan: seq<Chunk>, schedule: seq<nat>, k: nat, total: Option<nat>,
                      done: nat, progress: seq<Event>, ghost base: seq<Block>)
      returns (done': nat, progress': seq<Event>)
      requires Valid() && IsOrder(schedule, |plan|) && k < |schedule|
      requires StagedUpTo(uncommitted, payload, plan, schedule, k)
      requires OthersKept(uncommitted, base, ChunkIds(|plan|))
      requires done == Completed(plan, schedule[..k]) && progress == Reported(plan, schedule[..k], total)
      modifies this
      ensures Valid() && committed == old(committed) && content == old(content)
      ensures StagedUpTo(uncommitted, payload, plan, schedule, k + 1)
      ensures OthersKept(uncommitted, base, ChunkIds(|plan|))
      ensures done' == Completed(plan, schedule[..k + 1]) && progress' == Reported(plan, schedule[..k + 1], total)
    {
      var index := schedule[k];
      var chunk := plan[index];
      StageNext(uncommitted, payload, plan, schedule, k);
      StageKeepsOthers(base, uncommitted, |plan|, index, ChunkData(payload, chunk));
      PutBlock(payload[chunk.offset..End(chunk)], Decimal(index));
      ReportedStep(plan, schedule, k, total);
      done' := done + chunk.length;
      progress' := progress + [Event(done', total)];
    }

    /** `create_blob_from_stream`. `count` is the declared size, if any;
        `order` is the order in which parallel workers complete their chunks.
        A parallel upload needs a seekable stream. A payload of known size up
        to `threshold` bytes goes in one request; any other payload is staged
        chunk by chunk and committed as the block list `0, 1, ..., n - 1`.
        The result is the list of progress events. */
    method CreateFromStream(stream: seq<byte>, seekable: bool, count: Option<nat>, maxConnections: nat,
                            order: seq<nat>, chunkSize: nat, threshold: nat)
      returns (r: Result<seq<Event>>)
      requires Valid() && chunkSize > 0
      requires maxConnections > 1 ==> IsOrder(order, |Plan(|StreamPayload(stream, count)|, chunkSize)|)
      modifies this
      ensures Valid()
      ensures maxConnections > 1 && !seekable ==>
        r == Err(NotSeekable) && content == old(content)
        && committed == old(committed) && uncommitted == old(uncommitted)
      ensures !(maxConnections > 1 && !seekable) ==>
        var payload := StreamPayload(stream, count);
        var total := if count.Some? then Some(|payload|) else None;
        var plan := Plan(|payload|, chunkSize);
        var schedule := Schedule(maxConnections > 1, order, |plan|);
        && r.Ok?
        && content == payload
        && uncommitted == []
        && (count.Some? && |payload| <= threshold ==>
              committed == [] && r.value == [Event(0, total), Event(|payload|, total)])
        && (!(count.Some? && |payload| <= threshold) ==>
              && Within(schedule, |plan|)
              && CommittedChunks(payload, chunkSize, committed)
              && r.value == Reported(plan, schedule, total)
              && (r.value == UploadProgress(|payload|, chunkSize, total) <==> TailInOrder(plan, chunkSize, schedule)))
    {
      if maxConnections > 1 && !seekable {
        return Err(NotSeekable);
      }
      var payload := StreamPayload(stream, count);
      var total := if count.Some? then Some(|payload|) else None;
      if count.Some? && |payload| <= threshold {
        PutBlob(payload);
        return Ok([Event(0, total), Event(|payload|, total)]);
      }
      var n := |Plan(|payload|, chunkSize)|;
      var schedule := Schedule(maxConnections > 1, order, n);
      ScheduleIsOrder(maxConnections > 1, order, n);
      var progress := StageChunks(payload, chunkSize, schedule, total);
      ghost var staged := uncommitted;
      ghost var previous := committed;
      StagedChunksResolve(payload, chunkSize, staged, previous);
      var outcome := PutBlockList(ChunkIds(n));
      CommittedChunksAssemble(payload, chunkSize, staged, previous, committed);
      ChunksCommitted(payload, chunkSize, staged, previous, committed);
      ProgressMatchesHelperIff(|payload|, chunkSize, schedule, total);
      return Ok(progress);
    }

    /** `create_blob_from_bytes(data, index, count)`: upload `data[index:]`,
        or `data[index:index + count]`, whose size is known. */
    method CreateFromBytes(data: seq<byte>, index: nat, count: Option<nat>, maxConnections: nat,
                           order: seq<nat>, chunkSize: nat, threshold: nat)
      returns (r: Result<seq<Event>>)
      requires Valid() && chunkSize > 0
      requires maxConnections > 1 ==> IsOrder(order, |Plan(|BytesPayload(data, index, count)|, chunkSize)|)
      modifies this
      ensures Valid()
      ensures var payload := BytesPayload(data, index, count);
        var plan := Plan(|payload|, chunkSize);
        var schedule := Schedule(maxConnections > 1, order, |plan|);
        && r.Ok?
        && content == payload
        && uncommitted == []
        && (|payload| <= threshold ==>
              committed == [] && r.value == [Event(0, Some(|payload|)), Event(|payload|, Some(|payload|))])
        && (|payload| > threshold ==>
              && Within(schedule, |plan|)
              && CommittedChunks(payload, chunkSize, committed)
              && r.value == Reported(plan, schedule, Some(|payload|))
              && (r.value == UploadProgress(|payload|, chunkSize, Some(|payload|)) <==> TailInOrder(plan, chunkSize, schedule)))
    {
      var payload := BytesPayload(data, index, count);
      assert StreamPayload(payload, Some(|payload|)) == payload;
      r := CreateFromStream(payload, true, Some(|payload|), maxConnections, order, chunkSize, threshold);
    }
  }

  /** Every id outside `ids` is looked up in `now` as it was in `before`. */
  ghost predicate OthersKept(now: seq<Block>, before: seq<Block>, ids: seq<BlockId>)
  {
    forall id :: id !in ids ==> Find(now, id) == Find(before, id)
  }

  /** Staging chunk `index` changes no lookup outside the chunk ids. */
  lemma StageKeepsOthers(base: seq<Block>, blocks: seq<Block>, n: nat, index: nat, data: seq<byte>)
    requires index < n && OthersKept(blocks, base, ChunkIds(n))
    ensures OthersKept(Without(blocks, Decimal(index)) + [Block(Decimal(index), data)], base, ChunkIds(n))
  {
    assert ChunkIds(n)[index] == Decimal(index);
    forall id | id !in ChunkIds(n)
      ensures Find(Without(blocks, Decimal(index)) + [Block(Decimal(index), data)], id) == Find(base, id)
    {
      FindAfterStage(blocks, Decimal(index), data, id);
    }
  }

  /** Chunks `schedule[..k]` are staged, each under its index. */
  ghost predicate StagedUpTo(uncommitted: seq<Block>, payload: seq<byte>, plan: seq<Chunk>, schedule: seq<nat>, k: nat)
  {
    && FitsIn(plan, |payload|)
    && k <= |schedule|
    && Within(schedule, |plan|)
    && forall j :: 0 <= j < k ==>
         Find(uncommitted, Decimal(schedule[j])) == Some(Block(Decimal(schedule[j]), ChunkData(payload, plan[schedule[j]])))
  }

  /** Staging the next chunk of the schedule keeps the earlier ones staged:
      no two chunks share an index, so none share an id. */
  lemma StageNext(before: seq<Block>, payload: seq<byte>, plan: seq<Chunk>, schedule: seq<nat>, k: nat)
    requires IsOrder(schedule, |plan|) && k < |schedule|
    requires StagedUpTo(before, payload, plan, schedule, k)
    ensures var index := schedule[k];
      StagedUpTo(Without(before, Decimal(index)) + [Block(Decimal(index), ChunkData(payload, plan[index]))],
                 payload, plan, schedule, k + 1)
  {
    var index := schedule[k];
    var data := ChunkData(payload, plan[index]);
    var after := Without(before, Decimal(index)) + [Block(Decimal(index), data)];
    forall j | 0 <= j < k + 1
      ensures Find(after, Decimal(schedule[j])) == Some(Block(Decimal(schedule[j]), ChunkData(payload, plan[schedule[j]])))
    {
      FindAfterStage(before, Decimal(index), data, Decimal(schedule[j]));
      if j < k {
        OrderDistinct(schedule, |plan|, j, k);
        DecimalInjective(index, schedule[j]);
      }
    }
  }

  /** When the whole schedule is staged, every chunk is. */
  lemma StagedAll(uncommitted: seq<Block>, payload: seq<byte>, chunkSize: nat, schedule: seq<nat>)
    requires chunkSize > 0
    requires IsOrder(schedule, |Plan(|payload|, chunkSize)|)
    requires StagedUpTo(uncommitted, payload, Plan(|payload|, chunkSize), schedule, |schedule|)
    ensures ChunksStaged(payload, chunkSize, uncommitted)
  {
    var plan := Plan(|payload|, chunkSize);
    IsOrderFacts(schedule, |plan|);
    forall x | 0 <= x < |plan|
      ensures Find(uncommitted, Decimal(x)) == Some(Block(Decimal(x), ChunkData(payload, plan[x])))
    {
      assert x in schedule;
      var j :| 0 <= j < |schedule| && schedule[j] == x;
    }
  }

  /** Every chunk of the plan is staged under its index. */
  predicate ChunksStaged(payload: seq<byte>, chunkSize: nat, uncommitted: seq<Block>)
    requires chunkSize > 0
  {
    var plan := Plan(|payload|, chunkSize);
    FitsIn(plan, |payload|) &&
    forall k :: 0 <= k < |plan| ==>
      Find(uncommitted, Decimal(k)) == Some(Block(Decimal(k), ChunkData(payload, plan[k])))
  }

  /** Once every chunk is staged under its index, the block list
      `0, 1, ..., n - 1` names only staged blocks. */
  lemma StagedChunksResolve(payload: seq<byte>, chunkSize: nat, uncommitted: seq<Block>, committed: seq<Block>)
    requires chunkSize > 0 && ChunksStaged(payload, chunkSize, uncommitted)
    ensures AllStaged(ChunkIds(|Plan(|payload|, chunkSize)|), uncommitted, committed)
  {
  }

  /** The block list of a chunked upload: block `k` holds chunk `k` under
      its index, whatever order the chunks completed in. */
  predicate CommittedChunks(payload: seq<byte>, chunkSize: nat, committed: seq<Block>)
    requires chunkSize > 0
  {
    var plan := Plan(|payload|, chunkSize);
    && FitsIn(plan, |payload|)
    && |committed| == |plan|
    && forall k :: 0 <= k < |plan| ==> committed[k] == Block(Decimal(k), ChunkData(payload, plan[k]))
  }

  /** Committing the list `0, 1, ..., n - 1` over the staged chunks commits
      them in index order. */
  lemma ChunksCommitted(payload: seq<byte>, chunkSize: nat, uncommitted: seq<Block>, committed: seq<Block>,
                        blocks: seq<Block>)
    requires chunkSize > 0 && ChunksStaged(payload, chunkSize, uncommitted)
    requires var ids := ChunkIds(|Plan(|payload|, chunkSize)|);
      && |blocks| == |ids|
      && forall i :: 0 <= i < |ids| ==> Latest(uncommitted, committed, ids[i]).Some? && blocks[i] == Latest(uncommitted, committed, ids[i]).value
    ensures CommittedChunks(payload, chunkSize, blocks)
  {
  }

  /** The committed list of a chunked upload names the chunks in index
      order: the id of block `k` parses back to `k`, and the blocks'
      bytes are the payload. */
  lemma {:induction false} CommittedManifest(payload: seq<byte>, chunkSize: nat, committed: seq<Block>)
    requires chunkSize > 0 && CommittedChunks(payload, chunkSize, committed)
    ensures forall k :: 0 <= k < |committed| ==> ParseDecimal(committed[k].id) == k
    ensures Concat(committed) == payload
  {
    forall k | 0 <= k < |committed|
      ensures ParseDecimal(committed[k].id) == k
    {
      DecimalRoundTrip(k);
    }
    AssemblePlan(payload, chunkSize);
    assert Datas(committed) == Pieces(payload, Plan(|payload|, chunkSize));
  }

  /** Committing that list reassembles the payload. */
  lemma CommittedChunksAssemble(payload: seq<byte>, chunkSize: nat, uncommitted: seq<Block>, committed: seq<Block>,
                                blocks: seq<Block>)
    requires chunkSize > 0 && ChunksStaged(payload, chunkSize, uncommitted)
    requires var ids := ChunkIds(|Plan(|payload|, chunkSize)|);
      && AllStaged(ids, uncommitted, committed)
      && |blocks| == |ids|
      && forall i :: 0 <= i < |ids| ==> blocks[i] == Latest(uncommitted, committed, ids[i]).value
    ensures Concat(blocks) == payload
  {
    var plan := Plan(|payload|, chunkSize);
    AssemblePlan(payload, chunkSize);
    assert Datas(blocks) == Pieces(payload, plan);
  }
}
