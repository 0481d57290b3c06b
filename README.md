# Chunked transfers of the Azure storage client, as its tests pin them down

This project models the chunked-transfer behaviour of the Python Azure
storage client (`azure-storage-python`) for block blobs and share files.
The model is built from what the test modules `tests/test_block_blob.py`
and `tests/test_file.py` set up and assert. The service and the library
code they call are not part of this model. The service is an in-memory
store, and each operation is a method on it.

The model has six modules:

- **Progress** (`progress.dfy`). The progress lists the tests expect:
  `_get_expected_upload_progress`, `_get_expected_download_progress` and
  `_get_expected_progress`.
  - Each helper is a `while` loop. It is proved equal to a recursive
    reference list.
  - Lemmas give the list's length (`ceil(size / chunk) + 1`), its first
    and last events, its strictly increasing byte counts, its step sizes,
    its totals, and the two download forms.
  - The test fixtures set the single-shot threshold to 64 KiB and the
    chunk size to 4 KiB.
- **Chunking** (`chunking.dfy`). The chunk plan and the progress
  aggregator.
  - The plan cuts a payload into chunks. Lemmas prove that the chunks tile
    the payload, that the pieces concatenate back to it, and that writing
    each piece at its own offset, in any completion order, rebuilds it.
  - Parallel workers are modelled as a completion order, which is a
    permutation of the chunk indices. The aggregator reports `0` and then
    the running sum of completed chunk lengths.
  - `ProgressMatchesHelperIff` states exactly when this list equals the
    helpers' list. It holds when there is no short last chunk, or when the
    short last chunk completes last. A sequential transfer always meets
    this condition.
- **BlockBlobs** (`block_blob.dfy`). A block blob as a class with the
  committed block list, the uncommitted (staged) blocks and the content.
  - `put_block`, `put_block_list` (concatenation in list order, refusing a
    list that names an unknown block) and `get_block_list`.
  - The chunked upload stages one block per chunk and commits them as one
    block list.
- **ShareFiles** (`share_file.dfy`). A share file as a class over two
  arrays: the bytes, and a per-byte "holds written data" flag.
  - `update_range` and `clear_range` over an inclusive `[start, end]`, and
    `resize`.
  - `list_ranges` reports the maximal runs of written bytes. They are
    proved sorted, separated, and to cover exactly the written bytes.
  - Ranged reads take an inclusive end.
  - Chunked uploads run through `update_range`. Chunked downloads issue one
    ranged GET per chunk into a seekable sink.
- **Scenarios** (`scenarios.dfy`). The concrete situations of the tests,
  replayed on the model: `AAABBBCCC`, the invalid block id, the two
  listed ranges, `data[0:6]`, and so on. The tests' random data is a
  parameter of the same length.
- **Common** (`common.dfy`). Bytes, options, errors, Python's clamping
  slice, splicing, and division facts.

The model's failures are values of `Error`. Three of them are what the
tests expect; the other two are refusals the model chooses for
arguments no test passes:

| Error | Where it comes from |
|---|---|
| `NotSeekable` | the tests: `AttributeError` from a parallel transfer over a stream without positioned access |
| `MissingEndRange` | the tests: `ValueError` from a range MD5 without an end offset |
| `InvalidBlockList` | the tests: the service's "specified block list is invalid" |
| `MissingStartRange` | model choice: a ranged read given an end offset but no start offset |
| `InvalidRange` | model choice: a ranged read with an end before its start or a start past the content, and an `update_range`/`clear_range` outside the file or of the wrong length |

Choices the tests leave open:

- A blob payload of known size up to the threshold goes up in one
  request. Its progress is `[(0, n), (n, n)]`. For `n = 0` the helper
  would give `[(0, 0)]`; this model keeps the two events.
- A blob stream without a declared size is always staged in chunks, and
  its total is `None` in every event, the last one included. This follows
  `_get_expected_progress` (tests/test_block_blob.py:83-91).
- The seekability check runs before anything is sent, whenever more than
  one connection is asked for.
- Chunk `k` is staged under the block id made of the decimal digits of
  `k`. Staging an id again replaces the earlier block.
- A `count` beyond the end of the data is cut to the data, as Python's
  slicing does.
- A ranged read with an end before its start, or a start past the content,
  is refused (`InvalidRange`). An end past the content is cut to the
  content.
- A ranged read given an end offset without a start offset is refused
  (`MissingStartRange`). No test makes such a call.
- A file upload never goes up in a single request, whatever its size. It
  is always written chunk by chunk through `update_range`. The 2048-byte
  upload of tests/test_file.py:1195-1209 checks only the stored bytes, not
  the progress.
- `list_ranges` reports maximal runs of written bytes, so two writes that
  touch end to end are listed as one range. No test writes adjacent
  ranges.
- A download is chunked when more than one connection is used and the
  requested region is larger than the threshold.

## Model

| member | source | states |
|---|---|---|
| Progress.ExpectedUploadProgress | tests/test_file.py:147-155 | the file helper's loop returns exactly the reference upload list for the given size, chunk size and known-or-unknown total |
| Progress.ExpectedDownloadProgress | tests/test_file.py:157-167 | the download helper's loop returns exactly the reference list: `(0, None), (size, size)` for a single download, or the chunk starts against `size` and then `(size, size)` |
| Progress.StepsFromShape | tests/test_file.py:150-153 | the loop's events are at `index + t * chunk`, all below the size, and their number is the number of chunks covering the rest |
| Progress.UploadProgressShape | tests/test_file.py:147-155 | the upload list has `ceil(size / chunk) + 1` events, and event `t` reports `min(t * chunk, size)` bytes |
| Progress.UploadProgressEnds | tests/test_block_blob.py:83-91 | the list starts at `(0, total)` and ends at `(size, total)` |
| Progress.UploadProgressIncreasing | tests/test_file.py:147-155 | the byte counts of the list strictly increase |
| Progress.UploadProgressSteps | tests/test_block_blob.py:86-90 | each step adds exactly one chunk, except the last, which adds between 1 and `chunk` bytes |
| Progress.UploadProgressTotals | tests/test_block_blob.py:83-91 | every event's total is `None` exactly when the size is unknown, and `Some(size)` otherwise |
| Progress.SmallPayloadProgress | tests/test_block_blob.py:734-751 | a payload of at most one chunk yields exactly `[(0, n), (n, n)]` |
| Progress.DownloadProgressForms | tests/test_file.py:157-167 | a single download is exactly `[(0, None), (size, size)]`; a chunked one is the upload list against the known size, with its length, ends and every event |
| Chunking.PlanShape | tests/test_file.py:150-153 | chunk `k` starts at `k * chunk` and has `min(chunk, size - k * chunk)` bytes; there are `ceil(size / chunk)` chunks |
| Chunking.PlanTiles | tests/test_file.py:147-155 | the chunks are contiguous, start at 0, end at the size, are all full except the last, exist only for a non-empty payload, and start where the helper's events do |
| Chunking.PlanLengths | tests/test_block_blob.py:86-90 | all chunks but the last have the chunk size; the last has the remainder, between 1 and `chunk` bytes |
| Chunking.AssemblePlan | tests/test_block_blob.py:493-505 | the chunks' pieces, concatenated in plan order, give back the payload |
| Chunking.PlaceNext | tests/test_file.py:1366-1385 | writing the next scheduled chunk at its offset keeps every chunk already written in place |
| Chunking.PlacedAll | tests/test_file.py:1366-1385 | once every chunk of a completion order is in place, the target equals the payload, whatever the order |
| Chunking.ReportedMonotone | tests/test_block_blob.py:379-399 | the aggregated progress has one event per completed chunk plus the first, and never decreases |
| Chunking.ReportedFinal | tests/test_block_blob.py:379-399 | in any completion order the aggregated progress ends at `(size, total)` |
| Chunking.OrderDistinct | tests/test_block_blob.py:379-399 | a completion order completes no chunk twice |
| Chunking.IsOrderFacts | tests/test_block_blob.py:379-399 | a completion order lists every chunk index exactly once |
| Chunking.CompletedByCount | tests/test_block_blob.py:86-90 | the bytes done after some completions are the full chunks done times the chunk size, plus the short last chunk if it is done |
| Chunking.PrefixCompleted | tests/test_block_blob.py:379-399 | when the short chunk completes last, the first `t` completions total `t * chunk` bytes |
| Chunking.ProgressMatchesHelper | tests/test_block_blob.py:379-399 | when the short last chunk completes last, or there is none, the aggregated progress is exactly the helper's list |
| Chunking.ShortChunkEarly | tests/test_block_blob.py:379-399 | when the short last chunk completes before a full one, the aggregated progress differs from the helper's list |
| Chunking.ProgressMatchesHelperIff | tests/test_block_blob.py:601-624 | the aggregated progress equals the helper's list if and only if the short last chunk (if any) completes last |
| Chunking.SequentialProgress | tests/test_block_blob.py:281-297 | a sequential transfer reports exactly the helper's list |
| Chunking.BytesPayload | tests/test_block_blob.py:299-321 | a bytes upload sends `data[index:]`, or `data[index:index + count]`, or nothing when `index` is past the data |
| Chunking.StreamPayload | tests/test_block_blob.py:526-557 | a stream upload sends the first `count` bytes when a count is declared, else the whole stream |
| BlockBlobs.PutBlockListing | tests/test_block_blob.py:180-201 | a `put_block` of a new id adds one listing entry, last, with the id and the size of its data, and keeps the earlier entries in put order |
| BlockBlobs.CommittedListing | tests/test_block_blob.py:203-227 | after a block list is committed, the committed listing names the list's ids in list order, each with the size of the block it resolved to |
| BlockBlobs.Find | tests/test_block_blob.py:148-164 | a lookup by id finds a block with that id, and finds none exactly when no block has it |
| BlockBlobs.Without | tests/test_block_blob.py:106-119 | dropping an id keeps exactly the blocks with other ids |
| BlockBlobs.WithoutAbsent | tests/test_block_blob.py:180-201 | staging an id not yet staged appends its block, so blocks are listed in put order |
| BlockBlobs.FindAfterStage | tests/test_block_blob.py:106-119 | after staging, a lookup of that id finds the new block, and lookups of other ids are unchanged |
| BlockBlobs.Latest | tests/test_block_blob.py:132-146 | a list entry names the uncommitted block of that id when there is one, and otherwise the committed one; it names nothing when neither list has the id |
| BlockBlobs.RestageSupersedes | tests/test_block_blob.py:132-146 | after an id is staged again, a block list naming it commits the new block, over both the earlier staging and any committed block of that id |
| BlockBlobs.ConcatSnoc | tests/test_block_blob.py:132-146 | committing one more block appends its bytes to the content |
| BlockBlobs.DecimalRoundTrip | tests/test_block_blob.py:106-119 | a chunk's block id parses back to the chunk index |
| BlockBlobs.DecimalInjective | tests/test_block_blob.py:106-119 | two chunks share a block id if and only if they are the same chunk |
| BlockBlobs.BlockBlob.constructor | tests/test_block_blob.py:166-178 | a new blob has no content and no blocks |
| BlockBlobs.BlockBlob.PutBlock | tests/test_block_blob.py:106-119 | `put_block` stages the block under its id, replacing an earlier one of that id; content and committed list are unchanged |
| BlockBlobs.BlockBlob.PutBlockList | tests/test_block_blob.py:132-164 | a list naming an unknown id fails with `InvalidBlockList` and changes nothing; otherwise the committed list is the named blocks in list order, nothing stays uncommitted, and the content is their concatenation |
| BlockBlobs.ResolveBlockList | tests/test_block_blob.py:132-164 | looking up a block list fails exactly when some id was never staged; otherwise it yields, position by position, the latest staged block of each id and the concatenation of their data |
| BlockBlobs.BlockBlob.PutBlob | tests/test_block_blob.py:229-240 | a single put makes the content the data, with no block list |
| BlockBlobs.BlockBlob.GetBlockList | tests/test_block_blob.py:166-227 | the committed and uncommitted listings are the ids and sizes of those blocks, in order, and no id appears twice among the uncommitted ones |
| BlockBlobs.BlockBlob.StageChunks | tests/test_block_blob.py:493-505 | every chunk is staged under its index, and the progress is the aggregate over the completion order; the content, the committed list and every lookup of an id other than a chunk id stay as they were |
| BlockBlobs.BlockBlob.StagePlan | tests/test_block_blob.py:379-399 | staging the chunks in completion order stages each under its index, keeps every other id's lookup, leaves the content and committed list alone, and reports the aggregate progress of that order |
| BlockBlobs.BlockBlob.StageChunk | tests/test_block_blob.py:379-399 | one `put_block` for the next chunk of the order keeps the chunks staged so far and every other id's lookup, leaves the content and committed list alone, and extends the progress by the bytes done after that chunk |
| BlockBlobs.StageKeepsOthers | tests/test_block_blob.py:106-119 | staging a chunk under its index changes no lookup of an id outside the chunk ids |
| BlockBlobs.BlockBlob.CreateFromStream | tests/test_block_blob.py:493-661 | a parallel upload of a non-seekable stream fails and changes nothing; otherwise the content is the sent payload and nothing stays uncommitted; a known size up to the threshold is one put with `[(0, n), (n, n)]` and no block list; any other upload commits block `k` holding chunk `k` under id `k`, in index order whatever the completion order, and reports the aggregate progress, which equals the helper's list exactly when the short chunk completes last; the total is `None` when no count is declared |
| BlockBlobs.BlockBlob.CreateFromBytes | tests/test_block_blob.py:281-415 | a bytes upload stores `data[index:index + count]`, sequential or parallel, and reports progress against `len` of what it sends; above the threshold it commits the chunks in index order, and its progress equals the helper's list exactly when the short chunk completes last |
| BlockBlobs.StageNext | tests/test_block_blob.py:379-399 | staging the next chunk of the order keeps every chunk staged so far findable under its id |
| BlockBlobs.StagedChunksResolve | tests/test_block_blob.py:493-505 | after staging, every id of the chunk list names a block |
| BlockBlobs.CommittedChunksAssemble | tests/test_block_blob.py:493-505 | committing the chunk list after staging makes the content the payload |
| BlockBlobs.ChunksCommitted | tests/test_block_blob.py:493-505 | committing the list `0, 1, ..., n - 1` over the staged chunks commits block `k` as chunk `k` under its index |
| BlockBlobs.CommittedManifest | tests/test_block_blob.py:493-505 | in the committed list of a chunked upload, the id of block `k` parses back to `k`, and the blocks' bytes concatenate to the payload |
| ShareFiles.Resized | tests/test_file.py:323-333 | a resized file has the new length, keeps the bytes below both lengths, and has zeros past the old length |
| ShareFiles.CopyInto | tests/test_file.py:429-441 | writing a piece into the array changes exactly the bytes of its range |
| ShareFiles.RunEnd | tests/test_file.py:482-500 | a run of written bytes ends at the first unwritten byte or at the end of the file |
| ShareFiles.RunsFromInside | tests/test_file.py:482-500 | every listed range lies in the file and holds only written bytes |
| ShareFiles.RunsFromMaximal | tests/test_file.py:482-500 | every listed range is a maximal run of written bytes |
| ShareFiles.RunsFromSorted | tests/test_file.py:482-500 | listed ranges are sorted by start and separated by an unwritten byte |
| ShareFiles.RunsFromCover | tests/test_file.py:482-500 | a byte lies in a listed range if and only if it holds written data |
| ShareFiles.RunsSpec | tests/test_file.py:482-500 | `list_ranges` gives maximal runs, sorted and separated, covering exactly the written bytes |
| ShareFiles.SkipUnwritten | tests/test_file.py:469-480 | unwritten bytes contribute no range |
| ShareFiles.TakeRun | tests/test_file.py:482-500 | a stretch of written bytes ended by an unwritten byte is listed as one inclusive range |
| ShareFiles.NoRangesWhenUnwritten | tests/test_file.py:469-480 | a file with nothing written lists no ranges |
| ShareFiles.RangedRead | tests/test_file.py:284-310 | a ranged read returns the bytes from the start to the inclusive end, with or without a range MD5; a range MD5 without an end offset is refused (`MissingEndRange`), the case `Scenarios.Md5WithoutEnd` replays |
| ShareFiles.InclusiveEnd | tests/test_file.py:284-295 | `start = s, end = e` inside the content reads `content[s:e + 1]` |
| ShareFiles.ChunkRead | tests/test_file.py:984-1003 | a chunk of a ranged download, fetched with its own ranged GET, is that slice of the requested region |
| ShareFiles.ReadIsSlice | tests/test_file.py:284-310 | the bytes of a successful ranged read are a contiguous run of the content beginning at the requested start |
| ShareFiles.ShareFile.constructor | tests/test_file.py:226-235 | `create_file(size)` makes `size` zero bytes, none written |
| ShareFiles.ShareFile.UpdateRange | tests/test_file.py:429-441 | bytes `start..end` become the data and are marked written; every other byte is unchanged; a range outside the file, or data of another length, is refused and changes nothing |
| ShareFiles.ShareFile.ClearRange | tests/test_file.py:443-454 | bytes `start..end` become zero and unwritten; every other byte is unchanged |
| ShareFiles.ShareFile.Resize | tests/test_file.py:323-333 | the file has the new length, and its bytes and marks are the resized old ones |
| ShareFiles.ShareFile.ListRanges | tests/test_file.py:469-500 | the scan returns the runs of written bytes (whose properties `RunsSpec` states) |
| ShareFiles.ShareFile.Download | tests/test_file.py:854-1071 | argument errors come first; a parallel download to a non-seekable sink fails; otherwise the sink gets exactly the requested region; one connection, or a region up to the threshold, gives the single form; more connections give the aggregate, which is the chunked form exactly when the short chunk completes last |
| ShareFiles.FetchChunks | tests/test_file.py:898-926 | the per-chunk GETs, in any completion order, fill the sink with the region and report the aggregate progress |
| ShareFiles.FetchChunk | tests/test_file.py:984-1003 | one chunk's ranged GET is written at the chunk's offset and nowhere else |
| ShareFiles.ShareFile.CreateFromStream | tests/test_file.py:1350-1534 | a parallel upload of a non-seekable stream fails and leaves the file; otherwise the file holds the first `count` bytes, all written, and the progress is the aggregate against the count, which is the helper's list exactly when the short chunk completes last |
| ShareFiles.ShareFile.StoreChunks | tests/test_file.py:1366-1385 | uploading every chunk through `update_range`, in any order, leaves the payload in the file, all written, with the aggregate progress |
| ShareFiles.ShareFile.StoreChunk | tests/test_file.py:1350-1365 | one chunk's `update_range` writes the chunk's bytes at its offset and marks them written |
| ShareFiles.ShareFile.CreateFromBytes | tests/test_file.py:1213-1238 | a bytes upload stores `data[index:]`, or `data[index:index + count]` |
| Scenarios.PutFiveBlocks | tests/test_block_blob.py:106-119 | five `put_block` calls leave five uncommitted blocks in put order, and nothing committed |
| Scenarios.EmptyBlobBlocks | tests/test_block_blob.py:166-178 | an empty blob lists no committed and no uncommitted blocks |
| Scenarios.StagedBlocks | tests/test_block_blob.py:180-201 | three staged blocks are listed uncommitted as ids 1, 2, 3 of size 3, with nothing committed |
| Scenarios.StageThree | tests/test_block_blob.py:132-139 | putting `AAA`, `BBB`, `CCC` as blocks 1, 2, 3 stages exactly those three blocks in order and commits nothing |
| Scenarios.CommitThree | tests/test_block_blob.py:132-146 | committing 1, 2, 3 makes the content `AAABBBCCC` |
| Scenarios.CommitStaged | tests/test_block_blob.py:140-146 | committing the list 1, 2, 3 over the three staged blocks succeeds, commits them in that order, empties the uncommitted list and sets the content to `AAABBBCCC` |
| Scenarios.CommitUnknownId | tests/test_block_blob.py:148-164 | a list naming the unstaged id 4 fails as an invalid block list and commits nothing |
| Scenarios.BlobBytesUpload | tests/test_block_blob.py:229-297 | a bytes upload stores the data; up to the threshold its progress is `[(0, n), (n, n)]`; above it a sequential upload reports the helper's list against `len(data)` |
| Scenarios.UpdateFirstRange | tests/test_file.py:429-441 | after `update_range(data, 0, 511)` the first 512 bytes are the data and the rest are as before |
| Scenarios.CreateShortFile | tests/test_file.py:115-117 | creating a file from 1024 bytes in a single call leaves the file holding exactly those bytes |
| Scenarios.ClearFirstRange | tests/test_file.py:443-454 | after `clear_range(0, 511)` the first 512 bytes are zero and the rest are as before |
| Scenarios.ResizeToFive | tests/test_file.py:323-333 | after `resize_file(5)` the file is 5 bytes long |
| Scenarios.NoRanges | tests/test_file.py:469-480 | a file created with `create_file(1024)` lists no ranges |
| Scenarios.TwoRanges | tests/test_file.py:482-500 | writing `[0, 511]` and `[1024, 1535]` lists exactly those two ranges, in order |
| Scenarios.GetRange | tests/test_file.py:284-310 | `start_range = s, end_range = e` returns `data[s:e + 1]`, with or without a range MD5 |
| Scenarios.Md5WithoutEnd | tests/test_file.py:1005-1021 | a range MD5 with a start and no end fails before any transfer |
| Scenarios.TruncatedStreamUpload | tests/test_file.py:1513-1534 | `create_file_from_stream(stream, file_size)` stores `data[:file_size]` and reports the helper's list, ending at `(file_size, file_size)` |

## Left out

- Shared access signatures, access policies and expiry times (tests/test_file.py:1577-1802). They are signing and wall-clock time, not transfer logic.
- Copy and abort-copy (tests/test_file.py:503-615). They are asynchronous server-side work with polling.
- The `with_filter` request pipeline (tests/test_file.py:617-679). It is transport plumbing.
- Metadata, properties and content settings. They are a service round trip with no transfer logic.
- Text uploads and downloads with an encoding (utf-8, utf-16). The codecs are library code; a text upload is modelled as the upload of its encoded bytes.
- The `TypeError` on unicode input. It comes from Python's dynamic typing, which Dafny's types rule out.
- The thread pool. Parallel workers are modelled only by the order in which chunks complete; concurrent interleaving within a chunk is not modelled.
- The record/playback harness, temporary files, `os.remove` and the gating of live-only tests.
- `make_file_url` (tests/test_file.py:181-224). Its implementation is not part of this model.
- Existence checks, deletion and the missing-resource errors (tests/test_file.py:250-271, 312-321, 407-427). There is one file or blob per scenario, so there is no name lookup to model.
- The MD5 value itself and its 4 MiB range limit. Only the precondition that a range MD5 needs an end is modelled.
- Leases and the other request options of the blob tests. They are not part of this model.
- The library's block-id encoding is not shown. Chunk ids are the decimal digits of the chunk index.
- BlockBlobs.BlockBlob.CreateFromStream: the tests expect a parallel upload to report exactly the helper's list. The model proves this only when the short last chunk (if any) completes last. It proves the list differs when the short chunk completes earlier. The tests' payloads (64 KiB + 1 and 64 KiB + 512 bytes) have a short last chunk.
- BlockBlobs.BlockBlob.CreateFromBytes: tests/test_block_blob.py:379-399 expect a parallel bytes upload to report exactly the helper's list. The model proves this only when the short last chunk (if any) completes last, as for streams.
- ShareFiles.ShareFile.CreateFromStream: the same condition on the parallel progress list applies to file uploads.
- ShareFiles.ShareFile.Download: the same condition on the parallel progress list applies to chunked downloads.
- BlockBlobs.BlockBlob.CreateFromStream: a known-size payload of 0 bytes reports `[(0, 0), (0, 0)]`. No test pins that case.
