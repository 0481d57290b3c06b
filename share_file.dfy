/** A share file as the file tests observe it: a fixed-length byte buffer
    written by inclusive byte ranges, read whole or by an inclusive range,
    resized, and listed by the ranges that hold written data; plus the
    chunked upload and download that move a payload through those ranges. */
module ShareFiles {
  import opened Common
  import opened Progress
  import opened Chunking

  /** An inclusive byte range `[start, end]`, as `list_ranges` reports it. */
  datatype Range = Range(start: nat, end: nat)

  /** A download's result: the bytes written to the sink and the progress events. */
  datatype Transfer = Transfer(content: seq<byte>, progress: seq<Event>)

  /** `s` cut or zero-extended to `n` elements of `fill`. */
  function Resized<T>(s: seq<T>, n: nat, fill: T): (r: seq<T>)
    ensures |r| == n
    ensures forall i :: 0 <= i < n ==> r[i] == if i < |s| then s[i] else fill
  {
    if n <= |s| then s[..n] else s + seq(n - |s|, _ => fill)
  }

  /** Copy `src` into `a` from `offset` on. */
  method CopyInto<T>(a: array<T>, offset: nat, src: seq<T>)
    requires offset + |src| <= a.Length
    modifies a
    ensures a[..] == Splice(old(a[..]), offset, src)
  {
    var i := 0;
    while i < |src|
      invariant 0 <= i <= |src|
      invariant forall p :: 0 <= p < a.Length ==>
        a[p] == if offset <= p < offset + i then src[p - offset] else old(a[p])
    {
      a[offset + i] := src[i];
      i := i + 1;
    }
    assert a[..] == Splice(old(a[..]), offset, src);
  }

  // ---- list_ranges ----

  /** The end (exclusive) of the run of written bytes that starts at `i`. */
  function RunEnd(w: seq<bool>, i: nat): (e: nat)
    requires i <= |w|
    ensures i <= e <= |w|
    ensures forall k :: i <= k < e ==> w[k]
    ensures e < |w| ==> !w[e]
    decreases |w| - i
  {
    if i < |w| && w[i] then RunEnd(w, i + 1) else i
  }

  /** The maximal runs of written bytes from `i` on, in order. */
  function RunsFrom(w: seq<bool>, i: nat): seq<Range>
    requires i <= |w|
    decreases |w| - i
  {
    if i == |w| then []
    else if !w[i] then RunsFrom(w, i + 1)
    else [Range(i, RunEnd(w, i) - 1)] + RunsFrom(w, RunEnd(w, i))
  }

  function Runs(w: seq<bool>): seq<Range>
  {
    RunsFrom(w, 0)
  }

  /** `rg` is a maximal run of written bytes of `w`. */
  predicate MaximalRun(w: seq<bool>, rg: Range)
  {
    && rg.start <= rg.end < |w|
    && (forall p :: rg.start <= p <= rg.end ==> w[p])
    && (rg.start == 0 || !w[rg.start - 1])
    && (rg.end + 1 == |w| || !w[rg.end + 1])
  }

  predicate Covered(ranges: seq<Range>, p: nat)
  {
    exists k :: 0 <= k < |ranges| && ranges[k].start <= p <= ranges[k].end
  }

  /** Scanning can resume at `i`: it is the start of the file, its end, the
      first byte after an unwritten one, or itself unwritten. */
  predicate RunBoundary(w: seq<bool>, i: nat)
    requires i <= |w|
  {
    i == 0 || i == |w| || !w[i - 1] || !w[i]
  }

  /** Every reported range lies in `[i, |w|)` and holds written bytes only. */
  lemma {:induction false} RunsFromInside(w: seq<bool>, i: nat)
    requires i <= |w|
    ensures forall k :: 0 <= k < |RunsFrom(w, i)| ==> i <= RunsFrom(w, i)[k].start <= RunsFrom(w, i)[k].end < |w|
    ensures forall k, p :: 0 <= k < |RunsFrom(w, i)| && RunsFrom(w, i)[k].start <= p <= RunsFrom(w, i)[k].end ==> w[p]
    decreases |w| - i
  {
    if i < |w| {
      if !w[i] {
        RunsFromInside(w, i + 1);
        assert RunsFrom(w, i) == RunsFrom(w, i + 1);
      } else {
        var e := RunEnd(w, i);
        RunsFromInside(w, e);
        var r, rest := RunsFrom(w, i), RunsFrom(w, e);
        assert r == [Range(i, e - 1)] + rest;
        forall k | 0 <= k < |r|
          ensures i <= r[k].start <= r[k].end < |w|
          ensures forall p :: r[k].start <= p <= r[k].end ==> w[p]
        {
          if k > 0 {
            assert r[k] == rest[k - 1];
          }
        }
      }
    }
  }

  lemma {:induction false} RunsFromMaximal(w: seq<bool>, i: nat)
    requires i <= |w| && RunBoundary(w, i)
    ensures forall k :: 0 <= k < |RunsFrom(w, i)| ==> MaximalRun(w, RunsFrom(w, i)[k])
    decreases |w| - i
  {
    if i < |w| {
      if !w[i] {
        RunsFromMaximal(w, i + 1);
        assert RunsFrom(w, i) == RunsFrom(w, i + 1);
      } else {
        RunsFromMaximal(w, RunEnd(w, i));
      }
    }
  }

  /** Consecutive ranges are in order and separated by at least one byte. */
  predicate Separated(r: seq<Range>)
  {
    forall k :: 0 <= k < |r| - 1 ==> r[k].end + 1 < r[k + 1].start
  }

  lemma {:induction false} RunsFromSorted(w: seq<bool>, i: nat)
    requires i <= |w|
    ensures Separated(RunsFrom(w, i))
    decreases |w| - i
  {
    if i < |w| {
      if !w[i] {
        RunsFromSorted(w, i + 1);
        assert RunsFrom(w, i) == RunsFrom(w, i + 1);
      } else {
        var e := RunEnd(w, i);
        RunsFromSorted(w, e);
        RunsFromInside(w, e);
        var r, rest := RunsFrom(w, i), RunsFrom(w, e);
        assert r == [Range(i, e - 1)] + rest;
        forall k | 0 <= k < |r| - 1
          ensures r[k].end + 1 < r[k + 1].start
        {
          if k > 0 {
            assert r[k] == rest[k - 1] && r[k + 1] == rest[k];
          } else {
            assert e <= rest[0].start < |w| && w[rest[0].start];
            assert r[0].end + 1 == e && r[1] == rest[0];
          }
        }
      }
    }
  }

  lemma {:induction false} RunsFromCover(w: seq<bool>, i: nat)
    requires i <= |w|
    ensures forall p :: i <= p < |w| ==> (w[p] <==> Covered(RunsFrom(w, i), p))
    decreases |w| - i
  {
    RunsFromInside(w, i);
    if i < |w| {
      var r := RunsFrom(w, i);
      if !w[i] {
        RunsFromCover(w, i + 1);
        assert r == RunsFrom(w, i + 1);
      } else {
        var e := RunEnd(w, i);
        var rest := RunsFrom(w, e);
        RunsFromCover(w, e);
        forall p | i <= p < |w| && w[p]
          ensures Covered(r, p)
        {
          if p < e {
            assert r[0].start <= p <= r[0].end;
          } else {
            var k :| 0 <= k < |rest| && rest[k].start <= p <= rest[k].end;
            assert r[k + 1] == rest[k];
          }
        }
      }
    }
  }

  /** What `list_ranges` promises: the ranges are maximal runs of written
      bytes, sorted and separated by unwritten bytes, and a byte lies in
      one of them exactly when it was written. */
  lemma RunsSpec(w: seq<bool>)
    ensures var r := Runs(w);
      && (forall k :: 0 <= k < |r| ==> MaximalRun(w, r[k]))
      && Separated(r)
      && (forall p :: 0 <= p < |w| ==> (w[p] <==> Covered(r, p)))
  {
    RunsFromInside(w, 0);
    RunsFromMaximal(w, 0);
    RunsFromSorted(w, 0);
    RunsFromCover(w, 0);
  }

  /** Unwritten bytes contribute no range. */
  lemma {:induction false} SkipUnwritten(w: seq<bool>, i: nat, j: nat)
    requires i <= j <= |w|
    requires forall p :: i <= p < j ==> !w[p]
    ensures RunsFrom(w, i) == RunsFrom(w, j)
    decreases j - i
  {
    if i < j {
      SkipUnwritten(w, i + 1, j);
    }
  }

  /** A stretch of written bytes `[i, j)` ended by an unwritten byte (or the
      end of the file) is reported as the one range `[i, j - 1]`. */
  lemma TakeRun(w: seq<bool>, i: nat, j: nat)
    requires i < j <= |w|
    requires forall p :: i <= p < j ==> w[p]
    requires j == |w| || !w[j]
    ensures RunsFrom(w, i) == [Range(i, j - 1)] + RunsFrom(w, j)
  {
    assert RunEnd(w, i) == j by {
      RunEndAt(w, i, j);
    }
  }

  lemma {:induction false} RunEndAt(w: seq<bool>, i: nat, j: nat)
    requires i <= j <= |w|
    requires forall p :: i <= p < j ==> w[p]
    requires j == |w| || !w[j]
    ensures RunEnd(w, i) == j
    decreases j - i
  {
    if i < j {
      RunEndAt(w, i + 1, j);
    }
  }

  /** A file nothing was written to lists no ranges. */
  lemma NoRangesWhenUnwritten(n: nat)
    ensures Runs(Flags(n, false)) == []
  {
    SkipUnwritten(Flags(n, false), 0, n);
  }

  // ---- ranged reads ----

  /** A ranged GET of `content`: `start` and `end` are inclusive offsets.
      An end without a start, or a content MD5 request without an end, is
      refused before any request; a start past the content, or an end
      before the start, is a range the service refuses; an end past the
      content is cut to the content. */
  function RangedRead(content: seq<byte>, start: Option<nat>, end: Option<nat>, md5: bool): (r: Result<seq<byte>>)
    ensures start.None? && end.Some? ==> r == Err(MissingStartRange)
    ensures !(start.None? && end.Some?) && md5 && end.None? ==> r == Err(MissingEndRange)
    ensures start.None? && end.None? && !md5 ==> r == Ok(content)
    ensures start.Some? && !(md5 && end.None?) ==>
      (r.Ok? <==> start.value < |content| && (end.None? || start.value <= end.value))
    ensures r.Ok? && start.Some? && end.Some? ==>
      var last := Min(end.value, |content| - 1);
      |r.value| == last - start.value + 1 && forall i :: 0 <= i < |r.value| ==> r.value[i] == content[start.value + i]
    ensures r.Ok? && start.Some? && end.None? ==> r.value == content[start.value..]
    ensures r.Err? ==> r.error != NotSeekable && r.error != InvalidBlockList
  {
    if start.None? && end.Some? then Err(MissingStartRange)
    else if md5 && end.None? then Err(MissingEndRange)
    else if start.None? then Ok(content)
    else if start.value >= |content| then Err(InvalidRange)
    else if end.Some? && end.value < start.value then Err(InvalidRange)
    else if end.Some? then Ok(content[start.value..Min(end.value, |content| - 1) + 1])
    else Ok(content[start.value..])
  }

  /** The inclusive end: `start_range = s, end_range = e` inside the content
      is Python's `content[s:e + 1]`. */
  lemma InclusiveEnd(content: seq<byte>, s: nat, e: nat, md5: bool)
    requires s <= e < |content|
    ensures RangedRead(content, Some(s), Some(e), md5) == Ok(content[s..e + 1])
  {
  }

  /** The offset in `content` at which a successful read starts. */
  function ReadBase(start: Option<nat>): nat
  {
    if start.Some? then start.value else 0
  }

  /** A chunk of the requested region, fetched by its own ranged GET. */
  lemma ChunkRead(content: seq<byte>, start: Option<nat>, end: Option<nat>, md5: bool, offset: nat, length: nat)
    requires RangedRead(content, start, end, md5).Ok?
    requires 0 < length && offset + length <= |RangedRead(content, start, end, md5).value|
    ensures var base := ReadBase(start);
      RangedRead(content, Some(base + offset), Some(base + offset + length - 1), false)
        == Ok(RangedRead(content, start, end, md5).value[offset..offset + length])
  {
    var region := RangedRead(content, start, end, md5).value;
    var base := ReadBase(start);
    ReadIsSlice(content, start, end, md5);
    var piece := region[offset..offset + length];
    forall i | 0 <= i < length
      ensures piece[i] == content[base + offset + i]
    {
      assert piece[i] == region[offset + i];
    }
    assert piece == content[base + offset..base + offset + length];
    InclusiveEnd(content, base + offset, base + offset + length - 1, false);
  }

  /** A successful read is the slice of the content from its start. */
  lemma ReadIsSlice(content: seq<byte>, start: Option<nat>, end: Option<nat>, md5: bool)
    requires RangedRead(content, start, end, md5).Ok?
    ensures var region := RangedRead(content, start, end, md5).value;
      var base := ReadBase(start);
      base + |region| <= |content| && region == content[base..base + |region|]
  {
    var region := RangedRead(content, start, end, md5).value;
    var base := ReadBase(start);
    if start.Some? && end.Some? {
      assert region == content[base..base + |region|];
    }
  }

  class ShareFile {
    var data: array<byte>
    /** Which bytes hold written data, as `list_ranges` reports them. */
    var written: array<bool>

    ghost predicate Valid()
      reads this
    {
      data.Length == written.Length
    }

    function Contents(): seq<byte>
      reads this, data
    {
      data[..]
    }

    function Written(): seq<bool>
      reads this, written
    {
      written[..]
    }

    /** `create_file(size)`: `size` zero bytes, none of them written. */
    constructor (size: nat)
      ensures Valid()
      ensures Contents() == Zeros(size) && Written() == Flags(size, false)
      ensures fresh(data) && fresh(written)
    {
      data := new byte[size](_ => 0);
      written := new bool[size](_ => false);
    }

    /** `update_range(src, start, end)`: bytes `start..end` (inclusive)
        become `src`; every other byte keeps its value. The range must lie in
        the file and `src` must fill it exactly. */
    method UpdateRange(src: seq<byte>, start: nat, end: nat) returns (r: Outcome)
      requires Valid()
      modifies data, written
      ensures Valid()
      ensures !(start <= end < data.Length && |src| == end - start + 1) ==>
        r == Fail(InvalidRange) && Contents() == old(Contents()) && Written() == old(Written())
      ensures start <= end < data.Length && |src| == end - start + 1 ==>
        && r == Pass
        && Contents() == Splice(old(Contents()), start, src)
        && Written() == Splice(old(Written()), start, Flags(|src|, true))
    {
      if !(start <= end < data.Length && |src| == end - start + 1) {
        return Fail(InvalidRange);
      }
      CopyInto(data, start, src);
      CopyInto(written, start, Flags(|src|, true));
      return Pass;
    }

    /** `clear_range(start, end)`: bytes `start..end` (inclusive) become zero
        and hold no data; every other byte keeps its value. */
    method ClearRange(start: nat, end: nat) returns (r: Outcome)
      requires Valid()
      modifies data, written
      ensures Valid()
      ensures !(start <= end < data.Length) ==>
        r == Fail(InvalidRange) && Contents() == old(Contents()) && Written() == old(Written())
      ensures start <= end < data.Length ==>
        && r == Pass
        && Contents() == Splice(old(Contents()), start, Zeros(end - start + 1))
        && Written() == Splice(old(Written()), start, Flags(end - start + 1, false))
    {
      if !(start <= end < data.Length) {
        return Fail(InvalidRange);
      }
      CopyInto(data, start, Zeros(end - start + 1));
      CopyInto(written, start, Flags(end - start + 1, false));
      return Pass;
    }

    /** `resize_file(n)`: the file is `n` bytes long; the bytes below both
        lengths stay, new bytes are zero and unwritten. */
    method Resize(n: nat)
      requires Valid()
      modifies this
      ensures Valid() && fresh(data) && fresh(written)
      ensures Contents() == Resized(old(Contents()), n, 0)
      ensures Written() == Resized(old(Written()), n, false)
    {
      var keep := Min(n, data.Length);
      var newData := new byte[n](_ => 0);
      var newWritten := new bool[n](_ => false);
      CopyInto(newData, 0, data[..keep]);
      CopyInto(newWritten, 0, written[..keep]);
      data := newData;
      written := newWritten;
    }

    /** `list_ranges`: scan the file for the runs of written bytes. */
    method ListRanges() returns (ranges: seq<Range>)
      requires Valid()
      ensures ranges == Runs(Written())
    {
      ranges := [];
      var i := 0;
      while i < written.Length
        invariant 0 <= i <= written.Length
        invariant ranges + RunsFrom(written[..], i) == Runs(written[..])
        decreases written.Length - i
      {
        if !written[i] {
          i := i + 1;
        } else {
          var j := i;
          while j < written.Length && written[j]
            invariant i <= j <= written.Length
            invariant forall p :: i <= p < j ==> written[p]
            invariant RunEnd(written[..], i) == RunEnd(written[..], j)
            decreases written.Length - j
          {
            j := j + 1;
          }
          ranges := ranges + [Range(i, j - 1)];
          i := j;
        }
      }
    }

    /** `get_file_to_stream`/`get_file_to_bytes`. A transfer with more than one
        connection needs a seekable sink. Arguments are checked first. More
        than one connection and a region above `threshold` bytes make a
        chunked download: one ranged GET per chunk, each written at its own
        offset of the sink, completing in `order`; otherwise one GET. */
    method Download(seekableSink: bool, maxConnections: nat, start: Option<nat>, end: Option<nat>, md5: bool,
                    order: seq<nat>, chunkSize: nat, threshold: nat)
      returns (r: Result<Transfer>)
      requires Valid() && chunkSize > 0
      requires RangedRead(Contents(), start, end, md5).Ok? && maxConnections > 1 ==>
        IsOrder(order, |Plan(|RangedRead(Contents(), start, end, md5).value|, chunkSize)|)
      ensures var read := RangedRead(Contents(), start, end, md5);
        && (read.Err? ==> r == Err(read.error))
        && (read.Ok? && maxConnections > 1 && !seekableSink ==> r == Err(NotSeekable))
        && (read.Ok? && !(maxConnections > 1 && !seekableSink) ==>
              var n := |read.value|;
              var plan := Plan(n, chunkSize);
              && r.Ok?
              && r.value.content == read.value
              && (!(maxConnections > 1 && n > threshold) ==>
                    r.value.progress == DownloadProgress(n, chunkSize, true))
              && (maxConnections > 1 && n > threshold ==>
                    && Within(order, |plan|)
                    && r.value.progress == Reported(plan, order, Some(n))
                    && (r.value.progress == DownloadProgress(n, chunkSize, false) <==> TailInOrder(plan, chunkSize, order))))
    {
      var read := RangedRead(data[..], start, end, md5);
      if read.Err? {
        return Err(read.error);
      }
      if maxConnections > 1 && !seekableSink {
        return Err(NotSeekable);
      }
      var region := read.value;
      var n := |region|;
      if !(maxConnections > 1 && n > threshold) {
        return Ok(Transfer(region, [Event(0, None), Event(n, Some(n))]));
      }
      var plan := Plan(n, chunkSize);
      var sink, progress := FetchChunks(data[..], start, end, md5, order, chunkSize);
      ProgressMatchesHelperIff(n, chunkSize, order, Some(n));
      OrderLength(order, |plan|);
      return Ok(Transfer(sink[..], progress));
    }

    /** `create_file_from_stream(stream, count)`: the file is created with
        the first `count` bytes of the stream, uploaded chunk by chunk through
        `update_range`, in `order` when more than one connection is used
        (which needs a seekable stream). The result is the progress list. */
    method CreateFromStream(stream: seq<byte>, count: nat, seekable: bool, maxConnections: nat,
                            order: seq<nat>, chunkSize: nat)
      returns (r: Result<seq<Event>>)
      requires Valid() && chunkSize > 0
      requires maxConnections > 1 ==> IsOrder(order, |Plan(|StreamPayload(stream, Some(count))|, chunkSize)|)
      modifies this
      ensures Valid()
      ensures maxConnections > 1 && !seekable ==>
        r == Err(NotSeekable) && data == old(data) && written == old(written)
      ensures !(maxConnections > 1 && !seekable) ==>
        var payload := StreamPayload(stream, Some(count));
        var plan := Plan(|payload|, chunkSize);
        var schedule := Schedule(maxConnections > 1, order, |plan|);
        && r.Ok? && fresh(data) && fresh(written)
        && Contents() == payload
        && Written() == Flags(|payload|, true)
        && Within(schedule, |plan|)
        && r.value == Reported(plan, schedule, Some(|payload|))
        && (r.value == UploadProgress(|payload|, chunkSize, Some(|payload|)) <==> TailInOrder(plan, chunkSize, schedule))
    {
      if maxConnections > 1 && !seekable {
        return Err(NotSeekable);
      }
      var payload := StreamPayload(stream, Some(count));
      var n := |payload|;
      var plan := Plan(n, chunkSize);
      var schedule := Schedule(maxConnections > 1, order, |plan|);
      ScheduleIsOrder(maxConnections > 1, order, |plan|);
      data := new byte[n](_ => 0);
      written := new bool[n](_ => false);
      var progress := StoreChunks(payload, schedule, chunkSize);
      ProgressMatchesHelperIff(n, chunkSize, schedule, Some(n));
      return Ok(progress);
    }

    /** The chunk loop of an upload: every chunk of `payload`, in `schedule`
        order, is written with `update_range`; the file ends up holding the
        payload, all of it written. */
    method StoreChunks(payload: seq<byte>, schedule: seq<nat>, chunkSize: nat) returns (progress: seq<Event>)
      requires Valid() && chunkSize > 0 && data.Length == |payload|
      requires IsOrder(schedule, |Plan(|payload|, chunkSize)|)
      modifies data, written
      ensures Valid()
      ensures Contents() == payload && Written() == Flags(|payload|, true)
      ensures Within(schedule, |Plan(|payload|, chunkSize)|)
      ensures progress == Reported(Plan(|payload|, chunkSize), schedule, Some(|payload|))
    {
      var n := |payload|;
      var plan := Plan(n, chunkSize);
      OrderLength(schedule, |plan|);
      PlanFits(n, chunkSize);
      progress := [Event(0, Some(n))];
      var done := 0;
      var k := 0;
      while k < |plan|
        invariant 0 <= k <= |plan| && Valid() && data.Length == n
        invariant done == Completed(plan, schedule[..k])
        invariant progress == Reported(plan, schedule[..k], Some(n))
        invariant PlacedUpTo(data[..], payload, plan, schedule, k)
        invariant PlacedUpTo(written[..], Flags(n, true), plan, schedule, k)
      {
        var chunk := plan[schedule[k]];
        PlaceNext(data[..], payload, plan, schedule, k);
        PlaceNext(written[..], Flags(n, true), plan, schedule, k);
        StoreChunk(payload, chunk);
        ReportedStep(plan, schedule, k, Some(n));
        done := done + chunk.length;
        progress := progress + [Event(done, Some(n))];
        k := k + 1;
      }
      assert schedule[..|plan|] == schedule;
      PlacedAll(data[..], payload, chunkSize, schedule);
      PlacedAll(written[..], Flags(n, true), chunkSize, schedule);
    }

    /** One chunk of an upload: `update_range` over the chunk's bytes. */
    method StoreChunk(payload: seq<byte>, chunk: Chunk)
      requires Valid() && data.Length == |payload|
      requires 0 < chunk.length && End(chunk) <= |payload|
      modifies data, written
      ensures Valid()
      ensures Contents() == Splice(old(Contents()), chunk.offset, ChunkData(payload, chunk))
      ensures Written() == Splice(old(Written()), chunk.offset, ChunkData(Flags(|payload|, true), chunk))
    {
      var piece := ChunkData(payload, chunk);
      assert ChunkData(Flags(|payload|, true), chunk) == Flags(|piece|, true);
      var outcome := UpdateRange(piece, chunk.offset, End(chunk) - 1);
    }

    /** `create_file_from_bytes(data, index, count)`: upload `data[index:]`,
        or `data[index:index + count]`. */
    method CreateFromBytes(bytes: seq<byte>, index: nat, count: Option<nat>, maxConnections: nat,
                           order: seq<nat>, chunkSize: nat)
      returns (r: Result<seq<Event>>)
      requires Valid() && chunkSize > 0
      requires maxConnections > 1 ==> IsOrder(order, |Plan(|BytesPayload(bytes, index, count)|, chunkSize)|)
      modifies this
      ensures Valid()
      ensures var payload := BytesPayload(bytes, index, count);
        var plan := Plan(|payload|, chunkSize);
        var schedule := Schedule(maxConnections > 1, order, |plan|);
        && r.Ok? && fresh(data) && fresh(written)
        && Contents() == payload
        && Written() == Flags(|payload|, true)
        && Within(schedule, |plan|)
        && r.value == Reported(plan, schedule, Some(|payload|))
        && (r.value == UploadProgress(|payload|, chunkSize, Some(|payload|)) <==> TailInOrder(plan, chunkSize, schedule))
    {
      var payload := BytesPayload(bytes, index, count);
      assert StreamPayload(payload, Some(|payload|)) == payload;
      r := CreateFromStream(payload, |payload|, true, maxConnections, order, chunkSize);
    }
  }

  /** The chunked half of a download: one ranged GET per chunk of the
      requested region, each written at its own offset of a seekable sink,
      in the completion `order`. */
  method FetchChunks(content: seq<byte>, start: Option<nat>, end: Option<nat>, md5: bool,
                     order: seq<nat>, chunkSize: nat)
    returns (sink: array<byte>, progress: seq<Event>)
    requires chunkSize > 0 && RangedRead(content, start, end, md5).Ok?
    requires IsOrder(order, |Plan(|RangedRead(content, start, end, md5).value|, chunkSize)|)
    ensures Within(order, |Plan(|RangedRead(content, start, end, md5).value|, chunkSize)|)
    ensures fresh(sink)
    ensures var region := RangedRead(content, start, end, md5).value;
      && sink[..] == region
      && progress == Reported(Plan(|region|, chunkSize), order, Some(|region|))
  {
    var region := RangedRead(content, start, end, md5).value;
    var n := |region|;
    var plan := Plan(n, chunkSize);
    OrderLength(order, |plan|);
    PlanFits(n, chunkSize);
    sink := new byte[n](_ => 0);
    progress := [Event(0, Some(n))];
    var done := 0;
    var k := 0;
    while k < |plan|
      invariant 0 <= k <= |plan| && sink.Length == n
      invariant done == Completed(plan, order[..k])
      invariant progress == Reported(plan, order[..k], Some(n))
      invariant PlacedUpTo(sink[..], region, plan, order, k)
    {
      var chunk := plan[order[k]];
      PlaceNext(sink[..], region, plan, order, k);
      FetchChunk(content, start, end, md5, chunk, sink);
      ReportedStep(plan, order, k, Some(n));
      done := done + chunk.length;
      progress := progress + [Event(done, Some(n))];
      k := k + 1;
    }
    assert order[..|plan|] == order;
    PlacedAll(sink[..], region, chunkSize, order);
  }

  /** One chunk of a download: a ranged GET of the chunk's bytes, written to
      the sink at the chunk's offset. */
  method FetchChunk(content: seq<byte>, start: Option<nat>, end: Option<nat>, md5: bool, chunk: Chunk, sink: array<byte>)
    requires RangedRead(content, start, end, md5).Ok?
    requires sink.Length == |RangedRead(content, start, end, md5).value|
    requires 0 < chunk.length && End(chunk) <= sink.Length
    modifies sink
    ensures sink[..] == Splice(old(sink[..]), chunk.offset, ChunkData(RangedRead(content, start, end, md5).value, chunk))
  {
    ChunkRead(content, start, end, md5, chunk.offset, chunk.length);
    var base := ReadBase(start);
    var piece := RangedRead(content, Some(base + chunk.offset), Some(base + End(chunk) - 1), false);
    CopyInto(sink, chunk.offset, piece.value);
  }
}
