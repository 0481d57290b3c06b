/** The progress lists the test modules expect from a chunked transfer.
    A progress callback receives `(bytes done, total)`, with the total left
    out (`None`) when the size of the payload is not known in advance. */
module Progress {
  import opened Common

  // The test fixtures shrink the service limits so that chunking is
  // exercised on small payloads (single-shot threshold 64 KiB, chunks 4 KiB).
  const FILE_MAX_DATA_SIZE: nat := 64 * 1024
  const FILE_MAX_CHUNK_DATA_SIZE: nat := 4 * 1024
  const BLOB_MAX_DATA_SIZE: nat := 64 * 1024
  const BLOB_MAX_CHUNK_DATA_SIZE: nat := 4 * 1024

  /** One call of the progress callback. */
  datatype Event = Event(current: nat, total: Option<nat>)

  function TotalFor(size: nat, unknownSize: bool): Option<nat>
  {
    if unknownSize then None else Some(size)
  }

  /** The events `(index, total), (index + chunkSize, total), ...` for every
      index still below `size`. */
  function StepsFrom(index: nat, size: nat, chunkSize: nat, total: Option<nat>): seq<Event>
    requires chunkSize > 0
    decreases if index < size then size - index else 0
  {
    if index < size then [Event(index, total)] + StepsFrom(index + chunkSize, size, chunkSize, total)
    else []
  }

  /** Reference list of an upload of `size` bytes: one event per chunk start,
      then the terminal event. */
  function UploadProgress(size: nat, chunkSize: nat, total: Option<nat>): seq<Event>
    requires chunkSize > 0
  {
    StepsFrom(0, size, chunkSize, total) + [Event(size, total)]
  }

  /** Reference list of a download: a single GET reports `(0, None)` and then
      the size; a chunked download reports every chunk start against the size. */
  function DownloadProgress(size: nat, chunkSize: nat, singleDownload: bool): seq<Event>
    requires chunkSize > 0
  {
    if singleDownload then [Event(0, None), Event(size, Some(size))]
    else StepsFrom(0, size, chunkSize, Some(size)) + [Event(size, Some(size))]
  }

  /** The upload helper of both test modules (the file module defaults
      `unknownSize` to true, the blob module to false). */
  method ExpectedUploadProgress(fileSize: nat, unknownSize: bool, chunkSize: nat) returns (result: seq<Event>)
    requires chunkSize > 0
    ensures result == UploadProgress(fileSize, chunkSize, TotalFor(fileSize, unknownSize))
  {
    result := [];
    var index: nat := 0;
    var total := if unknownSize then None else Some(fileSize);
    while index < fileSize
      invariant result + StepsFrom(index, fileSize, chunkSize, total) == StepsFrom(0, fileSize, chunkSize, total)
      decreases fileSize - index
    {
      result := result + [Event(index, total)];
      index := index + chunkSize;
    }
    result := result + [Event(fileSize, total)];
  }

  /** The download helper of the file test module. */
  method ExpectedDownloadProgress(fileSize: nat, singleDownload: bool, chunkSize: nat) returns (result: seq<Event>)
    requires chunkSize > 0
    ensures result == DownloadProgress(fileSize, chunkSize, singleDownload)
  {
    result := [];
    var index: nat := 0;
    if singleDownload {
      result := result + [Event(0, None)];
    } else {
      while index < fileSize
        invariant result + StepsFrom(index, fileSize, chunkSize, Some(fileSize))
               == StepsFrom(0, fileSize, chunkSize, Some(fileSize))
        decreases fileSize - index
      {
        result := result + [Event(index, Some(fileSize))];
        index := index + chunkSize;
      }
    }
    result := result + [Event(fileSize, Some(fileSize))];
  }

  /** The stepping list is as long as the number of chunks it takes to
      cover the `size - index` bytes still to go. */
  lemma {:induction false} StepsFromLength(index: nat, size: nat, chunkSize: nat, total: Option<nat>)
    requires chunkSize > 0
    ensures |StepsFrom(index, size, chunkSize, total)| == if index < size then CeilDiv(size - index, chunkSize) else 0
    decreases if index < size then size - index else 0
  {
    if index < size {
      StepsFromLength(index + chunkSize, size, chunkSize, total);
      if size - index > chunkSize {
        CeilDivStep(size - index, chunkSize);
      } else {
        CeilDivOne(size - index, chunkSize);
      }
    }
  }

  /** Event `t` of the stepping list is at `index + t * chunkSize`, below `size`. */
  lemma {:induction false} StepsFromAt(index: nat, size: nat, chunkSize: nat, total: Option<nat>, t: nat)
    requires chunkSize > 0
    requires t < |StepsFrom(index, size, chunkSize, total)|
    ensures StepsFrom(index, size, chunkSize, total)[t] == Event(index + t * chunkSize, total)
    ensures index + t * chunkSize < size
    decreases t
  {
    if t > 0 {
      StepsFromAt(index + chunkSize, size, chunkSize, total, t - 1);
      assert index + chunkSize + (t - 1) * chunkSize == index + t * chunkSize;
    }
  }

  /** One chunk past the last event reaches `size`. */
  lemma {:induction false} StepsFromCover(index: nat, size: nat, chunkSize: nat, total: Option<nat>)
    requires chunkSize > 0
    ensures var n := |StepsFrom(index, size, chunkSize, total)|;
      n > 0 ==> index + n * chunkSize >= size
    decreases if index < size then size - index else 0
  {
    if index < size {
      var rest := StepsFrom(index + chunkSize, size, chunkSize, total);
      StepsFromCover(index + chunkSize, size, chunkSize, total);
      var n := |rest| + 1;
      assert index + chunkSize + |rest| * chunkSize == index + n * chunkSize;
    }
  }

  /** Closed form of the stepping list from 0. */
  lemma StepsFromShape(index: nat, size: nat, chunkSize: nat, total: Option<nat>)
    requires chunkSize > 0
    ensures var r := StepsFrom(index, size, chunkSize, total);
      && |r| == (if index < size then CeilDiv(size - index, chunkSize) else 0)
      && (forall t :: 0 <= t < |r| ==> r[t] == Event(index + t * chunkSize, total))
      && (forall t :: 0 <= t < |r| ==> index + t * chunkSize < size)
      && (|r| > 0 ==> index + |r| * chunkSize >= size)
  {
    StepsFromLength(index, size, chunkSize, total);
    StepsFromCover(index, size, chunkSize, total);
    forall t | 0 <= t < |StepsFrom(index, size, chunkSize, total)|
      ensures StepsFrom(index, size, chunkSize, total)[t] == Event(index + t * chunkSize, total)
      ensures index + t * chunkSize < size
    {
      StepsFromAt(index, size, chunkSize, total, t);
    }
  }

  /** The upload list has `ceil(size / chunkSize) + 1` events and event `t`
      reports `min(t * chunkSize, size)` bytes against the given total. */
  lemma UploadProgressShape(size: nat, chunkSize: nat, total: Option<nat>)
    requires chunkSize > 0
    ensures var r := UploadProgress(size, chunkSize, total);
      && |r| == CeilDiv(size, chunkSize) + 1
      && forall t :: 0 <= t < |r| ==> r[t] == Event(Min(t * chunkSize, size), total)
  {
    var steps := StepsFrom(0, size, chunkSize, total);
    var r := UploadProgress(size, chunkSize, total);
    StepsFromShape(0, size, chunkSize, total);
    if size == 0 {
      CeilDivZero(chunkSize);
    }
    forall t | 0 <= t < |r|
      ensures r[t] == Event(Min(t * chunkSize, size), total)
    {
      if t < |steps| {
        assert r[t] == steps[t];
      } else {
        assert t == |steps|;
        assert size == 0 || t * chunkSize >= size;
      }
    }
  }

  /** The list starts at `(0, total)` and ends at `(size, total)`. */
  lemma UploadProgressEnds(size: nat, chunkSize: nat, total: Option<nat>)
    requires chunkSize > 0
    ensures var r := UploadProgress(size, chunkSize, total);
      r[0] == Event(0, total) && r[|r| - 1] == Event(size, total)
  {
    UploadProgressShape(size, chunkSize, total);
  }

  /** The byte counts of the upload list strictly increase. */
  lemma UploadProgressIncreasing(size: nat, chunkSize: nat, total: Option<nat>)
    requires chunkSize > 0
    ensures var r := UploadProgress(size, chunkSize, total);
      forall i, j :: 0 <= i < j < |r| ==> r[i].current < r[j].current
  {
    var r := UploadProgress(size, chunkSize, total);
    UploadProgressShape(size, chunkSize, total);
    StepsFromShape(0, size, chunkSize, total);
    forall i, j | 0 <= i < j < |r|
      ensures r[i].current < r[j].current
    {
      assert i * chunkSize < size;
      assert j * chunkSize == i * chunkSize + (j - i) * chunkSize;
      MulAtLeast(j - i, chunkSize);
    }
  }

  /** Every step adds exactly one chunk, except the last, which adds the
      remainder (between 1 and `chunkSize` bytes). */
  lemma UploadProgressSteps(size: nat, chunkSize: nat, total: Option<nat>)
    requires chunkSize > 0
    ensures var r := UploadProgress(size, chunkSize, total);
      && (forall i :: 0 <= i < |r| - 2 ==> r[i + 1].current == r[i].current + chunkSize)
      && (|r| >= 2 ==> 0 < r[|r| - 1].current - r[|r| - 2].current <= chunkSize)
  {
    var r := UploadProgress(size, chunkSize, total);
    UploadProgressShape(size, chunkSize, total);
    StepsFromShape(0, size, chunkSize, total);
    forall i | 0 <= i < |r| - 2
      ensures r[i + 1].current == r[i].current + chunkSize
    {
      assert (i + 1) * chunkSize < size;
      assert (i + 1) * chunkSize == i * chunkSize + chunkSize;
    }
    if |r| >= 2 {
      var n := |r| - 1;
      assert (n - 1) * chunkSize < size <= n * chunkSize;
      assert n * chunkSize == (n - 1) * chunkSize + chunkSize;
    }
  }

  /** Every event carries the same total; with the helper's `unknownSize`
      flag the total is missing from every event exactly when the size is
      unknown. */
  lemma UploadProgressTotals(size: nat, chunkSize: nat, unknownSize: bool)
    requires chunkSize > 0
    ensures var r := UploadProgress(size, chunkSize, TotalFor(size, unknownSize));
      forall i :: 0 <= i < |r| ==>
        (r[i].total == None <==> unknownSize) && (!unknownSize ==> r[i].total == Some(size))
  {
    UploadProgressShape(size, chunkSize, TotalFor(size, unknownSize));
  }

  /** A payload of at most one chunk yields exactly `[(0, n), (n, n)]`. */
  lemma SmallPayloadProgress(n: nat, chunkSize: nat)
    requires 0 < n <= chunkSize
    ensures UploadProgress(n, chunkSize, Some(n)) == [Event(0, Some(n)), Event(n, Some(n))]
  {
    assert StepsFrom(chunkSize, n, chunkSize, Some(n)) == [];
  }

  /** The two forms of the download list: a single GET is exactly
      `[(0, None), (size, size)]`; a chunked download is the upload list
      against the known size, `(0, size), (chunkSize, size), ..., (size, size)`. */
  lemma DownloadProgressForms(size: nat, chunkSize: nat)
    requires chunkSize > 0
    ensures DownloadProgress(size, chunkSize, true) == [Event(0, None), Event(size, Some(size))]
    ensures var r := DownloadProgress(size, chunkSize, false);
      && r == UploadProgress(size, chunkSize, Some(size))
      && |r| == CeilDiv(size, chunkSize) + 1
      && r[0] == Event(0, Some(size)) && r[|r| - 1] == Event(size, Some(size))
      && forall t :: 0 <= t < |r| ==> r[t] == Event(Min(t * chunkSize, size), Some(size))
  {
    UploadProgressShape(size, chunkSize, Some(size));
  }
}
