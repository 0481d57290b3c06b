/** How a payload is cut into chunks, how the chunks are put back together,
    and what the progress aggregator reports when the chunks complete in
    some order. */
module Chunking {
  import opened Common
  import opened Progress

  /** One unit of a chunked transfer: its place in the sequence and its span. */
  datatype Chunk = Chunk(index: nat, offset: nat, length: nat)

  function End(ch: Chunk): nat
  {
    ch.offset + ch.length
  }

  /** The chunks from byte `offset` on, numbered from `k`: the same stepping
      loop as the progress helpers, each chunk cut short at `size`. */
  function PlanFrom(k: nat, offset: nat, size: nat, chunkSize: nat): seq<Chunk>
    requires chunkSize > 0
    decreases if offset < size then size - offset else 0
  {
    if offset < size then
      [Chunk(k, offset, Min(chunkSize, size - offset))] + PlanFrom(k + 1, offset + chunkSize, size, chunkSize)
    else []
  }

  /** The chunk plan of a `size`-byte payload. */
  function Plan(size: nat, chunkSize: nat): seq<Chunk>
    requires chunkSize > 0
  {
    PlanFrom(0, 0, size, chunkSize)
  }

  lemma {:induction false} PlanFromLength(k: nat, offset: nat, size: nat, chunkSize: nat)
    requires chunkSize > 0
    ensures |PlanFrom(k, offset, size, chunkSize)| == |StepsFrom(offset, size, chunkSize, None)|
    decreases if offset < size then size - offset else 0
  {
    if offset < size {
      PlanFromLength(k + 1, offset + chunkSize, size, chunkSize);
    }
  }

  lemma {:induction false} PlanFromAt(k: nat, offset: nat, size: nat, chunkSize: nat, t: nat)
    requires chunkSize > 0
    requires t < |PlanFrom(k, offset, size, chunkSize)|
    ensures offset + t * chunkSize < size
    ensures PlanFrom(k, offset, size, chunkSize)[t]
         == Chunk(k + t, offset + t * chunkSize, Min(chunkSize, size - (offset + t * chunkSize)))
    decreases t
  {
    if t > 0 {
      PlanFromAt(k + 1, offset + chunkSize, size, chunkSize, t - 1);
      var t1: nat := t - 1;
      MulStep(chunkSize, t1);
      assert offset + chunkSize + t1 * chunkSize == offset + t * chunkSize;
    }
  }

  /** Closed form of the plan: chunk `k` starts at `k * chunkSize`, and there
      are `ceil(size / chunkSize)` of them. */
  lemma PlanShape(size: nat, chunkSize: nat)
    requires chunkSize > 0
    ensures var p := Plan(size, chunkSize);
      && |p| == CeilDiv(size, chunkSize)
      && (forall k :: 0 <= k < |p| ==> k * chunkSize < size)
      && (forall k :: 0 <= k < |p| ==> p[k] == Chunk(k, k * chunkSize, Min(chunkSize, size - k * chunkSize)))
      && (|p| > 0 ==> (|p| - 1) * chunkSize < size <= |p| * chunkSize)
  {
    var p := Plan(size, chunkSize);
    PlanFromLength(0, 0, size, chunkSize);
    StepsFromShape(0, size, chunkSize, None);
    if size == 0 {
      CeilDivZero(chunkSize);
    }
    forall k | 0 <= k < |p|
      ensures k * chunkSize < size
      ensures p[k] == Chunk(k, k * chunkSize, Min(chunkSize, size - k * chunkSize))
    {
      PlanFromAt(0, 0, size, chunkSize, k);
    }
    if |p| > 0 {
      PlanFromAt(0, 0, size, chunkSize, |p| - 1);
    }
  }

  /** The plan tiles the payload: contiguous chunks from 0 to `size`, all of
      `chunkSize` bytes except the last, which holds the 1 to `chunkSize`
      remaining bytes; chunk `k` starts where event `k` of the upload
      progress list says. */
  lemma PlanTiles(size: nat, chunkSize: nat, total: Option<nat>)
    requires chunkSize > 0
    ensures var p := Plan(size, chunkSize);
      && |p| == CeilDiv(size, chunkSize)
      && (p == [] <==> size == 0)
      && (forall k :: 0 <= k < |p| ==> p[k].index == k && 0 < p[k].length <= chunkSize && End(p[k]) <= size)
      && (forall k :: 0 <= k < |p| - 1 ==> p[k].length == chunkSize && End(p[k]) == p[k + 1].offset)
      && (p != [] ==> p[0].offset == 0 && End(p[|p| - 1]) == size)
      && |UploadProgress(size, chunkSize, total)| == |p| + 1
      && (forall k :: 0 <= k < |p| ==> p[k].offset == UploadProgress(size, chunkSize, total)[k].current)
  {
    var p := Plan(size, chunkSize);
    PlanShape(size, chunkSize);
    UploadProgressShape(size, chunkSize, total);
    forall k | 0 <= k < |p| - 1
      ensures p[k].length == chunkSize && End(p[k]) == p[k + 1].offset
    {
      assert (k + 1) * chunkSize < size;
      assert (k + 1) * chunkSize == k * chunkSize + chunkSize;
    }
  }

  /** Every chunk of the plan lies within the payload. */
  lemma PlanFits(size: nat, chunkSize: nat)
    requires chunkSize > 0
    ensures FitsIn(Plan(size, chunkSize), size)
    ensures forall k :: 0 <= k < |Plan(size, chunkSize)| ==> Plan(size, chunkSize)[k].length > 0
  {
    PlanTiles(size, chunkSize, None);
  }

  /** The bytes a chunk carries. */
  function ChunkData<T>(payload: seq<T>, ch: Chunk): seq<T>
    requires End(ch) <= |payload|
  {
    payload[ch.offset..End(ch)]
  }

  predicate FitsIn(plan: seq<Chunk>, size: nat)
  {
    forall k :: 0 <= k < |plan| ==> End(plan[k]) <= size
  }

  /** The bytes of every chunk of `plan`, in plan order. */
  function Pieces(payload: seq<byte>, plan: seq<Chunk>): (r: seq<seq<byte>>)
    requires FitsIn(plan, |payload|)
    ensures |r| == |plan| && forall k :: 0 <= k < |plan| ==> r[k] == ChunkData(payload, plan[k])
  {
    seq(|plan|, k requires 0 <= k < |plan| => ChunkData(payload, plan[k]))
  }

  /** Where the first `k` chunks of a tiling plan end. */
  function Reach(plan: seq<Chunk>, k: nat): nat
    requires k <= |plan|
  {
    if k == 0 then 0 else End(plan[k - 1])
  }

  /** Each chunk starts where the previous one ends, the first at 0. */
  predicate Contiguous(plan: seq<Chunk>)
  {
    && (plan != [] ==> plan[0].offset == 0)
    && forall k :: 0 <= k < |plan| - 1 ==> End(plan[k]) == plan[k + 1].offset
  }

  lemma {:induction false} FlattenPrefix(payload: seq<byte>, plan: seq<Chunk>, k: nat)
    requires FitsIn(plan, |payload|) && Contiguous(plan) && k <= |plan|
    ensures Flatten(Pieces(payload, plan)[..k]) == payload[..Reach(plan, k)]
    decreases k
  {
    if k > 0 {
      FlattenPrefix(payload, plan, k - 1);
      var parts := Pieces(payload, plan)[..k];
      assert parts[..k - 1] == Pieces(payload, plan)[..k - 1];
      var ch := plan[k - 1];
      assert parts[k - 1] == payload[ch.offset..End(ch)];
      assert Reach(plan, k - 1) == ch.offset;
      assert payload[..ch.offset] + payload[ch.offset..End(ch)] == payload[..End(ch)];
    }
  }

  /** Concatenating the chunks of the plan in sequence order gives back the payload. */
  lemma AssemblePlan(payload: seq<byte>, chunkSize: nat)
    requires chunkSize > 0
    ensures FitsIn(Plan(|payload|, chunkSize), |payload|)
    ensures Flatten(Pieces(payload, Plan(|payload|, chunkSize))) == payload
  {
    var p := Plan(|payload|, chunkSize);
    PlanTiles(|payload|, chunkSize, None);
    FlattenPrefix(payload, p, |p|);
    assert Pieces(payload, p)[..|p|] == Pieces(payload, p);
  }

  /** Chunk `ch` of the local buffer `s` already holds the payload's bytes. */
  ghost predicate Placed<T>(s: seq<T>, payload: seq<T>, ch: Chunk)
  {
    End(ch) <= |s| && End(ch) <= |payload| && s[ch.offset..End(ch)] == payload[ch.offset..End(ch)]
  }

  /** A positioned write of a chunk places that chunk. */
  lemma WritePlaces<T>(s: seq<T>, payload: seq<T>, ch: Chunk)
    requires End(ch) <= |s| && End(ch) <= |payload|
    ensures Placed(Splice(s, ch.offset, ChunkData(payload, ch)), payload, ch)
  {
    var s' := Splice(s, ch.offset, ChunkData(payload, ch));
    assert s'[ch.offset..End(ch)] == payload[ch.offset..End(ch)];
  }

  /** A positioned write of a chunk disturbs no chunk placed before it. */
  lemma WriteKeeps<T>(s: seq<T>, payload: seq<T>, ch: Chunk, other: Chunk)
    requires End(ch) <= |s| && End(ch) <= |payload|
    requires Placed(s, payload, other)
    ensures Placed(Splice(s, ch.offset, ChunkData(payload, ch)), payload, other)
  {
    var s' := Splice(s, ch.offset, ChunkData(payload, ch));
    forall i | other.offset <= i < End(other)
      ensures s'[i] == payload[i]
    {
      assert s[i] == s[other.offset..End(other)][i - other.offset];
    }
    assert s'[other.offset..End(other)] == payload[other.offset..End(other)];
  }

  /** The chunks `schedule[..k]` of the buffer `s` are placed. */
  ghost predicate PlacedUpTo<T>(s: seq<T>, payload: seq<T>, plan: seq<Chunk>, schedule: seq<nat>, k: nat)
  {
    && FitsIn(plan, |payload|)
    && k <= |schedule|
    && Within(schedule, |plan|)
    && forall j :: 0 <= j < k ==> Placed(s, payload, plan[schedule[j]])
  }

  /** Writing the next chunk of the schedule extends the placed prefix. */
  lemma PlaceNext<T>(s: seq<T>, payload: seq<T>, plan: seq<Chunk>, schedule: seq<nat>, k: nat)
    requires PlacedUpTo(s, payload, plan, schedule, k) && k < |schedule| && |s| == |payload|
    ensures var ch := plan[schedule[k]];
      PlacedUpTo(Splice(s, ch.offset, ChunkData(payload, ch)), payload, plan, schedule, k + 1)
  {
    var ch := plan[schedule[k]];
    WritePlaces(s, payload, ch);
    forall j | 0 <= j < k
      ensures Placed(Splice(s, ch.offset, ChunkData(payload, ch)), payload, plan[schedule[j]])
    {
      WriteKeeps(s, payload, ch, plan[schedule[j]]);
    }
  }

  /** Once the whole schedule is written, in whatever order, the buffer is the payload. */
  lemma PlacedAll<T>(s: seq<T>, payload: seq<T>, chunkSize: nat, schedule: seq<nat>)
    requires chunkSize > 0 && |s| == |payload|
    requires IsOrder(schedule, |Plan(|payload|, chunkSize)|)
    requires PlacedUpTo(s, payload, Plan(|payload|, chunkSize), schedule, |schedule|)
    ensures s == payload
  {
    var plan := Plan(|payload|, chunkSize);
    IsOrderFacts(schedule, |plan|);
    forall x | 0 <= x < |plan|
      ensures Placed(s, payload, plan[x])
    {
      assert x in schedule;
      var j :| 0 <= j < |schedule| && schedule[j] == x;
    }
    AllPlaced(s, payload, chunkSize);
  }

  lemma {:induction false} PlacedPrefix<T>(s: seq<T>, payload: seq<T>, chunkSize: nat, k: nat)
    requires chunkSize > 0 && |s| == |payload|
    requires k <= |Plan(|payload|, chunkSize)|
    requires forall j :: 0 <= j < k ==> Placed(s, payload, Plan(|payload|, chunkSize)[j])
    ensures Reach(Plan(|payload|, chunkSize), k) <= |s|
    ensures s[..Reach(Plan(|payload|, chunkSize), k)] == payload[..Reach(Plan(|payload|, chunkSize), k)]
    decreases k
  {
    var p := Plan(|payload|, chunkSize);
    PlanTiles(|payload|, chunkSize, None);
    if k > 0 {
      PlacedPrefix(s, payload, chunkSize, k - 1);
      assert Reach(p, k - 1) == p[k - 1].offset;
      assert Placed(s, payload, p[k - 1]);
      assert s[..Reach(p, k)] == s[..Reach(p, k - 1)] + s[p[k - 1].offset..End(p[k - 1])];
      assert payload[..Reach(p, k)] == payload[..Reach(p, k - 1)] + payload[p[k - 1].offset..End(p[k - 1])];
    }
  }

  /** Once every chunk of the plan is placed, the buffer is the payload. */
  lemma AllPlaced<T>(s: seq<T>, payload: seq<T>, chunkSize: nat)
    requires chunkSize > 0 && |s| == |payload|
    requires forall k :: 0 <= k < |Plan(|payload|, chunkSize)| ==> Placed(s, payload, Plan(|payload|, chunkSize)[k])
    ensures s == payload
  {
    var p := Plan(|payload|, chunkSize);
    PlacedPrefix(s, payload, chunkSize, |p|);
    PlanTiles(|payload|, chunkSize, None);
    if |p| == 0 {
      assert |payload| == 0;
    }
  }

  // ---- the progress aggregator ----

  predicate Within(order: seq<nat>, n: nat)
  {
    forall t :: 0 <= t < |order| ==> order[t] < n
  }

  /** Bytes done once the chunks listed in `done` have completed. */
  function Completed(plan: seq<Chunk>, done: seq<nat>): nat
    requires Within(done, |plan|)
  {
    if done == [] then 0 else Completed(plan, done[..|done| - 1]) + plan[done[|done| - 1]].length
  }

  /** What the aggregator reports: `(0, total)` before any chunk, then the
      running byte count after each completion, in completion order. */
  function Reported(plan: seq<Chunk>, done: seq<nat>, total: Option<nat>): seq<Event>
    requires Within(done, |plan|)
  {
    if done == [] then [Event(0, total)]
    else Reported(plan, done[..|done| - 1], total) + [Event(Completed(plan, done), total)]
  }

  /** One more completion adds the chunk's bytes to the count and reports it. */
  lemma ReportedStep(plan: seq<Chunk>, order: seq<nat>, k: nat, total: Option<nat>)
    requires Within(order, |plan|) && k < |order|
    ensures Within(order[..k], |plan|) && Within(order[..k + 1], |plan|)
    ensures Completed(plan, order[..k + 1]) == Completed(plan, order[..k]) + plan[order[k]].length
    ensures Reported(plan, order[..k + 1], total)
         == Reported(plan, order[..k], total) + [Event(Completed(plan, order[..k + 1]), total)]
  {
    assert order[..k + 1][..k] == order[..k];
  }

  lemma {:induction false} ReportedAt(plan: seq<Chunk>, done: seq<nat>, total: Option<nat>, t: nat)
    requires Within(done, |plan|) && t <= |done|
    ensures |Reported(plan, done, total)| == |done| + 1
    ensures Within(done[..t], |plan|)
    ensures Reported(plan, done, total)[t] == Event(Completed(plan, done[..t]), total)
    decreases |done|
  {
    if done != [] {
      var init := done[..|done| - 1];
      if t < |done| {
        ReportedAt(plan, init, total, t);
        assert init[..t] == done[..t];
      } else {
        ReportedAt(plan, init, total, 0);
        assert done[..t] == done;
      }
    }
  }

  lemma {:induction false} CompletedPrefix(plan: seq<Chunk>, done: seq<nat>, i: nat)
    requires Within(done, |plan|) && i <= |done|
    ensures Within(done[..i], |plan|)
    ensures Completed(plan, done[..i]) <= Completed(plan, done)
    decreases |done|
  {
    if i < |done| {
      var init := done[..|done| - 1];
      assert done[..i] == init[..i];
      CompletedPrefix(plan, init, i);
    } else {
      assert done[..i] == done;
    }
  }

  /** Whatever the completion order, the reported byte counts never decrease. */
  lemma ReportedMonotone(plan: seq<Chunk>, done: seq<nat>, total: Option<nat>)
    requires Within(done, |plan|)
    ensures var r := Reported(plan, done, total);
      |r| == |done| + 1 && forall i, j :: 0 <= i <= j < |r| ==> r[i].current <= r[j].current
  {
    var r := Reported(plan, done, total);
    ReportedAt(plan, done, total, 0);
    forall i, j | 0 <= i <= j < |r|
      ensures r[i].current <= r[j].current
    {
      ReportedAt(plan, done, total, i);
      ReportedAt(plan, done, total, j);
      CompletedPrefix(plan, done[..j], i);
      assert done[..j][..i] == done[..i];
    }
  }

  /** `0, 1, ..., n - 1`: the sequential completion order. */
  function Indices(n: nat): (r: seq<nat>)
    ensures |r| == n && forall i :: 0 <= i < n ==> r[i] == i
  {
    if n == 0 then [] else Indices(n - 1) + [n - 1]
  }

  /** `order` completes every chunk index below `n` exactly once. */
  ghost predicate IsOrder(order: seq<nat>, n: nat)
  {
    multiset(order) == multiset(Indices(n))
  }

  lemma {:induction false} IndicesCount(n: nat, x: nat)
    ensures multiset(Indices(n))[x] == if x < n then 1 else 0
  {
    if n > 0 {
      var prev := Indices(n - 1);
      IndicesCount(n - 1, x);
      MultisetSnoc(prev, n - 1, x);
      var before: nat := multiset(prev)[x];
      var after: nat := multiset(prev + [n - 1])[x];
      assert after == before + if x == n - 1 then 1 else 0;
      assert Indices(n) == prev + [n - 1];
    }
  }

  lemma MultisetSnoc(init: seq<nat>, x: nat, y: nat)
    ensures multiset(init + [x])[y] == multiset(init)[y] + if x == y then 1 else 0
  {
    assert multiset(init + [x]) == multiset(init) + multiset{x};
  }

  /** A completion order has one entry per chunk, each naming a chunk of the plan. */
  lemma OrderLength(order: seq<nat>, n: nat)
    requires IsOrder(order, n)
    ensures |order| == n && Within(order, n)
  {
    assert |multiset(order)| == |multiset(Indices(n))|;
    forall t | 0 <= t < |order|
      ensures order[t] < n
    {
      IndicesCount(n, order[t]);
      assert order[t] in multiset(order);
    }
  }

  /** No chunk completes twice. */
  lemma OrderDistinct(order: seq<nat>, n: nat, i: nat, j: nat)
    requires IsOrder(order, n) && i < j < |order|
    ensures order[i] != order[j]
  {
    var x := order[j];
    IndicesCount(n, x);
    MultisetSplit(order, j);
    assert order[..j][i] == order[i];
    assert order[j..][0] == x;
  }

  /** A completion order names every chunk of the plan exactly once. */
  lemma IsOrderFacts(order: seq<nat>, n: nat)
    requires IsOrder(order, n)
    ensures |order| == n && Within(order, n)
    ensures forall x: nat :: x < n ==> x in order
    ensures forall x: nat :: multiset(order)[x] == if x < n then 1 else 0
  {
    OrderLength(order, n);
    forall x: nat
      ensures multiset(order)[x] == if x < n then 1 else 0
    {
      IndicesCount(n, x);
    }
    forall x: nat | x < n
      ensures x in order
    {
      assert x in multiset(order);
    }
  }

  /** The bytes done after any set of completions: every full chunk counts
      `chunkSize`, the last chunk counts its own length. */
  lemma {:induction false} CompletedByCount(plan: seq<Chunk>, chunkSize: nat, done: seq<nat>)
    requires |plan| > 0 && Within(done, |plan|)
    requires forall k :: 0 <= k < |plan| - 1 ==> plan[k].length == chunkSize
    ensures Completed(plan, done) == Tally(chunkSize, plan[|plan| - 1].length, |done|, multiset(done)[|plan| - 1])
    decreases |done|
  {
    var last: nat := |plan| - 1;
    if done == [] {
      assert multiset(done)[last] == 0;
    } else {
      var init := done[..|done| - 1];
      var x := done[|done| - 1];
      CompletedByCount(plan, chunkSize, init);
      assert done == init + [x];
      MultisetSnoc(init, x, last);
      var before: multiset<nat> := multiset(init);
      var after: multiset<nat> := multiset(done);
      var m: int := before[last];
      var L: int := plan[last].length;
      var full: int := |init| - m;
      assert Completed(plan, done) == chunkSize * full + L * m + plan[x].length;
      if x == last {
        assert after[last] == m + 1;
        MulStep(L, m);
        assert |done| - after[last] == full;
      } else {
        assert after[last] == m;
        MulStep(chunkSize, full);
        assert |done| - after[last] == full + 1;
      }
    }
  }

  lemma CountArith(c: int, len: int, t: int, m: int)
    requires len == c || m == 0
    ensures Tally(c, len, t, m) == t * c
  {
    if len == c {
      assert c * (t - m) + c * m == c * t;
    }
  }

  /** Bytes in `count` completions of which `lastCount` are of the last chunk. */
  function Tally(chunkSize: int, lastLength: int, count: int, lastCount: int): int
  {
    chunkSize * (count - lastCount) + lastLength * lastCount
  }

  lemma MulStep(x: int, y: int)
    ensures x * (y + 1) == x * y + x
  {
  }

  /** The plan's chunk lengths: `chunkSize` for all but the last, which holds
      what remains. */
  lemma PlanLengths(size: nat, chunkSize: nat)
    requires chunkSize > 0 && size > 0
    ensures var p := Plan(size, chunkSize);
      && |p| > 0
      && (forall k :: 0 <= k < |p| - 1 ==> p[k].length == chunkSize)
      && p[|p| - 1].length == size - (|p| - 1) * chunkSize
      && (|p| - 1) * chunkSize < size <= |p| * chunkSize
  {
    PlanTiles(size, chunkSize, None);
    PlanShape(size, chunkSize);
  }

  /** Once every chunk has completed, in any order, the last event reports
      the whole payload. */
  lemma ReportedFinal(size: nat, chunkSize: nat, order: seq<nat>, total: Option<nat>)
    requires chunkSize > 0 && IsOrder(order, |Plan(size, chunkSize)|)
    ensures Within(order, |Plan(size, chunkSize)|)
    ensures var r := Reported(Plan(size, chunkSize), order, total);
      |r| == |order| + 1 && r[|order|] == Event(size, total)
  {
    var p := Plan(size, chunkSize);
    var n := |p|;
    IsOrderFacts(order, n);
    ReportedAt(p, order, total, |order|);
    assert order[..|order|] == order;
    if size > 0 {
      PlanLengths(size, chunkSize);
      CompletedByCount(p, chunkSize, order);
      assert Tally(chunkSize, p[n - 1].length, n, 1) == (n - 1) * chunkSize + p[n - 1].length;
    } else {
      assert order == [];
    }
  }

  lemma MultisetSplit(s: seq<nat>, t: nat)
    requires t <= |s|
    ensures multiset(s) == multiset(s[..t]) + multiset(s[t..])
  {
    assert s == s[..t] + s[t..];
  }

  /** The short last chunk, completing last, is not among the first `t < n`
      completions. */
  lemma LastNotInPrefix(order: seq<nat>, n: nat, t: nat)
    requires IsOrder(order, n) && t < n
    requires order != [] && order[|order| - 1] == n - 1
    ensures t <= |order|
    ensures var early: multiset<nat> := multiset(order[..t]); early[n - 1] == 0
  {
    var last: nat := n - 1;
    OrderLength(order, n);
    MultisetSplit(order, t);
    IndicesCount(n, last);
    var rest := order[t..];
    assert rest[n - 1 - t] == last;
    assert last in multiset(rest);
  }

  /** The chunks that complete before the short last chunk (if there is
      one) are all full. */
  lemma PrefixCompleted(plan: seq<Chunk>, chunkSize: nat, order: seq<nat>, t: nat)
    requires IsOrder(order, |plan|) && t < |plan|
    requires forall k :: 0 <= k < |plan| - 1 ==> plan[k].length == chunkSize
    requires plan[|plan| - 1].length == chunkSize || (order != [] && order[|order| - 1] == |plan| - 1)
    ensures t <= |order| && Within(order[..t], |plan|)
    ensures Completed(plan, order[..t]) == t * chunkSize
  {
    var n := |plan|;
    var last: nat := n - 1;
    OrderLength(order, n);
    var prefix := order[..t];
    var counts: multiset<nat> := multiset(prefix);
    var m: nat := counts[last];
    if plan[last].length != chunkSize {
      LastNotInPrefix(order, n, t);
    }
    CompletedByCount(plan, chunkSize, prefix);
    assert |prefix| == t;
    CountArith(chunkSize, plan[last].length, t, m);
  }

  /** No chunk is short, or the short last chunk is the last to complete. */
  predicate TailInOrder(plan: seq<Chunk>, chunkSize: nat, order: seq<nat>)
  {
    plan == [] || plan[|plan| - 1].length == chunkSize || (order != [] && order[|order| - 1] == |plan| - 1)
  }

  /** The aggregator reproduces the test helpers' list whenever the short last
      chunk is the last to complete, or there is no short chunk; in
      particular, always for a sequential transfer. */
  lemma ProgressMatchesHelper(size: nat, chunkSize: nat, order: seq<nat>, total: Option<nat>)
    requires chunkSize > 0
    requires IsOrder(order, |Plan(size, chunkSize)|)
    requires TailInOrder(Plan(size, chunkSize), chunkSize, order)
    ensures Within(order, |Plan(size, chunkSize)|)
    ensures Reported(Plan(size, chunkSize), order, total) == UploadProgress(size, chunkSize, total)
  {
    var p := Plan(size, chunkSize);
    var n := |p|;
    IsOrderFacts(order, n);
    PlanShape(size, chunkSize);
    UploadProgressShape(size, chunkSize, total);
    ReportedFinal(size, chunkSize, order, total);
    var r := Reported(p, order, total);
    var u := UploadProgress(size, chunkSize, total);
    forall t | 0 <= t < |r|
      ensures r[t] == u[t]
    {
      if t < n {
        ReportedAt(p, order, total, t);
        PlanLengths(size, chunkSize);
        PrefixCompleted(p, chunkSize, order, t);
        assert t * chunkSize < size;
      }
    }
  }

  /** The order in which chunks complete: any completion order when the
      transfer runs in parallel, sequence order otherwise. */
  function Schedule(parallel: bool, order: seq<nat>, n: nat): seq<nat>
  {
    if parallel then order else Indices(n)
  }

  lemma ScheduleIsOrder(parallel: bool, order: seq<nat>, n: nat)
    requires parallel ==> IsOrder(order, n)
    ensures IsOrder(Schedule(parallel, order, n), n)
  {
  }

  /** When the short last chunk completes before some full chunk, the
      aggregator's list departs from the test helpers': at that point it
      reports fewer bytes than a whole number of chunks. */
  lemma ShortChunkEarly(size: nat, chunkSize: nat, order: seq<nat>, total: Option<nat>)
    requires chunkSize > 0
    requires IsOrder(order, |Plan(size, chunkSize)|)
    requires !TailInOrder(Plan(size, chunkSize), chunkSize, order)
    ensures Within(order, |Plan(size, chunkSize)|)
    ensures Reported(Plan(size, chunkSize), order, total) != UploadProgress(size, chunkSize, total)
  {
    var p := Plan(size, chunkSize);
    var n := |p|;
    var last: nat := n - 1;
    OrderLength(order, n);
    PlanLengths(size, chunkSize);
    var j := LastPosition(order, n);
    assert j < last;
    var prefix := order[..j + 1];
    ReportedAt(p, order, total, j + 1);
    CompletedByCount(p, chunkSize, prefix);
    EarlyCount(chunkSize, j, n, size, p[last].length);
    assert Completed(p, prefix) < Min((j + 1) * chunkSize, size);
    CeilDivBracket(size, chunkSize, n);
    UploadProgressShape(size, chunkSize, total);
    var expected := UploadProgress(size, chunkSize, total);
    assert |expected| == n + 1;
    assert expected[j + 1].current == Min((j + 1) * chunkSize, size);
    assert Reported(p, order, total)[j + 1].current == Completed(p, prefix);
  }

  /** With the short last chunk among the first `j + 1` completions and a
      full chunk still to come, fewer bytes are done than the helper's
      `(j + 1)`-th event reports. */
  lemma EarlyCount(chunkSize: nat, j: nat, n: nat, size: nat, len: nat)
    requires j + 1 < n && (n - 1) * chunkSize < size <= n * chunkSize
    requires len == size - (n - 1) * chunkSize && len != chunkSize
    ensures Tally(chunkSize, len, j + 1, 1) < Min((j + 1) * chunkSize, size)
  {
    var full := chunkSize * j;
    assert Tally(chunkSize, len, j + 1, 1) == full + len;
    MulStep(chunkSize, j);
    MulStep(chunkSize, n - 1);
    MulMonotone(j + 1, n - 1, chunkSize);
  }

  lemma MulMonotone(a: nat, b: nat, c: nat)
    requires a <= b
    ensures a * c <= b * c
  {
    assert b * c == a * c + (b - a) * c;
  }

  /** Where a completion order completes the last chunk, and that no earlier
      completion is of that chunk. */
  lemma LastPosition(order: seq<nat>, n: nat) returns (j: nat)
    requires IsOrder(order, n) && n > 0
    ensures j < |order| == n && order[j] == n - 1
    ensures Within(order[..j + 1], n)
    ensures var counts: multiset<nat> := multiset(order[..j + 1]); counts[n - 1] == 1
  {
    var last: nat := n - 1;
    IsOrderFacts(order, n);
    assert last in order;
    j :| 0 <= j < n && order[j] == last;
    forall i | 0 <= i < j
      ensures order[..j][i] != last
    {
      OrderDistinct(order, n, i, j);
    }
    assert last !in multiset(order[..j]);
    MultisetSnoc(order[..j], last, last);
    assert order[..j + 1] == order[..j] + [last];
  }

  /** Whatever the completion order, the aggregator's list equals the test
      helpers' list exactly when no short chunk completes early. */
  lemma ProgressMatchesHelperIff(size: nat, chunkSize: nat, order: seq<nat>, total: Option<nat>)
    requires chunkSize > 0
    requires IsOrder(order, |Plan(size, chunkSize)|)
    ensures Within(order, |Plan(size, chunkSize)|)
    ensures Reported(Plan(size, chunkSize), order, total) == UploadProgress(size, chunkSize, total)
        <==> TailInOrder(Plan(size, chunkSize), chunkSize, order)
  {
    if TailInOrder(Plan(size, chunkSize), chunkSize, order) {
      ProgressMatchesHelper(size, chunkSize, order, total);
    } else {
      ShortChunkEarly(size, chunkSize, order, total);
    }
  }

  /** A sequential transfer completes the last chunk last. */
  lemma SequentialTailInOrder(size: nat, chunkSize: nat)
    requires chunkSize > 0
    ensures TailInOrder(Plan(size, chunkSize), chunkSize, Indices(|Plan(size, chunkSize)|))
  {
  }

  /** A sequential transfer reports exactly the test helpers' list. */
  lemma SequentialProgress(size: nat, chunkSize: nat, total: Option<nat>)
    requires chunkSize > 0
    ensures Within(Indices(|Plan(size, chunkSize)|), |Plan(size, chunkSize)|)
    ensures Reported(Plan(size, chunkSize), Indices(|Plan(size, chunkSize)|), total)
         == UploadProgress(size, chunkSize, total)
  {
    ProgressMatchesHelper(size, chunkSize, Indices(|Plan(size, chunkSize)|), total);
  }

  /** The bytes an upload from bytes sends: Python's `data[index:]`, or
      `data[index:index + count]`. */
  function BytesPayload(data: seq<byte>, index: nat, count: Option<nat>): (r: seq<byte>)
    ensures index <= |data| && count.None? ==> r == data[index..]
    ensures index <= |data| && count.Some? && index + count.value <= |data| ==> r == data[index..index + count.value]
    ensures index >= |data| ==> r == []
  {
    Slice(data, index, if count.Some? then index + count.value else |data|)
  }

  /** The bytes an upload from a stream sends: the first `count` bytes when a count
      is declared, else the whole stream. */
  function StreamPayload(stream: seq<byte>, count: Option<nat>): (r: seq<byte>)
    ensures count.None? ==> r == stream
    ensures count.Some? ==> r == stream[..Min(count.value, |stream|)]
  {
    if count.Some? then Slice(stream, 0, count.value) else stream
  }
}
