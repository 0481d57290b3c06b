/** Shared vocabulary of the transfer model: bytes, optional values, the
    failures the tests expect, and Python's clamping slice. */
module Common {

  newtype byte = x: int | 0 <= x < 256

  datatype Option<T> = None | Some(value: T)

  /** The failures of the model, named after their cause. The tests expect
      `NotSeekable`, `MissingEndRange` and `InvalidBlockList`; the other
      two are the model's refusals of arguments no test passes. */
  datatype Error =
    | NotSeekable        // parallel transfer over a stream without positioned access
    | MissingStartRange  // an end offset given without a start offset
    | MissingEndRange    // a ranged MD5 requested without an end offset
    | InvalidRange       // a byte range the service refuses
    | InvalidBlockList   // a block list naming a block that was never staged

  datatype Result<T> = Ok(value: T) | Err(error: Error)

  datatype Outcome = Pass | Fail(error: Error)

  function Min(a: int, b: int): int
  {
    if a <= b then a else b
  }

  /** Number of `b`-sized pieces needed to cover `a` items. */
  function CeilDiv(a: nat, b: nat): nat
    requires b > 0
  {
    (a + b - 1) / b
  }

  /** Python's `s[lo:hi]` for non-negative bounds: both ends are clamped to `|s|`. */
  function Slice<T>(s: seq<T>, lo: nat, hi: nat): (r: seq<T>)
    ensures |r| == if lo < Min(hi, |s|) then Min(hi, |s|) - lo else 0
    ensures forall i :: 0 <= i < |r| ==> r[i] == s[lo + i]
  {
    var top := Min(hi, |s|);
    if lo < top then s[lo..top] else []
  }

  lemma SliceInBounds<T>(s: seq<T>, lo: nat, hi: nat)
    requires lo <= hi <= |s|
    ensures Slice(s, lo, hi) == s[lo..hi]
  {
  }

  function Zeros(n: nat): (r: seq<byte>)
    ensures |r| == n && forall i :: 0 <= i < n ==> r[i] == 0
  {
    seq(n, _ => 0)
  }

  function Flags(n: nat, b: bool): (r: seq<bool>)
    ensures |r| == n && forall i :: 0 <= i < n ==> r[i] == b
  {
    seq(n, _ => b)
  }

  /** `s` with the elements from `offset` on replaced by `piece`. */
  function Splice<T>(s: seq<T>, offset: nat, piece: seq<T>): (r: seq<T>)
    requires offset + |piece| <= |s|
    ensures |r| == |s|
    ensures forall i :: 0 <= i < |s| ==>
      r[i] == if offset <= i < offset + |piece| then piece[i - offset] else s[i]
  {
    s[..offset] + piece + s[offset + |piece|..]
  }

  /** The concatenation of `parts` in order. */
  function Flatten(parts: seq<seq<byte>>): seq<byte>
  {
    if parts == [] then [] else Flatten(parts[..|parts| - 1]) + parts[|parts| - 1]
  }

  /** Integer division has one quotient and one remainder. */
  lemma DivUnique(a: int, b: int, q: int, r: int)
    requires b > 0 && 0 <= r < b && a == q * b + r
    ensures a / b == q && a % b == r
  {
    var q', r' := a / b, a % b;
    var d := q - q';
    assert q * b == (q' + d) * b == q' * b + d * b;
    assert d * b == r' - r;
    if d > 0 {
      MulAtLeast(d, b);
    } else if d < 0 {
      MulAtLeast(-d, b);
    }
  }

  lemma MulAtLeast(d: int, b: int)
    requires d >= 1 && b > 0
    ensures d * b >= b
  {
    assert d * b == (d - 1) * b + b;
    assert (d - 1) * b >= 0;
  }

  lemma CeilDivZero(b: nat)
    requires b > 0
    ensures CeilDiv(0, b) == 0
  {
    DivUnique(b - 1, b, 0, b - 1);
  }

  lemma CeilDivOne(a: nat, b: nat)
    requires 0 < a <= b
    ensures CeilDiv(a, b) == 1
  {
    DivUnique(a + b - 1, b, 1, a - 1);
  }

  lemma CeilDivStep(a: nat, b: nat)
    requires b > 0 && a > b
    ensures CeilDiv(a, b) == 1 + CeilDiv(a - b, b)
  {
    var x := a - b + b - 1;
    var q, r := x / b, x % b;
    DivUnique(x, b, q, r);
    DivUnique(x + b, b, q + 1, r);
  }

  /** `n` pieces of size `b` are the fewest that cover `a` exactly when
      `(n - 1) * b < a <= n * b`. */
  lemma CeilDivBracket(a: nat, b: nat, n: nat)
    requires b > 0 && n > 0 && (n - 1) * b < a <= n * b
    ensures CeilDiv(a, b) == n
  {
    DivUnique(a + b - 1, b, n, a + b - 1 - n * b);
  }
}
