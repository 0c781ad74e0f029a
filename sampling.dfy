/**
 * Which frames the video loop reads and which of those it keeps: the
 * decoder yields frames until its first failed read, and the frame at
 * 1-based position k is kept when `k % frame_skip == 0` with Python's `%`.
 */
module Sampling {
  import opened Results

  function Abs(x: int): nat {
    if x < 0 then -x else x
  }

  /** Python's `%`: the remainder takes the sign of the divisor. */
  function PyMod(a: int, b: int): (r: int)
    requires b != 0
    ensures b > 0 ==> 0 <= r < b
    ensures b < 0 ==> b < r <= 0
  {
    if b > 0 then a % b else -((-a) % (-b))
  }

  /** Python's `%` and the Euclidean remainder agree on divisibility: with
      either sign of the divisor, a remainder of zero means the same thing. */
  lemma PyModZeroIff(a: int, b: int)
    requires b != 0
    ensures PyMod(a, b) == 0 <==> a % Abs(b) == 0
  {
    if b < 0 {
      var m := -b;
      var q, s := (-a) / m, (-a) % m;
      assert -a == q * m + s && 0 <= s < m;
      if s == 0 {
        assert a == (-q) * m + 0;
        DivUnique(a, m, -q, 0);
      } else {
        assert a == (-q - 1) * m + (m - s);
        DivUnique(a, m, -q - 1, m - s);
      }
    }
  }

  /** The frame at 1-based decoder position k is kept (`k % frame_skip == 0`):
      exactly when k is a multiple of |frame_skip|. */
  function Sampled(k: int, frameSkip: int): (kept: bool)
    requires frameSkip != 0
    ensures kept <==> k % Abs(frameSkip) == 0
  {
    PyModZeroIff(k, frameSkip);
    PyMod(k, frameSkip) == 0
  }

  lemma {:induction false} MulAtLeast(x: int, m: int)
    requires x >= 1 && m > 0
    ensures x * m >= m
  {
    if x > 1 {
      MulAtLeast(x - 1, m);
      assert x * m == (x - 1) * m + m;
    }
  }

  /** Euclidean division is unique. */
  lemma DivUnique(n: int, m: int, q: int, r: int)
    requires m > 0 && n == q * m + r && 0 <= r < m
    ensures n / m == q && n % m == r
  {
    var q', r' := n / m, n % m;
    assert n == q' * m + r' && 0 <= r' < m;
    assert (q - q') * m == r' - r;
    if q - q' >= 1 {
      MulAtLeast(q - q', m);
    } else if q' - q >= 1 {
      MulAtLeast(q' - q, m);
    }
  }

  /** The 1-based positions among the first n that are kept, in order. */
  function SampledPositions(n: nat, frameSkip: int): (ks: seq<nat>)
    requires frameSkip != 0
    ensures |ks| == n / Abs(frameSkip)
    ensures forall i :: 0 <= i < |ks| ==> 0 < ks[i] <= n
    ensures forall i :: 0 <= i < |ks| ==> ks[i] == (i + 1) * Abs(frameSkip)
  {
    if n == 0 then []
    else
      var m := Abs(frameSkip);
      DivStep(n, m);
      SampledPositions(n - 1, frameSkip) + (if Sampled(n, frameSkip) then [n] else [])
  }

  /** Position n is added to the kept positions exactly when it is kept. */
  lemma SampledPositionsStep(n: nat, frameSkip: int)
    requires frameSkip != 0 && n > 0
    ensures SampledPositions(n, frameSkip) ==
      SampledPositions(n - 1, frameSkip) + (if Sampled(n, frameSkip) then [n] else [])
  {
  }

  /** How n / m grows from n - 1 to n. */
  lemma DivStep(n: nat, m: nat)
    requires n > 0 && m > 0
    ensures n % m == 0 ==> n / m == (n - 1) / m + 1 && n == (n / m) * m
    ensures n % m != 0 ==> n / m == (n - 1) / m
  {
    var q, r := (n - 1) / m, (n - 1) % m;
    assert n - 1 == q * m + r && 0 <= r < m;
    if r == m - 1 {
      assert n == (q + 1) * m;
      DivUnique(n, m, q + 1, 0);
    } else {
      assert n == q * m + (r + 1);
      DivUnique(n, m, q, r + 1);
    }
  }

  /** Fewer than |frame_skip| frames: no position is kept. */
  lemma ShortPrefixKeepsNothing(n: nat, frameSkip: int)
    requires frameSkip != 0 && n < Abs(frameSkip)
    ensures SampledPositions(n, frameSkip) == []
  {
  }

  /** The frames the decoder yields: everything before the first failed
      read (`None`); reading past the end of the source fails. */
  function ReadableFrames<T>(stream: seq<Option<T>>): (frames: seq<T>)
    ensures |frames| <= |stream|
    ensures forall i :: 0 <= i < |frames| ==> stream[i] == Some(frames[i])
    ensures |frames| < |stream| ==> stream[|frames|].None?
  {
    if stream == [] || stream[0].None? then []
    else [stream[0].value] + ReadableFrames(stream[1..])
  }

  /** Nothing after the first failed read matters: two sources that agree up
      to and including a failed read yield the same frames. */
  lemma {:induction false} StopsAtFirstFailure<T>(s1: seq<Option<T>>, s2: seq<Option<T>>, i: nat)
    requires i < |s1| && i < |s2|
    requires s1[..i + 1] == s2[..i + 1]
    requires s1[i].None?
    ensures ReadableFrames(s1) == ReadableFrames(s2)
  {
    assert s1[0] == s1[..i + 1][0] == s2[..i + 1][0] == s2[0];
    if i > 0 && s1[0].Some? {
      assert s1[1..][..i] == s1[..i + 1][1..] == s2[..i + 1][1..] == s2[1..][..i];
      StopsAtFirstFailure(s1[1..], s2[1..], i - 1);
    }
  }
}
