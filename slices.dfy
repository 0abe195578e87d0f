/**
 * Rust's `slice::chunks(n)`: consecutive pieces of `n` elements, the last
 * one possibly shorter, none empty.  It panics for `n == 0`, hence the
 * precondition.  Both the download and the sound list are built on it.
 */
module Slices {
  /** The concatenation of a sequence of pieces. */
  function Flatten<T>(pieces: seq<seq<T>>): seq<T> {
    if pieces == [] then [] else pieces[0] + Flatten(pieces[1..])
  }

  /** The first piece the chunks iterator yields from a non-empty slice. */
  function FirstChunk<T>(s: seq<T>, n: nat): (c: seq<T>)
    requires n > 0 && s != []
    ensures 0 < |c| <= n && |c| <= |s| && c == s[..|c|]
    ensures |c| < n ==> c == s
  {
    if |s| <= n then s else s[..n]
  }

  function Chunks<T>(s: seq<T>, n: nat): seq<seq<T>>
    requires n > 0
    decreases |s|
  {
    if s == [] then []
    else
      var c := FirstChunk(s, n);
      [c] + Chunks(s[|c|..], n)
  }

  /**
   * The pieces, in order, make up the slice; each is non-empty and holds at
   * most `n` elements, all but the last exactly `n`; there is more than one
   * piece exactly when the slice is longer than `n`.
   */
  lemma {:induction false} ChunksShape<T>(s: seq<T>, n: nat)
    requires n > 0
    ensures Flatten(Chunks(s, n)) == s
    ensures forall i :: 0 <= i < |Chunks(s, n)| ==> 0 < |Chunks(s, n)[i]| <= n
    ensures forall i :: 0 <= i < |Chunks(s, n)| - 1 ==> |Chunks(s, n)[i]| == n
    ensures (|Chunks(s, n)| <= 1) == (|s| <= n)
    decreases |s|
  {
    if s != [] {
      var c := FirstChunk(s, n);
      var rest := s[|c|..];
      ChunksShape(rest, n);
      assert Chunks(s, n) == [c] + Chunks(rest, n);
      assert Chunks(s, n)[1..] == Chunks(rest, n);
      assert s == c + rest;
    }
  }

  /** Flattening distributes over concatenation. */
  lemma {:induction false} FlattenAppend<T>(a: seq<seq<T>>, b: seq<seq<T>>)
    ensures Flatten(a + b) == Flatten(a) + Flatten(b)
  {
    if a == [] {
      assert a + b == b;
    } else {
      assert (a + b)[1..] == a[1..] + b;
      FlattenAppend(a[1..], b);
    }
  }

  /** One more piece at the end flattens to one more block of elements. */
  lemma FlattenSnoc<T>(a: seq<seq<T>>, x: seq<T>)
    ensures Flatten(a + [x]) == Flatten(a) + x
  {
    FlattenAppend(a, [x]);
    assert Flatten([x]) == x + Flatten([x][1..]);
  }

  /** The number of pieces is |s| / n rounded up. */
  lemma {:induction false} ChunksCount<T>(s: seq<T>, n: nat)
    requires n > 0
    ensures (|Chunks(s, n)| - 1) * n < |s| <= |Chunks(s, n)| * n || s == []
  {
    if s != [] && |s| > n {
      var rest := s[n..];
      ChunksCount(rest, n);
      var k := |Chunks(rest, n)|;
      assert |Chunks(s, n)| == k + 1;
      assert (k - 1) * n < |rest| <= k * n;
      assert (k + 1) * n == k * n + n;
    }
  }

  /**
   * One step of the chunks iterator: when the remaining slice yields the
   * pieces from position `i` on, its first piece is piece `i` and what is
   * left after it yields the pieces from `i + 1` on.
   */
  lemma ChunksAdvance<T>(s: seq<T>, rest: seq<T>, n: nat, i: nat)
    requires n > 0 && rest != [] && i <= |Chunks(s, n)|
    requires Chunks(rest, n) == Chunks(s, n)[i..]
    ensures i < |Chunks(s, n)| && Chunks(s, n)[i] == FirstChunk(rest, n)
    ensures Chunks(rest[|FirstChunk(rest, n)|..], n) == Chunks(s, n)[i + 1..]
  {
    var pieces := Chunks(s, n);
    assert pieces[i..] == [FirstChunk(rest, n)] + Chunks(rest[|FirstChunk(rest, n)|..], n);
    assert pieces[i + 1..] == pieces[i..][1..];
  }

  /** A slice that fits in one piece comes out as that single piece. */
  lemma ChunksOfShort<T>(s: seq<T>, n: nat)
    requires 0 < |s| <= n
    ensures Chunks(s, n) == [s]
  {
  }
}
