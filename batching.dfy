/** `chunk_list`, the generator both elevation scripts use to send at most
    `n` locations per request (geojson-processing.py, getting-coordinates.py). */
module Batching {

  function Min(a: nat, b: nat): nat {
    if a <= b then a else b
  }

  /** The slices `lst[i:i + n]` for `i` in `range(0, len(lst), n)`. */
  function Chunks<T>(l: seq<T>, n: nat): seq<seq<T>>
    requires n > 0
    decreases |l|
  {
    if |l| == 0 then []
    else [l[..Min(n, |l|)]] + Chunks(l[Min(n, |l|)..], n)
  }

  /** Joining a list of lists back together. */
  function Concat<T>(ss: seq<seq<T>>): seq<T> {
    if |ss| == 0 then [] else ss[0] + Concat(ss[1..])
  }

  /** The generator, written as the loop it runs: successive slices of at
      most `n` elements, starting at 0, `n`, `2n`, ... */
  method ChunkList<T>(l: seq<T>, n: nat) returns (batches: seq<seq<T>>)
    requires n > 0
    ensures batches == Chunks(l, n)
  {
    batches := [];
    var i := 0;
    while i < |l|
      invariant i <= |l|
      invariant batches + Chunks(l[i..], n) == Chunks(l, n)
      decreases |l| - i
    {
      var j := i + Min(n, |l| - i);
      assert Chunks(l[i..], n) == [l[i..j]] + Chunks(l[j..], n) by {
        assert l[i..][..j - i] == l[i..j];
        assert l[i..][j - i..] == l[j..];
      }
      batches := batches + [l[i..j]];
      i := j;
    }
    assert l[i..] == [];
  }

  lemma {:induction false} ConcatAppend<T>(a: seq<seq<T>>, b: seq<seq<T>>)
    ensures Concat(a + b) == Concat(a) + Concat(b)
  {
    if |a| > 0 {
      assert (a + b)[1..] == a[1..] + b;
      ConcatAppend(a[1..], b);
    } else {
      assert a + b == b;
    }
  }

  /** Joining the chunks gives back the input: no element is lost,
      repeated or reordered. */
  lemma {:induction false} ChunksConcat<T>(l: seq<T>, n: nat)
    requires n > 0
    ensures Concat(Chunks(l, n)) == l
    decreases |l|
  {
    if |l| > 0 {
      var k := Min(n, |l|);
      ChunksConcat(l[k..], n);
      assert l[..k] + l[k..] == l;
    }
  }

  /** Every chunk but the last holds exactly `n` elements, the last one
      between 1 and `n`. */
  lemma {:induction false} ChunkSizes<T>(l: seq<T>, n: nat)
    requires n > 0
    ensures forall k :: 0 <= k < |Chunks(l, n)| ==> 1 <= |Chunks(l, n)[k]| <= n
    ensures forall k :: 0 <= k < |Chunks(l, n)| - 1 ==> |Chunks(l, n)[k]| == n
    decreases |l|
  {
    if |l| > 0 {
      var k := Min(n, |l|);
      ChunkSizes(l[k..], n);
      if k < n {
        assert l[k..] == [];
      }
    }
  }

  /** The number of chunks is the length divided by `n`, rounded up; in
      particular empty input gives no chunk at all. */
  lemma {:induction false} ChunkCount<T>(l: seq<T>, n: nat)
    requires n > 0
    ensures |Chunks(l, n)| == 0 <==> |l| == 0
    ensures |l| <= n * |Chunks(l, n)|
    ensures |Chunks(l, n)| > 0 ==> n * (|Chunks(l, n)| - 1) < |l|
    decreases |l|
  {
    if |l| > 0 {
      var k := Min(n, |l|);
      var c := |Chunks(l[k..], n)|;
      ChunkCount(l[k..], n);
      assert |Chunks(l, n)| == c + 1;
      assert n * (c + 1) == n * c + n;
    }
  }

  /** Every element of every chunk comes from the input. */
  lemma {:induction false} ChunksMembers<T>(l: seq<T>, n: nat)
    requires n > 0
    ensures forall k, x :: 0 <= k < |Chunks(l, n)| && x in Chunks(l, n)[k] ==> x in l
    decreases |l|
  {
    if |l| > 0 {
      var m := Min(n, |l|);
      ChunksMembers(l[m..], n);
      forall k, x | 0 <= k < |Chunks(l, n)| && x in Chunks(l, n)[k]
        ensures x in l
      {
        if k == 0 {
          assert x in l[..m];
        } else {
          assert Chunks(l, n)[k] == Chunks(l[m..], n)[k - 1];
          assert x in l[m..];
        }
      }
    }
  }

  /** Element `j` of chunk `b` is element `b * n + j` of the input: the
      chunks are consecutive slices. */
  lemma {:induction false} ChunkAt<T>(l: seq<T>, n: nat, b: nat, j: nat)
    requires n > 0
    requires b < |Chunks(l, n)| && j < |Chunks(l, n)[b]|
    ensures j < n && b * n + j < |l|
    ensures Chunks(l, n)[b][j] == l[b * n + j]
    decreases b
  {
    var k := Min(n, |l|);
    if b > 0 {
      assert k == n;
      assert Chunks(l, n)[b] == Chunks(l[k..], n)[b - 1];
      ChunkAt(l[k..], n, b - 1, j);
      assert (b - 1) * n + j + n == b * n + j;
    }
  }
}
