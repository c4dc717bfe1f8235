/** The batch accumulator's specification: the sequence of batches that appending
    records one at a time, and handing the buffer on whenever it reaches `n`
    records, produces; the trailing non-empty remainder is the last batch. */
module Batching {

  function Flatten<T>(bs: seq<seq<T>>): (xs: seq<T>)
  {
    if bs == [] then [] else bs[0] + Flatten(bs[1..])
  }

  /** `xs` cut into consecutive batches of `n`, the last one possibly shorter. */
  function Chunks<T>(xs: seq<T>, n: nat): (bs: seq<seq<T>>)
    requires n >= 1
    ensures bs == [] <==> xs == []
    ensures bs != [] ==> bs[0] == xs[..if |xs| <= n then |xs| else n]
    decreases |xs|
  {
    if |xs| == 0 then []
    else if |xs| <= n then [xs]
    else [xs[..n]] + Chunks(xs[n..], n)
  }

  /** Every batch holds exactly `n` elements. */
  ghost predicate AllFull<T>(bs: seq<seq<T>>, n: nat)
  {
    forall k :: 0 <= k < |bs| ==> |bs[k]| == n
  }

  lemma {:induction false} FlattenAppend<T>(a: seq<seq<T>>, b: seq<seq<T>>)
    ensures Flatten(a + b) == Flatten(a) + Flatten(b)
  {
    if a == [] {
      assert a + b == b;
    } else {
      assert (a + b)[1..] == a[1..] + b;
      FlattenAppend(a[1..], b);
    }
  }

  lemma {:induction false} FlattenFullLength<T>(bs: seq<seq<T>>, n: nat)
    requires AllFull(bs, n)
    ensures |Flatten(bs)| == |bs| * n
  {
    if bs != [] {
      FlattenFullLength(bs[1..], n);
      assert |Flatten(bs)| == n + (|bs| - 1) * n;
    }
  }

  /** Records are neither lost, duplicated nor reordered by batching, whatever `n` is. */
  lemma {:induction false} ChunksFlatten<T>(xs: seq<T>, n: nat)
    requires n >= 1
    ensures Flatten(Chunks(xs, n)) == xs
    decreases |xs|
  {
    if |xs| > n {
      ChunksFlatten(xs[n..], n);
      assert Chunks(xs, n)[1..] == Chunks(xs[n..], n);
      assert xs[..n] + xs[n..] == xs;
    }
  }

  /** No batch is empty or longer than `n`. */
  ghost predicate Bounded<T>(bs: seq<seq<T>>, n: nat)
  {
    forall k :: 0 <= k < |bs| ==> 1 <= |bs[k]| <= n
  }

  /** Every batch except possibly the last holds exactly `n` elements. */
  ghost predicate FullButLast<T>(bs: seq<seq<T>>, n: nat)
  {
    forall k :: 0 <= k < |bs| - 1 ==> |bs[k]| == n
  }

  /** An input of at most `n` elements is one batch, or none when it is empty. */
  lemma ChunksSmall<T>(xs: seq<T>, n: nat)
    requires n >= 1 && |xs| <= n
    ensures Chunks(xs, n) == if xs == [] then [] else [xs]
  {
  }

  lemma ChunksOfPair<T>(a: T, b: T)
    ensures Chunks([a, b], 1) == [[a], [b]]
    ensures Chunks([a, b], 2) == [[a, b]]
  {
    assert [a, b][..1] == [a] && [a, b][1..] == [b];
  }

  /** Every element of every batch is an element of the input. */
  lemma {:induction false} ChunksMember<T>(xs: seq<T>, n: nat, k: nat, j: nat)
    requires n >= 1 && k < |Chunks(xs, n)| && j < |Chunks(xs, n)[k]|
    ensures Chunks(xs, n)[k][j] in xs
    decreases |xs|
  {
    if |xs| > n && k > 0 {
      assert Chunks(xs, n)[k] == Chunks(xs[n..], n)[k - 1];
      ChunksMember(xs[n..], n, k - 1, j);
    } else if |xs| > n {
      assert Chunks(xs, n)[k][j] == xs[j];
    }
  }

  /** No batch is empty or over `n`, and every batch but the last has exactly `n`. */
  lemma {:induction false} ChunksSizes<T>(xs: seq<T>, n: nat)
    requires n >= 1
    ensures Bounded(Chunks(xs, n), n) && FullButLast(Chunks(xs, n), n)
    decreases |xs|
  {
    var bs := Chunks(xs, n);
    if |xs| > n {
      ChunksSizes(xs[n..], n);
      var rest := Chunks(xs[n..], n);
      assert bs == [xs[..n]] + rest;
      assert |bs[0]| == n;
      assert forall k :: 1 <= k < |bs| ==> bs[k] == rest[k - 1];
    } else if |xs| > 0 {
      assert bs == [xs];
    }
  }

  lemma ConcatAssoc<T>(a: seq<T>, b: seq<T>, c: seq<T>)
    ensures (a + b) + c == a + (b + c)
  {
  }

  lemma ConcatSplit<T>(a: seq<T>, b: seq<T>)
    ensures (a + b)[..|a|] == a && (a + b)[|a|..] == b
  {
  }

  lemma PrefixOfConcat<T>(a: seq<T>, b: seq<T>)
    ensures a <= a + b
  {
    assert (a + b)[..|a|] == a;
  }

  lemma FlattenCons<T>(bs: seq<seq<T>>)
    requires bs != []
    ensures Flatten(bs) == bs[0] + Flatten(bs[1..])
  {
  }

  /** The first element of bs is cut off a non-empty Flatten(bs) + rest. */
  lemma FlattenFullSplit<T>(bs: seq<seq<T>>, rest: seq<T>, n: nat)
    requires n >= 1 && AllFull(bs, n) && bs != []
    ensures |Flatten(bs) + rest| >= n
    ensures (Flatten(bs) + rest)[..n] == bs[0]
    ensures (Flatten(bs) + rest)[n..] == Flatten(bs[1..]) + rest
    ensures |Flatten(bs) + rest| == n ==> bs == [bs[0]] && rest == []
  {
    var head, f := bs[0], Flatten(bs[1..]);
    FlattenCons(bs);
    ConcatAssoc(head, f, rest);
    ConcatSplit(head, f + rest);
    if |bs| > 1 {
      FlattenCons(bs[1..]);
      assert |bs[1..][0]| == n;
    }
  }

  /** Batching a whole number of full batches followed by a tail shorter than `n`
      gives back exactly those batches and then the tail, when it is non-empty. */
  lemma {:induction false} ChunksOfFull<T>(bs: seq<seq<T>>, tail: seq<T>, n: nat)
    requires n >= 1 && AllFull(bs, n) && |tail| < n
    ensures Chunks(Flatten(bs) + tail, n) == bs + (if tail == [] then [] else [tail])
  {
    if bs == [] {
      assert Flatten(bs) + tail == tail;
    } else {
      var xs := Flatten(bs) + tail;
      FlattenFullSplit(bs, tail, n);
      if |xs| > n {
        ChunksOfFull(bs[1..], tail, n);
        assert Chunks(xs, n) == [bs[0]] + Chunks(Flatten(bs[1..]) + tail, n);
        assert bs == [bs[0]] + bs[1..];
      }
    }
  }

  /** Full batches first, then any remainder: the first batches of the input are the
      full ones already cut, and the next one starts the rest. */
  lemma {:induction false} ChunksAfterFull<T>(bs: seq<seq<T>>, rest: seq<T>, n: nat)
    requires n >= 1 && AllFull(bs, n)
    ensures Chunks(Flatten(bs) + rest, n) == bs + Chunks(rest, n)
  {
    if bs == [] {
      assert Flatten(bs) + rest == rest;
    } else {
      var xs := Flatten(bs) + rest;
      FlattenFullSplit(bs, rest, n);
      if |xs| > n {
        ChunksAfterFull(bs[1..], rest, n);
        assert Chunks(xs, n) == [bs[0]] + Chunks(Flatten(bs[1..]) + rest, n);
        assert bs == [bs[0]] + bs[1..];
      }
    }
  }

  /** A full chunk that follows full batches is the next batch. */
  lemma ChunksNextFull<T>(bs: seq<seq<T>>, chunk: seq<T>, rest: seq<T>, n: nat)
    requires n >= 1 && AllFull(bs, n) && |chunk| == n
    ensures bs <= Chunks(Flatten(bs) + (chunk + rest), n)
    ensures |bs| < |Chunks(Flatten(bs) + (chunk + rest), n)|
    ensures Chunks(Flatten(bs) + (chunk + rest), n)[|bs|] == chunk
  {
    ChunksAfterFull(bs, chunk + rest, n);
    var tail := Chunks(chunk + rest, n);
    assert (chunk + rest)[..n] == chunk;
    assert tail[0] == chunk;
    var all := Chunks(Flatten(bs) + (chunk + rest), n);
    assert all == bs + tail;
    assert all[|bs|] == tail[0];
  }

  /** Full batches and then one more full chunk at the front of `xs`: those are the
      first batches of `xs`. */
  lemma ChunksPrefixFull<T>(bs: seq<seq<T>>, chunk: seq<T>, xs: seq<T>, n: nat)
    requires n >= 1 && AllFull(bs, n) && |chunk| == n && Flatten(bs) + chunk <= xs
    ensures bs <= Chunks(xs, n) && |bs| < |Chunks(xs, n)| && Chunks(xs, n)[|bs|] == chunk
  {
    var rest := xs[|Flatten(bs) + chunk|..];
    assert xs == (Flatten(bs) + chunk) + rest;
    ConcatAssoc(Flatten(bs), chunk, rest);
    ChunksNextFull(bs, chunk, rest, n);
  }

  lemma DivModUnique(a: nat, n: nat, q: nat, r: nat)
    requires n >= 1 && r < n && a == q * n + r
    ensures a / n == q && a % n == r
  {
    var q', r' := a / n, a % n;
    assert a == q' * n + r';
    assert (q - q') * n == r' - r;
    if q > q' {
      MulAtLeast(q - q', n);
    } else if q < q' {
      MulAtLeast(q' - q, n);
    }
  }

  lemma MulAtLeast(k: int, n: nat)
    requires k >= 1
    ensures k * n >= n
  {
  }

  /** The length of the input is the number of full batches times `n`, plus the
      length of the last batch. */
  lemma ChunksLength<T>(xs: seq<T>, n: nat)
    requires n >= 1 && Chunks(xs, n) != []
    ensures |xs| == (|Chunks(xs, n)| - 1) * n + |Chunks(xs, n)[|Chunks(xs, n)| - 1]|
  {
    var bs := Chunks(xs, n);
    ChunksSizes(xs, n);
    ChunksFlatten(xs, n);
    var full, last := bs[..|bs| - 1], bs[|bs| - 1];
    assert bs == full + [last];
    FlattenAppend(full, [last]);
    assert [last][1..] == [];
    assert Flatten([last]) == last;
    assert |xs| == |Flatten(full)| + |last|;
    assert forall k :: 0 <= k < |full| ==> full[k] == bs[k];
    FlattenFullLength(full, n);
  }

  /** There are |xs| / n full batches, and a trailing batch of |xs| % n elements
      exactly when that remainder is not zero. */
  lemma ChunksCount<T>(xs: seq<T>, n: nat)
    requires n >= 1
    ensures |Chunks(xs, n)| == |xs| / n + (if |xs| % n == 0 then 0 else 1)
    ensures |xs| % n != 0 ==> |Chunks(xs, n)[|Chunks(xs, n)| - 1]| == |xs| % n
    ensures |xs| % n == 0 ==> AllFull(Chunks(xs, n), n)
  {
    var bs := Chunks(xs, n);
    ChunksSizes(xs, n);
    if bs == [] {
      assert |xs| == 0;
    } else {
      ChunksLength(xs, n);
      var q, last := |bs| - 1, bs[|bs| - 1];
      assert 1 <= |last| <= n;
      if |last| == n {
        MulSucc(q, n);
        DivModUnique(|xs|, n, q + 1, 0);
        assert forall k :: 0 <= k < |bs| ==> k < |bs| - 1 || bs[k] == last;
      } else {
        DivModUnique(|xs|, n, q, |last|);
      }
    }
  }

  lemma MulSucc(q: nat, n: nat)
    ensures q * n + n == (q + 1) * n
  {
  }
}
