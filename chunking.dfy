// Splitting a list into contiguous pieces of bounded size, the way the
// handler splits its attachments before posting them (the webhook accepts at
// most a fixed number of attachments per post). Chunks is the specification
// that the sending loop is proved against; the lemmas state what the split
// promises: it loses, duplicates and reorders nothing, every piece is
// non-empty and within the bound, only the last piece may be short, and
// there are ceil(n / c) pieces.
module Chunking {

  function Min(a: int, b: int): int {
    if a <= b then a else b
  }

  /** Consecutive pieces of s, each of c elements except possibly the last. */
  function Chunks<T>(s: seq<T>, c: nat): (r: seq<seq<T>>)
    requires c > 0
    ensures r == [] <==> s == []
    decreases |s|
  {
    if |s| == 0 then []
    else if |s| <= c then [s]
    else [s[..c]] + Chunks(s[c..], c)
  }

  /** The concatenation of a sequence of sequences, in order. */
  function Flatten<T>(ss: seq<seq<T>>): seq<T> {
    if ss == [] then [] else ss[0] + Flatten(ss[1..])
  }

  /** Concatenating the pieces gives back the original sequence. */
  lemma {:induction false} FlattenChunks<T>(s: seq<T>, c: nat)
    requires c > 0
    ensures Flatten(Chunks(s, c)) == s
    decreases |s|
  {
    if |s| == 0 {
    } else if |s| <= c {
      assert Flatten(Chunks(s, c)) == s + Flatten([]);
    } else {
      var rest := Chunks(s[c..], c);
      FlattenChunks(s[c..], c);
      assert ([s[..c]] + rest)[1..] == rest;
      assert s[..c] + s[c..] == s;
    }
  }

  lemma MulMonotone(a: int, b: int, c: nat)
    requires a <= b
    ensures a * c <= b * c
  {
    assert b * c - a * c == (b - a) * c;
  }

  /** q is the quotient of x by c when x lies in [q*c, q*c + c). */
  lemma DivUnique(x: int, c: nat, q: int)
    requires c > 0
    requires q * c <= x < q * c + c
    ensures x / c == q
  {
    var r := x / c;
    assert r * c <= x < r * c + c;
    if r > q {
      assert (q + 1) * c == q * c + c;
      MulMonotone(q + 1, r, c);
    } else if r < q {
      MulMonotone(r + 1, q, c);
    }
  }

  lemma DivStep(x: nat, c: nat)
    requires c > 0
    ensures (x + c) / c == x / c + 1
  {
    var q := x / c;
    assert q * c <= x < q * c + c;
    assert (q + 1) * c == q * c + c;
    DivUnique(x + c, c, q + 1);
  }

  /** There are ceil(|s| / c) pieces. */
  lemma {:induction false} ChunkCount<T>(s: seq<T>, c: nat)
    requires c > 0
    ensures |Chunks(s, c)| == (|s| + c - 1) / c
    decreases |s|
  {
    if |s| == 0 {
    } else if |s| <= c {
      assert c <= |s| + c - 1 < 2 * c;
    } else {
      ChunkCount(s[c..], c);
      DivStep(|s| - c + c - 1, c);
    }
  }

  lemma MulSucc(k: nat, c: nat)
    ensures (k + 1) * c == k * c + c
  {
  }

  /** A slice of the suffix s[d..] is the slice of s shifted by d. */
  lemma SliceOfSuffix<T>(s: seq<T>, d: nat, lo: nat, hi: nat)
    requires d <= |s| && lo <= hi <= |s| - d
    ensures s[d..][lo..hi] == s[d + lo .. d + hi]
  {
  }

  /** Piece k is the slice [k*c, min(k*c + c, |s|)) and starts inside s. */
  lemma {:induction false} ChunkAt<T>(s: seq<T>, c: nat, k: nat)
    requires c > 0
    requires k < |Chunks(s, c)|
    ensures k * c < |s|
    ensures Chunks(s, c)[k] == s[k * c .. Min(k * c + c, |s|)]
    decreases |s|
  {
    if k > 0 {
      var t := s[c..];
      assert Chunks(s, c) == [s[..c]] + Chunks(t, c);
      ChunkAt(t, c, k - 1);
      var lo := (k - 1) * c;
      MulSucc(k - 1, c);
      SliceOfSuffix(s, c, lo, Min(lo + c, |t|));
    }
  }

  /** Every piece is non-empty and holds at most c elements; all pieces but
      the last hold exactly c. */
  lemma ChunkSizes<T>(s: seq<T>, c: nat, k: nat)
    requires c > 0
    requires k < |Chunks(s, c)|
    ensures 0 < |Chunks(s, c)[k]| <= c
    ensures k + 1 < |Chunks(s, c)| ==> |Chunks(s, c)[k]| == c
  {
    ChunkAt(s, c, k);
    if k + 1 < |Chunks(s, c)| {
      ChunkAt(s, c, k + 1);
      MulSucc(k, c);
    }
  }

  /** The pieces of a suffix s[i..]: the first is s[i..min(i + c, |s|)], and
      the rest are the pieces of the suffix after it. This is the step the
      sending loop takes. */
  lemma ChunksStep<T>(s: seq<T>, c: nat, i: nat)
    requires c > 0
    requires i < |s|
    ensures Chunks(s[i..], c) == [s[i .. Min(i + c, |s|)]] + Chunks(s[Min(i + c, |s|)..], c)
  {
    var t := s[i..];
    if |t| > c {
      assert t[..c] == s[i .. i + c];
      assert t[c..] == s[i + c..];
    } else {
      assert s[i .. |s|] == t;
      assert s[|s|..] == [];
    }
  }

  /** The sending loop's progress: once the pieces before position i are
      done, sending the piece at i leaves the pieces after it to do. */
  lemma ChunksAdvance<T>(s: seq<T>, c: nat, i: nat, done: seq<seq<T>>)
    requires c > 0
    requires i < |s|
    requires done + Chunks(s[i..], c) == Chunks(s, c)
    ensures (done + [s[i .. Min(i + c, |s|)]]) + Chunks(s[Min(i + c, |s|)..], c) == Chunks(s, c)
  {
    ChunksStep(s, c, i);
  }

  /** A list of 150 attachments is posted as two pieces of 100 and 50. */
  lemma HundredFiftyInTwo<T>(s: seq<T>)
    requires |s| == 150
    ensures |Chunks(s, 100)| == 2
    ensures Chunks(s, 100)[0] == s[..100] && Chunks(s, 100)[1] == s[100..]
  {
    ChunkCount(s, 100);
    ChunkAt(s, 100, 0);
    ChunkAt(s, 100, 1);
  }
}
