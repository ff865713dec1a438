/** The arithmetic of a partitioned upload: how many parts a file of a given
    size has, which bytes each part holds, what each part object is called,
    and how many bytes a set of finished parts accounts for. */
module Partitions {
  import opened Values

  /** `Math.ceil(size / partSize)`. */
  function NumPartsFor(size: nat, partSize: nat): (n: nat)
    requires partSize > 0
    ensures size == 0 ==> n == 0
    ensures size > 0 ==> n > 0 && (n - 1) * partSize < size <= n * partSize
  {
    CeilingBounds(size, partSize);
    (size + partSize - 1) / partSize
  }

  lemma CeilingBounds(size: nat, partSize: nat)
    requires partSize > 0
    ensures var n := (size + partSize - 1) / partSize;
            (size == 0 ==> n == 0) &&
            (size > 0 ==> n > 0 && (n - 1) * partSize < size <= n * partSize)
  {
    var n := (size + partSize - 1) / partSize;
    var rem := (size + partSize - 1) % partSize;
    assert size + partSize - 1 == n * partSize + rem;
    assert (n - 1) * partSize == n * partSize - partSize;
  }

  /** `Blob.slice` clamps its bounds to the file's length. */
  function Clamp(x: nat, len: nat): (r: nat) {
    if x < len then x else len
  }

  function SliceStart(partSize: nat, p: nat, len: nat): (start: nat) {
    Clamp(p * partSize, len)
  }

  function SliceEnd(partSize: nat, p: nat, len: nat): (end: nat) {
    Clamp((p + 1) * partSize, len)
  }

  /** The bytes of part `p`: `[p * partSize, (p + 1) * partSize)`, clamped to the file. */
  function Slice(file: seq<bv8>, partSize: nat, p: nat): (s: seq<bv8>) {
    file[SliceStart(partSize, p, |file|)..SliceEnd(partSize, p, |file|)]
  }

  /** A part holds at most `partSize` bytes, and exactly that many unless it reaches the end. */
  lemma SliceLength(file: seq<bv8>, partSize: nat, p: nat)
    ensures |Slice(file, partSize, p)| <= partSize
    ensures (p + 1) * partSize <= |file| ==> |Slice(file, partSize, p)| == partSize
  {
    assert (p + 1) * partSize == p * partSize + partSize;
  }

  /** Parts follow each other: a later part starts where an earlier one has ended. */
  lemma SlicesInOrder(partSize: nat, p: nat, q: nat, len: nat)
    requires p < q
    ensures SliceEnd(partSize, p, len) <= SliceStart(partSize, q, len)
    ensures SliceEnd(partSize, p, len) == SliceStart(partSize, p + 1, len)
  {
    assert (p + 1) * partSize <= q * partSize by {
      MultiplyMonotone(p + 1, q, partSize);
    }
  }

  lemma MultiplyMonotone(a: nat, b: nat, c: nat)
    requires a <= b
    ensures a * c <= b * c
  {
    assert b * c == a * c + (b - a) * c;
  }

  /** Parts `0 .. k - 1`, one after the other. */
  function Joined(file: seq<bv8>, partSize: nat, k: nat): (joined: seq<bv8>) {
    if k == 0 then [] else Joined(file, partSize, k - 1) + Slice(file, partSize, k - 1)
  }

  /** The first `k` parts together are the file's first `k * partSize` bytes (clamped). */
  lemma {:induction false} JoinedIsPrefix(file: seq<bv8>, partSize: nat, k: nat)
    ensures Joined(file, partSize, k) == file[..Clamp(k * partSize, |file|)]
  {
    if k > 0 {
      JoinedIsPrefix(file, partSize, k - 1);
      var a := SliceStart(partSize, k - 1, |file|);
      var b := SliceEnd(partSize, k - 1, |file|);
      assert a == Clamp((k - 1) * partSize, |file|);
      assert b == Clamp(k * partSize, |file|);
      assert a <= b by {
        MultiplyMonotone(k - 1, k, partSize);
      }
      assert file[..b] == file[..a] + file[a..b];
    }
  }

  /** All the parts together are the whole file. */
  lemma PartsCoverFile(file: seq<bv8>, partSize: nat)
    requires partSize > 0
    ensures Joined(file, partSize, NumPartsFor(|file|, partSize)) == file
  {
    var n := NumPartsFor(|file|, partSize);
    JoinedIsPrefix(file, partSize, n);
    assert file[..|file|] == file;
  }

  /** `0, 1, .., n - 1` */
  function Range(n: nat): (r: seq<nat>)
    ensures |r| == n
  {
    if n == 0 then [] else Range(n - 1) + [n - 1]
  }

  lemma {:induction false} RangeIndex(n: nat, i: nat)
    requires i < n
    ensures Range(n)[i] == i
  {
    if i < n - 1 {
      RangeIndex(n - 1, i);
    }
  }

  /** The number of bytes the given parts hold. */
  function SumLengths(file: seq<bv8>, partSize: nat, ps: seq<nat>): (total: nat) {
    if ps == [] then 0
    else SumLengths(file, partSize, ps[..|ps| - 1]) + |Slice(file, partSize, ps[|ps| - 1])|
  }

  lemma SumLengthsStep(file: seq<bv8>, partSize: nat, ps: seq<nat>, k: nat)
    requires k < |ps|
    ensures SumLengths(file, partSize, ps[..k + 1]) ==
      SumLengths(file, partSize, ps[..k]) + |Slice(file, partSize, ps[k])|
  {
    assert ps[..k + 1][..k] == ps[..k];
  }

  lemma {:induction false} SumLengthsConcat(file: seq<bv8>, partSize: nat, a: seq<nat>, b: seq<nat>)
    ensures SumLengths(file, partSize, a + b) == SumLengths(file, partSize, a) + SumLengths(file, partSize, b)
    decreases |b|
  {
    if b == [] {
      assert a + b == a;
    } else {
      var n := |b| - 1;
      assert (a + b)[..|a + b| - 1] == a + b[..n];
      SumLengthsConcat(file, partSize, a, b[..n]);
    }
  }

  /** The parts `0 .. k - 1` hold as many bytes as the first `k` parts joined. */
  lemma {:induction false} SumOfRange(file: seq<bv8>, partSize: nat, k: nat)
    ensures SumLengths(file, partSize, Range(k)) == |Joined(file, partSize, k)|
  {
    if k > 0 {
      SumOfRange(file, partSize, k - 1);
      var r := Range(k);
      assert r == Range(k - 1) + [k - 1];
      assert r[..k - 1] == Range(k - 1);
      assert r[k - 1] == k - 1;
    }
  }

  /** The byte count does not depend on the order the parts come in. */
  lemma {:induction false} SumLengthsPermutation(file: seq<bv8>, partSize: nat, a: seq<nat>, b: seq<nat>)
    requires multiset(a) == multiset(b)
    ensures SumLengths(file, partSize, a) == SumLengths(file, partSize, b)
    decreases |a|
  {
    if a == [] {
      assert |b| == |multiset(b)| == 0;
    } else {
      var n := |a| - 1;
      var x := a[n];
      assert a == a[..n] + [x];
      assert x in multiset(b);
      var j :| 0 <= j < |b| && b[j] == x;
      var rest := b[..j] + b[j + 1..];
      assert b == b[..j] + [x] + b[j + 1..];
      assert multiset(rest) == multiset(b) - multiset{x};
      assert multiset(a[..n]) == multiset(a) - multiset{x};
      SumLengthsPermutation(file, partSize, a[..n], rest);
      SumLengthsConcat(file, partSize, a[..n], [x]);
      SumLengthsConcat(file, partSize, b[..j], [x]);
      SumLengthsConcat(file, partSize, b[..j] + [x], b[j + 1..]);
      SumLengthsConcat(file, partSize, b[..j], b[j + 1..]);
    }
  }

  /** The bytes of a prefix of the parts never exceed those of all of them. */
  lemma PrefixSumBounded(file: seq<bv8>, partSize: nat, ps: seq<nat>, i: nat)
    requires i <= |ps|
    ensures SumLengths(file, partSize, ps[..i]) <= SumLengths(file, partSize, ps)
  {
    assert ps == ps[..i] + ps[i..];
    SumLengthsConcat(file, partSize, ps[..i], ps[i..]);
  }

  /** Whatever order the parts finish in, all of them account for the whole file. */
  lemma AllPartsSumToSize(file: seq<bv8>, partSize: nat, order: seq<nat>)
    requires partSize > 0
    requires multiset(order) == multiset(Range(NumPartsFor(|file|, partSize)))
    ensures SumLengths(file, partSize, order) == |file|
  {
    var n := NumPartsFor(|file|, partSize);
    SumLengthsPermutation(file, partSize, order, Range(n));
    SumOfRange(file, partSize, n);
    PartsCoverFile(file, partSize);
  }

  /** A permutation of `0 .. n - 1` names each part once. */
  lemma PermutationIsDistinct(order: seq<nat>, n: nat, i: nat, j: nat)
    requires multiset(order) == multiset(Range(n))
    requires i < j < |order|
    ensures order[i] != order[j]
  {
    if order[i] == order[j] {
      var x := order[i];
      var a, b, c := order[..i], order[i + 1..j], order[j + 1..];
      assert order == a + [x] + b + [x] + c;
      assert multiset(order) == multiset(a) + multiset{x} + multiset(b) + multiset{x} + multiset(c);
      RangeCountsOnce(n, x);
      assert false;
    }
  }

  lemma {:induction false} RangeCountsOnce(n: nat, x: nat)
    ensures multiset(Range(n))[x] <= 1
  {
    if n > 0 {
      var r := Range(n - 1);
      var tail: seq<nat> := [n - 1];
      var last: multiset<nat> := multiset(tail);
      assert Range(n) == r + tail;
      var whole: multiset<nat> := multiset(Range(n));
      var front: multiset<nat> := multiset(r);
      assert whole == front + last;
      assert whole[x] == front[x] + last[x];
      if x == n - 1 {
        RangeBelow(n - 1, x);
        assert front[x] == 0;
        assert last[x] == 1;
      } else {
        RangeCountsOnce(n - 1, x);
        assert last[x] == 0;
      }
    }
  }

  lemma {:induction false} RangeBelow(n: nat, x: nat)
    requires n <= x
    ensures x !in multiset(Range(n))
  {
    if n > 0 {
      RangeBelow(n - 1, x);
      var tail: seq<nat> := [n - 1];
      var whole: multiset<nat> := multiset(Range(n));
      var front: multiset<nat> := multiset(Range(n - 1));
      var last: multiset<nat> := multiset(tail);
      assert Range(n) == Range(n - 1) + tail;
      assert whole == front + last;
      assert whole[x] == front[x] + last[x];
      assert front[x] == 0 && last[x] == 0;
    }
  }

  /** The name of part `n`: `url + ".part" + n`. */
  function PartName(url: string, n: nat): (name: string) {
    url + ".part" + NatText(n)
  }

  /** A part's name is the url, then `.part`, then the part number's digits. */
  lemma PartNameParts(url: string, n: nat)
    ensures |PartName(url, n)| > |url| + 5
    ensures PartName(url, n)[..|url|] == url && PartName(url, n)[|url|..|url| + 5] == ".part"
    ensures PartName(url, n)[|url| + 5..] == NatText(n)
  {
  }

  /** Different parts of one document have different names. */
  lemma PartNamesDistinct(url: string, m: nat, n: nat)
    requires PartName(url, m) == PartName(url, n)
    ensures m == n
  {
    PartNameParts(url, m);
    PartNameParts(url, n);
    NatTextInjective(m, n);
  }
}
