/** Cutting a byte string into pieces of one size, the last possibly shorter, and putting it back together. */
module Chunking {
  import opened Numbers

  function Chunks<T>(s: seq<T>, size: nat): seq<seq<T>>
    requires size > 0
    decreases |s|
  {
    if s == [] then [] else if |s| <= size then [s] else [s[..size]] + Chunks(s[size..], size)
  }

  function Concat<T>(parts: seq<seq<T>>): seq<T> {
    if parts == [] then [] else parts[0] + Concat(parts[1..])
  }

  lemma {:induction false} ConcatAppend<T>(parts: seq<seq<T>>, last: seq<T>)
    ensures Concat(parts + [last]) == Concat(parts) + last
  {
    if parts == [] {
      assert [last][1..] == [] && last + [] == last;
    } else {
      ConcatAppend(parts[1..], last);
      assert (parts + [last])[1..] == parts[1..] + [last];
    }
  }

  lemma {:induction false} ConcatChunks<T>(s: seq<T>, size: nat)
    requires size > 0
    ensures Concat(Chunks(s, size)) == s
    decreases |s|
  {
    if |s| > size {
      ConcatChunks(s[size..], size);
      assert Chunks(s, size)[1..] == Chunks(s[size..], size);
    } else if s != [] {
      assert Chunks(s, size)[1..] == [];
    }
  }

  lemma {:induction false} MulGap(d: nat, p: nat, q: nat)
    ensures p < q ==> d * p + d <= d * q
    decreases q
  {
    if p + 1 < q {
      MulGap(d, p, q - 1);
    }
  }

  lemma DivUnique(n: nat, d: nat, q: nat, r: nat)
    requires d > 0 && n == d * q + r && r < d
    ensures n / d == q
  {
    MulGap(d, n / d, q);
    MulGap(d, q, n / d);
  }

  lemma DivShift(n: nat, d: nat)
    requires d > 0
    ensures (n + d) / d == n / d + 1
  {
    DivUnique(n + d, d, n / d + 1, n % d);
  }

  lemma DivCeilStep(n: nat, size: nat)
    requires 0 < size < n
    ensures DivCeil(n, size) == 1 + DivCeil(n - size, size)
  {
    DivShift(n - size + size - 1, size);
  }

  lemma DivCeilOne(n: nat, size: nat)
    requires 0 < n <= size
    ensures DivCeil(n, size) == 1
  {
    DivUnique(n + size - 1, size, 1, n - 1);
  }

  lemma DivCeilZero(size: nat)
    requires size > 0
    ensures DivCeil(0, size) == 0
  {
    assert (size - 1) / size == 0;
  }

  lemma {:induction false} ChunkCount<T>(s: seq<T>, size: nat)
    requires size > 0
    ensures |Chunks(s, size)| == DivCeil(|s|, size)
    decreases |s|
  {
    if s == [] {
      DivCeilZero(size);
    } else if |s| <= size {
      DivCeilOne(|s|, size);
    } else {
      ChunkCount(s[size..], size);
      DivCeilStep(|s|, size);
    }
  }

  /** The length every piece of an `n`-unit string has. */
  function ExpectedLength(n: nat, size: nat, index: nat): int
    requires size > 0
  {
    if index + 1 < DivCeil(n, size) then size else n - index * size
  }

  lemma MulStep(index: nat, size: nat)
    requires index > 0
    ensures index * size == (index - 1) * size + size
  {
  }

  lemma ExpectedShift(n: nat, size: nat, index: nat)
    requires 0 < size < n && index > 0
    ensures ExpectedLength(n, size, index) == ExpectedLength(n - size, size, index - 1)
    ensures index * size == (index - 1) * size + size
  {
    DivCeilStep(n, size);
    MulStep(index, size);
    hide DivCeil;
  }

  lemma ExpectedFirst(n: nat, size: nat)
    requires 0 < size && 0 < n
    ensures ExpectedLength(n, size, 0) == if n <= size then n else size
  {
    if n <= size {
      DivCeilOne(n, size);
    } else {
      DivCeilStep(n, size);
      DivCeilPositive(n - size, size);
    }
    hide DivCeil;
  }

  /** The pieces after the first are the pieces of what follows the first. */
  lemma ChunkShift<T>(s: seq<T>, size: nat, index: nat, from: nat, length: nat)
    requires 0 < size < |s| && 0 < index < |Chunks(s, size)| && from + length <= |s| - size
    requires Chunks(s[size..], size)[index - 1] == s[size..][from..from + length]
    ensures Chunks(s, size)[index] == s[from + size..from + size + length]
  {
    assert Chunks(s, size) == [s[..size]] + Chunks(s[size..], size);
    assert s[size..][from..from + length] == s[from + size..from + size + length];
  }

  /** Each piece is the slice that starts at its index times the size. */
  lemma {:induction false} ChunkAt<T>(s: seq<T>, size: nat, index: nat)
    requires size > 0 && index < |Chunks(s, size)|
    ensures 0 <= index * size < |s|
    ensures 0 < ExpectedLength(|s|, size, index) <= size
    ensures index * size + ExpectedLength(|s|, size, index) <= |s|
    ensures Chunks(s, size)[index] == s[index * size..index * size + ExpectedLength(|s|, size, index)]
    decreases |s|
  {
    if index == 0 {
      ExpectedFirst(|s|, size);
      hide ExpectedLength;
      assert index * size == 0;
    } else {
      assert |s| > size && |Chunks(s, size)| == 1 + |Chunks(s[size..], size)|;
      hide Chunks, ExpectedLength;
      ChunkAt(s[size..], size, index - 1);
      ExpectedShift(|s|, size, index);
      ChunkShift(s, size, index, (index - 1) * size, ExpectedLength(|s|, size, index));
    }
  }

  ghost predicate WellCut<T>(parts: seq<seq<T>>, n: nat, size: nat)
    requires size > 0
  {
    |parts| == DivCeil(n, size)
    && forall i | 0 <= i < |parts| :: |parts[i]| == ExpectedLength(n, size, i)
  }

  /** Pieces of the expected lengths are the pieces of their concatenation. */
  lemma {:induction false} ChunksConcat<T>(parts: seq<seq<T>>, n: nat, size: nat)
    requires size > 0 && WellCut(parts, n, size)
    ensures |Concat(parts)| == n
    ensures Chunks(Concat(parts), size) == parts
    decreases |parts|
  {
    if n == 0 {
      DivCeilZero(size);
    } else if n <= size {
      DivCeilOne(n, size);
      assert |parts[0]| == n && Concat(parts[1..]) == [];
      assert Concat(parts) == parts[0];
      assert parts == [parts[0]];
    } else {
      DivCeilStep(n, size);
      assert |parts[0]| == size by {
        DivCeilPositive(n - size, size);
      }
      forall i | 0 <= i < |parts| - 1
        ensures |parts[1..][i]| == ExpectedLength(n - size, size, i)
      {
        assert (i + 1) * size == i * size + size;
      }
      ChunksConcat(parts[1..], n - size, size);
      assert Concat(parts)[..size] == parts[0] && Concat(parts)[size..] == Concat(parts[1..]);
    }
  }

  lemma DivCeilPositive(n: nat, size: nat)
    requires size > 0 && n > 0
    ensures DivCeil(n, size) >= 1
  {
    assert n + size - 1 >= size;
    assert (n + size - 1) / size >= size / size;
  }

  /** Cutting yields pieces of the expected lengths. */
  lemma ChunksWellCut<T>(s: seq<T>, size: nat)
    requires size > 0
    ensures WellCut(Chunks(s, size), |s|, size)
  {
    ChunkCount(s, size);
    forall i | 0 <= i < |Chunks(s, size)|
      ensures |Chunks(s, size)[i]| == ExpectedLength(|s|, size, i)
    {
      ChunkAt(s, size, i);
    }
  }

  lemma {:induction false} ConcatAt<T>(parts: seq<seq<T>>, k: nat)
    requires k < |parts|
    ensures Concat(parts) == Concat(parts[..k]) + (parts[k] + Concat(parts[k + 1..]))
  {
    if k > 0 {
      ConcatAt(parts[1..], k - 1);
      assert parts[1..][..k - 1] == parts[..k][1..] && parts[1..][k..] == parts[k + 1..];
    }
  }

  lemma PrefixesDiffer<T>(before: seq<T>, a: seq<T>, afterA: seq<T>, b: seq<T>, afterB: seq<T>)
    requires |a| <= |b| && !(a <= b)
    ensures before + (a + afterA) != before + (b + afterB)
  {
    var i :| 0 <= i < |a| && a[i] != b[i];
    assert (before + (a + afterA))[|before| + i] == a[i];
    assert (before + (b + afterB))[|before| + i] == b[i];
  }

  /** Pieces that are right up to one that the true piece does not start with join to something else. */
  lemma FirstWrong<T>(parts: seq<seq<T>>, s: seq<T>, size: nat, k: nat)
    requires size > 0 && k < |parts| == |Chunks(s, size)|
    requires parts[..k] == Chunks(s, size)[..k] && |parts[k]| <= size && !(parts[k] <= Chunks(s, size)[k])
    ensures Concat(parts) != s
  {
    var chunks := Chunks(s, size);
    ConcatChunks(s, size);
    ConcatAt(parts, k);
    ConcatAt(chunks, k);
    if |parts[k]| <= |chunks[k]| {
      PrefixesDiffer(Concat(parts[..k]), parts[k], Concat(parts[k + 1..]), chunks[k], Concat(chunks[k + 1..]));
    } else {
      LastShorter(s, size, k);
    }
  }

  /** Only the last piece is shorter than the size. */
  lemma LastShorter<T>(s: seq<T>, size: nat, k: nat)
    requires size > 0 && k < |Chunks(s, size)| && |Chunks(s, size)[k]| < size
    ensures k + 1 == |Chunks(s, size)| && Concat(Chunks(s, size)[k + 1..]) == []
  {
    ChunkAt(s, size, k);
    ChunkCount(s, size);
  }
}
