/**
 * Vocabulary shared by the two indexers: optional provider results,
 * positional vector IDs "<key>_<i>", the chunks that survive embedding,
 * and the processed-files record `{modified, vectors, name}`.
 */
module Indexing {

  datatype Option<+T> = None | Some(value: T)

  /** An embedding vector; its values are opaque to the model. */
  type Embedding = seq<real>

  /** Characters of the metadata preview stored with every vector (`chunk[:200]`). */
  const PreviewLength := 200

  function Preview(chunk: string): (p: string)
    ensures |p| <= PreviewLength
    ensures p <= chunk
    ensures |chunk| <= PreviewLength ==> p == chunk
    ensures |chunk| > PreviewLength ==> |p| == PreviewLength
  {
    if |chunk| <= PreviewLength then chunk else chunk[..PreviewLength]
  }

  /** `m.get(k)` */
  function Lookup<K, V>(m: map<K, V>, k: K): Option<V>
  {
    if k in m then Some(m[k]) else None
  }

  /** Two maps that agree on every lookup are equal. */
  lemma LookupExtensional<K, V>(a: map<K, V>, b: map<K, V>)
    requires forall k :: Lookup(a, k) == Lookup(b, k)
    ensures a == b
  {
    assert a.Keys == b.Keys by {
      forall k ensures k in a <==> k in b {
        assert Lookup(a, k) == Lookup(b, k);
      }
    }
    forall k | k in a ensures a[k] == b[k] {
      assert Lookup(a, k) == Lookup(b, k);
    }
  }

  /** One processed-files entry; M is the type of the modified marker. */
  datatype Record<M> = Record(modified: M, vectors: seq<string>, name: string)

  predicate IsDigit(c: char) { '0' <= c <= '9' }

  function DigitChar(d: nat): (c: char)
    requires d < 10
    ensures IsDigit(c)
  {
    (48 + d) as char
  }

  /** Python's decimal rendering of a non-negative int, as in f"{i}". */
  function NatToString(n: nat): (s: string)
    ensures |s| > 0
    ensures forall i :: 0 <= i < |s| ==> IsDigit(s[i])
    ensures n < 10 <==> |s| == 1
  {
    if n < 10 then [DigitChar(n)] else NatToString(n / 10) + [DigitChar(n % 10)]
  }

  lemma {:induction false} NatToStringInjective(a: nat, b: nat)
    ensures NatToString(a) == NatToString(b) ==> a == b
  {
    if NatToString(a) == NatToString(b) && a >= 10 && b >= 10 {
      var s := NatToString(a);
      assert s[..|s| - 1] == NatToString(a / 10);
      assert s[..|s| - 1] == NatToString(b / 10);
      assert DigitChar(a % 10) == s[|s| - 1] == DigitChar(b % 10);
      NatToStringInjective(a / 10, b / 10);
    }
  }

  /** The vector ID of chunk i of the file keyed by `key`: f"{key}_{i}". */
  function VectorId(key: string, i: nat): string
  {
    key + "_" + NatToString(i)
  }

  /**
   * Vector IDs are unique across files and chunks: the text after the last
   * '_' is the chunk index, since a rendered index holds only digits.
   */
  lemma VectorIdInjective(k1: string, i1: nat, k2: string, i2: nat)
    requires VectorId(k1, i1) == VectorId(k2, i2)
    ensures k1 == k2 && i1 == i2
  {
    var s := VectorId(k1, i1);
    var d1, d2 := NatToString(i1), NatToString(i2);
    assert s[|s| - |d1| - 1] == '_' && s[|s| - |d2| - 1] == '_';
    assert |d1| == |d2|;
    assert d1 == s[|s| - |d1|..] == d2;
    assert k1 == s[..|s| - |d1| - 1] == k2;
    NatToStringInjective(i1, i2);
  }

  /** The indices of the first n chunks whose embedding succeeded: the chunks that get a vector ID. */
  function EmbeddedIndices(chunks: seq<string>, embed: string -> Option<Embedding>, n: nat): seq<nat>
    requires n <= |chunks|
  {
    if n == 0 then []
    else
      var r := EmbeddedIndices(chunks, embed, n - 1);
      if embed(chunks[n - 1]).Some? then r + [n - 1] else r
  }

  /** EmbeddedIndices lists, in increasing order, exactly the indices below n whose chunk embedded. */
  lemma {:induction false} EmbeddedIndicesSpec(chunks: seq<string>, embed: string -> Option<Embedding>, n: nat)
    requires n <= |chunks|
    ensures var r := EmbeddedIndices(chunks, embed, n);
            (forall k :: 0 <= k < |r| ==> r[k] < n && embed(chunks[r[k]]).Some?) &&
            (forall k, l :: 0 <= k < l < |r| ==> r[k] < r[l]) &&
            (forall i :: 0 <= i < n && embed(chunks[i]).Some? ==> i in r)
  {
    if n > 0 {
      EmbeddedIndicesSpec(chunks, embed, n - 1);
    }
  }

  /** The vector IDs of the given chunk indices of the file keyed by `key`. */
  function IdsFor(key: string, indices: seq<nat>): seq<string>
  {
    if indices == [] then []
    else IdsFor(key, indices[..|indices| - 1]) + [VectorId(key, indices[|indices| - 1])]
  }

  lemma {:induction false} IdsForSpec(key: string, indices: seq<nat>)
    ensures |IdsFor(key, indices)| == |indices|
    ensures forall k :: 0 <= k < |indices| ==> IdsFor(key, indices)[k] == VectorId(key, indices[k])
  {
    if indices != [] {
      IdsForSpec(key, indices[..|indices| - 1]);
    }
  }

  /** One more chunk extends the embedded indices and their IDs by that chunk, when it embedded. */
  lemma EmbeddedStep(key: string, chunks: seq<string>, embed: string -> Option<Embedding>, i: nat)
    requires i < |chunks|
    ensures var done := EmbeddedIndices(chunks, embed, i);
            var next := EmbeddedIndices(chunks, embed, i + 1);
            if embed(chunks[i]).None? then next == done
            else next == done + [i] && IdsFor(key, next) == IdsFor(key, done) + [VectorId(key, i)]
  {
    var done := EmbeddedIndices(chunks, embed, i);
    assert (done + [i])[..|done|] == done;
  }

  /**
   * The IDs recorded for a file are pairwise distinct, and an ID is among
   * them exactly when it names a chunk whose embedding succeeded.
   */
  lemma RecordedIdsExact(key: string, chunks: seq<string>, embed: string -> Option<Embedding>, id: string)
    ensures var ids := IdsFor(key, EmbeddedIndices(chunks, embed, |chunks|));
            (id in ids <==> exists i :: 0 <= i < |chunks| && embed(chunks[i]).Some? && id == VectorId(key, i)) &&
            forall k, l :: 0 <= k < l < |ids| ==> ids[k] != ids[l]
  {
    var idx := EmbeddedIndices(chunks, embed, |chunks|);
    var ids := IdsFor(key, idx);
    EmbeddedIndicesSpec(chunks, embed, |chunks|);
    IdsForSpec(key, idx);
    if id in ids {
      var k :| 0 <= k < |ids| && ids[k] == id;
      assert 0 <= idx[k] < |chunks| && embed(chunks[idx[k]]).Some? && id == VectorId(key, idx[k]);
    }
    if exists i :: 0 <= i < |chunks| && embed(chunks[i]).Some? && id == VectorId(key, i) {
      var i :| 0 <= i < |chunks| && embed(chunks[i]).Some? && id == VectorId(key, i);
      var k :| 0 <= k < |idx| && idx[k] == i;
      assert ids[k] == id;
    }
    forall k, l | 0 <= k < l < |ids|
      ensures ids[k] != ids[l]
    {
      if ids[k] == ids[l] {
        VectorIdInjective(key, idx[k], key, idx[l]);
      }
    }
  }
}
