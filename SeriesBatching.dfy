/** Building BLS series identifiers from item codes, recovering the code from an
    identifier, and splitting the identifiers into request batches. */
module SeriesBatching {
  import opened Sequences

  /** One row of the input item table (columns item_code, item_name). */
  datatype ItemRow = ItemRow(code: string, name: string)

  /** Series-ID prefix for CPI-U, not seasonally adjusted, U.S. city average. */
  const Prefix: string := "CUUR0000"

  /** Most series identifiers the API accepts in one request. */
  const ChunkSize: nat := 24

  /** The series identifier of one item code. Its first eight characters are the
      prefix, and slicing them off (`series_id[8:]`) gives the code back. */
  function SeriesId(code: string): (sid: string)
    ensures |sid| == |Prefix| + |code|
    ensures Prefix <= sid
    ensures ItemCode(sid) == code
  {
    Prefix + code
  }

  /** The item code a series identifier stands for: the identifier without its
      first eight characters. */
  function ItemCode(sid: string): (code: string)
    ensures Prefix <= sid ==> Prefix + code == sid
    ensures |sid| <= |Prefix| ==> code == []
  {
    var code := Drop(sid, |Prefix|);
    assert Prefix <= sid ==> Prefix + code == sid by {
      if Prefix <= sid {
        assert forall i :: 0 <= i < |sid| ==> (Prefix + code)[i] == sid[i];
      }
    }
    code
  }

  /** The list comprehension over the table's item_code column: one identifier
      per row, in row order. */
  function SeriesIds(rows: seq<ItemRow>): (ids: seq<string>)
    ensures |ids| == |rows|
    ensures forall i :: 0 <= i < |rows| ==> Prefix <= ids[i] && ItemCode(ids[i]) == rows[i].code
  {
    seq(|rows|, i requires 0 <= i < |rows| => SeriesId(rows[i].code))
  }

  /** Distinct item codes give distinct series identifiers. */
  lemma SeriesIdInjective(a: string, b: string)
    requires a != b
    ensures SeriesId(a) != SeriesId(b)
  {
    assert ItemCode(SeriesId(a)) == a && ItemCode(SeriesId(b)) == b;
  }

  /** Number of batches: ceil(n / size), the length of `range(0, n, size)`. */
  function ChunkCount(n: nat, size: nat): nat
    requires size > 0
  {
    (n + size - 1) / size
  }

  lemma {:induction false} ChunkCountBounds(n: nat, size: nat)
    requires size > 0
    ensures ChunkCount(n, size) * size < n + size
    ensures n <= ChunkCount(n, size) * size
  {
    var q := (n + size - 1) / size;
    var r := (n + size - 1) % size;
    assert n + size - 1 == q * size + r;
  }

  /** A batch starting at index k * size starts inside the list. */
  lemma ChunkStartInRange(n: nat, size: nat, k: nat)
    requires size > 0 && k < ChunkCount(n, size)
    ensures k * size < n
  {
    ChunkCountBounds(n, size);
    assert (k + 1) * size <= ChunkCount(n, size) * size by {
      MulMonotone(k + 1, ChunkCount(n, size), size);
    }
  }

  lemma {:induction false} MulMonotone(a: nat, b: nat, c: nat)
    requires a <= b
    ensures a * c <= b * c
  {
    if a < b {
      MulMonotone(a, b - 1, c);
      assert (b - 1) * c + c == b * c;
    }
  }

  /** `[ids[i:i + size] for i in range(0, len(ids), size)]`: contiguous slices
      of `size` identifiers, the last one possibly shorter. */
  function Chunks<T>(ids: seq<T>, size: nat): (chunks: seq<seq<T>>)
    requires size > 0
    ensures |chunks| == ChunkCount(|ids|, size)
  {
    seq(ChunkCount(|ids|, size), k requires 0 <= k < ChunkCount(|ids|, size) => Slice(ids, k * size, k * size + size))
  }

  /** Batch k starts at k * size, inside the list, and runs to k * size + size
      or to the end of the list. */
  lemma ChunkAt<T>(ids: seq<T>, size: nat, k: nat)
    requires size > 0 && k < ChunkCount(|ids|, size)
    ensures k * size < |ids|
    ensures Chunks(ids, size)[k] == ids[k * size .. Min(k * size + size, |ids|)]
  {
    ChunkStartInRange(|ids|, size, k);
  }

  /** Concatenation of a list of lists, in order. */
  function Concat<T>(ss: seq<seq<T>>): seq<T>
  {
    if ss == [] then [] else Concat(ss[..|ss| - 1]) + ss[|ss| - 1]
  }

  /** Every batch is non-empty and holds at most `size` identifiers; every batch
      but the last holds exactly `size`. */
  lemma ChunkSizes<T>(ids: seq<T>, size: nat, k: nat)
    requires size > 0 && k < |Chunks(ids, size)|
    ensures 0 < |Chunks(ids, size)[k]| <= size
    ensures k < |Chunks(ids, size)| - 1 ==> |Chunks(ids, size)[k]| == size
  {
    ChunkAt(ids, size, k);
    if k < |Chunks(ids, size)| - 1 {
      ChunkStartInRange(|ids|, size, k + 1);
      MulSucc(k, size);
    }
  }

  lemma MulSucc(k: nat, size: nat)
    ensures (k + 1) * size == k * size + size
  {
  }

  /** Concatenating the first j batches gives the first j * size identifiers
      (or all of them). */
  lemma {:induction false} ConcatChunksPrefix<T>(ids: seq<T>, size: nat, j: nat)
    requires size > 0 && j <= |Chunks(ids, size)|
    ensures Concat(Chunks(ids, size)[..j]) == ids[..Min(j * size, |ids|)]
  {
    var chunks := Chunks(ids, size);
    if j == 0 {
      assert chunks[..0] == [];
    } else {
      ConcatChunksPrefix(ids, size, j - 1);
      assert chunks[..j][..j - 1] == chunks[..j - 1];
      var k := j - 1;
      ChunkAt(ids, size, k);
      MulSucc(k, size);
      var lo := k * size;
      assert j * size == lo + size;
      var hi := Min(lo + size, |ids|);
      assert lo < hi <= |ids|;
      assert chunks[k] == ids[lo .. hi];
      assert Concat(chunks[..j]) == Concat(chunks[..k]) + chunks[k];
      JoinSlices(ids, lo, hi);
    }
  }

  /** A prefix followed by the slice that continues it is the longer prefix. */
  lemma JoinSlices<T>(s: seq<T>, lo: nat, hi: nat)
    requires lo <= hi <= |s|
    ensures s[..lo] + s[lo..hi] == s[..hi]
  {
  }

  /** The batches, concatenated in order, give back exactly the identifier list. */
  lemma ConcatChunks<T>(ids: seq<T>, size: nat)
    requires size > 0
    ensures Concat(Chunks(ids, size)) == ids
  {
    var chunks := Chunks(ids, size);
    ConcatChunksPrefix(ids, size, |chunks|);
    ChunkCountBounds(|ids|, size);
    assert chunks[..|chunks|] == chunks;
  }

  /** Thirty identifiers make two requests: 24 identifiers, then 6. */
  lemma ThirtyIdsMakeTwoRequests<T>(ids: seq<T>)
    requires |ids| == 30
    ensures |Chunks(ids, ChunkSize)| == 2
    ensures Chunks(ids, ChunkSize)[0] == ids[..24] && Chunks(ids, ChunkSize)[1] == ids[24..]
  {
  }
}
