/** The bytes of a regular file, given the sectors behind its block list, and the shape
    file_write keeps its block list in. */
module FileData {
  import opened Words
  import opened Volume

  const MAX_FILE := 71680   // 512 * 140

  /** b are the file's bytes: position p lies in block p / 512 at p % 512. */
  ghost predicate Spells(data: seq<Sector>, size: int, b: seq<Byte>) {
    && |data| == 140 && 0 <= size <= MAX_FILE && |b| == size
    && forall p :: 0 <= p < size ==> b[p] == data[p / 512][p % 512]
  }

  /** One pass of file_write's data loop: the sector that holds the end of the file keeps its
      bytes before the end and takes the chunk from there on. */
  lemma AppendChunk(data: seq<Sector>, size: int, b: seq<Byte>, k: nat, off: nat, chunk: seq<Byte>, s: Sector)
    requires Spells(data, size, b) && size == 512 * k + off && k < 140 && off < 512 && off + |chunk| <= 512
    requires forall j :: 0 <= j < off ==> s[j] == data[k][j]
    requires forall j :: 0 <= j < |chunk| ==> s[off + j] == chunk[j]
    ensures Spells(data[k := s], size + |chunk|, b + chunk)
  {
    var data', b' := data[k := s], b + chunk;
    forall p | 0 <= p < size + |chunk| ensures b'[p] == data'[p / 512][p % 512] {
      if p >= size {
        assert p / 512 == k && p % 512 == off + (p - size);
      }
    }
  }

  /** One pass of file_read's loop: a chunk that stays inside one sector. */
  lemma ReadChunk(data: seq<Sector>, size: int, b: seq<Byte>, p: nat, n: nat)
    requires Spells(data, size, b) && p + n <= size && p % 512 + n <= 512 && p / 512 < 140
    ensures data[p / 512][p % 512 .. p % 512 + n] == b[p .. p + n]
  {
    var a, c := data[p / 512][p % 512 .. p % 512 + n], b[p .. p + n];
    forall d | 0 <= d < n ensures a[d] == c[d] {
      assert (p + d) / 512 == p / 512 && (p + d) % 512 == p % 512 + d;
    }
  }

  /** The bytes depend only on the blocks that hold them. */
  lemma SameBytes(data: seq<Sector>, data': seq<Sector>, size: int, b: seq<Byte>, n: nat)
    requires Spells(data, size, b) && |data'| == 140 && size <= 512 * n
    requires forall k :: 0 <= k < n && k < 140 ==> data'[k] == data[k]
    ensures Spells(data', size, b)
  {
    forall p | 0 <= p < size ensures b[p] == data'[p / 512][p % 512] {
      assert p / 512 < n;
    }
  }

  // ---------- block lists ----------

  /** How many blocks a file of this size holds: none before the first write, and after it one
      more than its whole blocks. */
  function BlockCount(slots: seq<int>, size: nat): (n: nat)
    requires |slots| == SLOTS
  {
    if slots[0] == 0 then 0 else size / 512 + 1
  }

  /** Slots below n hold blocks, the rest are empty, and the table is there when it is needed. */
  ghost predicate Holds(slots: seq<int>, n: nat)
    requires |slots| == SLOTS
  {
    && n <= 140
    && (forall k :: 0 <= k < n ==> slots[k] != 0)
    && (forall k :: n <= k < 140 ==> slots[k] == 0)
    && (slots[TABLE_SLOT] != 0 <==> n > 12)
  }

  ghost predicate FileShape(slots: seq<int>, size: int)
    requires |slots| == SLOTS
  {
    0 <= size < MAX_FILE && (slots[0] == 0 ==> size == 0) && Holds(slots, BlockCount(slots, size))
  }
}
