/** Directory sectors: 21 entries of 24 bytes, and what a directory's twelve direct blocks say. */
module DirData {
  import opened Words
  import opened Volume

  const PER_SECTOR := 21           // 512 / sizeof(struct dir_entry)
  const FT_UNKNOWN := 0
  const FT_REGULAR := 1
  const FT_DIRECTORY := 2

  /** A C string without its final zero. */
  type Str = seq<Byte>

  const DOT: Str := [46]
  const DOTDOT: Str := [46, 46]

  /** struct dir_entry */
  datatype Entry = Entry(name: Str, ino: int, ftype: int)

  const EMPTY := Entry([], 0, 0)

  predicate Live(e: Entry) {
    e.ftype != FT_UNKNOWN
  }

  ghost predicate NoZero(name: Str) {
    forall j :: 0 <= j < |name| ==> name[j] != 0
  }

  /** A name that fits its 16-byte field with the final zero. */
  ghost predicate GoodName(name: Str) {
    1 <= |name| <= 15 && NoZero(name)
  }

  // ---------- bytes ----------

  function InoAt(s: Sector, i: nat): (w: int)
    requires i < PER_SECTOR
    ensures IsU32(w)
  {
    WordAt(s, 6 * i + 4)
  }

  function TypeAt(s: Sector, i: nat): (w: int)
    requires i < PER_SECTOR
    ensures IsU32(w)
  {
    WordAt(s, 6 * i + 5)
  }

  /** strcmp(filename of slot i, name) == 0: the bytes of name and a zero, wherever they lead. */
  predicate NameMatches(s: Sector, i: nat, name: Str)
    requires i < PER_SECTOR
  {
    24 * i + |name| < 512 && (forall j :: 0 <= j < |name| ==> s[24 * i + j] == name[j]) && s[24 * i + |name|] == 0
  }

  /** Slot i of the sector holds entry e. */
  ghost predicate SlotIs(s: Sector, i: nat, e: Entry) {
    && i < PER_SECTOR && |e.name| <= 15 && NoZero(e.name)
    && (forall j :: 0 <= j < |e.name| ==> s[24 * i + j] == e.name[j])
    && s[24 * i + |e.name|] == 0
    && e.ino == InoAt(s, i) && e.ftype == TypeAt(s, i)
  }

  lemma MatchesIsName(s: Sector, i: nat, e: Entry, name: Str)
    requires SlotIs(s, i, e) && NoZero(name)
    ensures NameMatches(s, i, name) <==> e.name == name
  {
    var n, m := |e.name|, |name|;
    assert m < n ==> s[24 * i + m] == e.name[m];
    assert n < m ==> name[n] != 0;
  }

  /** The file name of slot i from byte j on. */
  function NameFrom(s: Sector, i: nat, j: nat): (name: Str)
    requires i < PER_SECTOR && j <= 16
    decreases 16 - j
  {
    if j == 16 || s[24 * i + j] == 0 then [] else [s[24 * i + j]] + NameFrom(s, i, j + 1)
  }

  /** The entry in slot i, as a reader of the buffer sees it. */
  function EntryAt(s: Sector, i: nat): (e: Entry)
    requires i < PER_SECTOR
  {
    Entry(NameFrom(s, i, 0), InoAt(s, i), TypeAt(s, i))
  }

  lemma {:induction false} NameFromIs(s: Sector, i: nat, e: Entry, j: nat)
    requires SlotIs(s, i, e) && j <= |e.name|
    ensures NameFrom(s, i, j) == e.name[j..]
    decreases |e.name| - j
  {
    if j < |e.name| {
      NameFromIs(s, i, e, j + 1);
      assert s[24 * i + j] == e.name[j];
    }
  }

  lemma EntryAtIs(s: Sector, i: nat, e: Entry)
    requires SlotIs(s, i, e)
    ensures EntryAt(s, i) == e
  {
    NameFromIs(s, i, e, 0);
  }

  /** The 24 bytes create_dir_entry builds: zeroed, name, inode number, type. */
  function EntryBytes(e: Entry): (bytes: seq<Byte>)
    requires |e.name| <= 16
    ensures |bytes| == 24
  {
    e.name + seq(16 - |e.name|, _ => 0) + LE32(e.ino) + LE32(e.ftype)
  }

  function PutEntry(s: Sector, i: nat, e: Entry): (s': Sector)
    requires i < PER_SECTOR && |e.name| <= 16
  {
    Splice(s, 24 * i, EntryBytes(e))
  }

  /** memset of one slot to zero. */
  function ClearEntry(s: Sector, i: nat): (s': Sector)
    requires i < PER_SECTOR
  {
    Splice(s, 24 * i, seq(24, _ => 0))
  }

  lemma SpliceKeepsSlot(s: Sector, s': Sector, i: nat, q: nat, e: Entry)
    requires i < PER_SECTOR && q < PER_SECTOR && q != i && SlotIs(s, q, e)
    requires forall j :: 0 <= j < 512 && !(24 * i <= j < 24 * i + 24) ==> s'[j] == s[j]
    ensures SlotIs(s', q, e)
  {
    assert 4 * (6 * q + 4) == 24 * q + 16 && 4 * (6 * q + 5) == 24 * q + 20;
    assert s'[24 * q + 16 .. 24 * q + 20] == s[24 * q + 16 .. 24 * q + 20];
    assert s'[24 * q + 20 .. 24 * q + 24] == s[24 * q + 20 .. 24 * q + 24];
  }

  lemma PutEntryThere(s: Sector, i: nat, e: Entry)
    requires i < PER_SECTOR && |e.name| <= 15 && NoZero(e.name) && IsU32(e.ino) && IsU32(e.ftype)
    ensures SlotIs(PutEntry(s, i, e), i, e)
  {
    var bytes, s' := EntryBytes(e), PutEntry(s, i, e);
    SpliceAt(s, 24 * i, bytes);
    EntryFields(e);
    assert forall j :: 0 <= j < 24 ==> s'[24 * i + j] == bytes[j];
    hide EntryBytes, PutEntry, LE32;
    assert s'[24 * i + 16 .. 24 * i + 20] == bytes[16..20];
    assert s'[24 * i + 20 .. 24 * i + 24] == bytes[20..24];
    WordOfLE32(e.ino);
    WordOfLE32(e.ftype);
  }

  lemma EntryFields(e: Entry)
    requires |e.name| <= 16
    ensures EntryBytes(e)[16..20] == LE32(e.ino) && EntryBytes(e)[20..24] == LE32(e.ftype)
    ensures forall j :: 0 <= j < 16 ==> EntryBytes(e)[j] == if j < |e.name| then e.name[j] else 0
  {
  }

  // ---------- rows: the entries of one sector ----------

  type Row = seq<Entry>

  ghost predicate RowIs(s: Sector, row: Row) {
    |row| == PER_SECTOR && forall i :: 0 <= i < PER_SECTOR ==> SlotIs(s, i, row[i])
  }

  function EmptyRow(): (row: Row)
    ensures |row| == PER_SECTOR && forall i :: 0 <= i < PER_SECTOR ==> row[i] == EMPTY
  {
    seq(PER_SECTOR, _ => EMPTY)
  }

  lemma ZeroWord(s: seq<Byte>, i: nat)
    requires 4 * i + 4 <= |s| && forall j :: 4 * i <= j < 4 * i + 4 ==> s[j] == 0
    ensures WordAt(s, i) == 0
  {
  }

  lemma ZeroSlot(s: Sector, i: nat)
    requires i < PER_SECTOR && forall j :: 24 * i <= j < 24 * i + 24 ==> s[j] == 0
    ensures SlotIs(s, i, EMPTY)
  {
    ZeroWord(s, 6 * i + 4);
    ZeroWord(s, 6 * i + 5);
  }

  lemma EmptyRowIs()
    ensures RowIs(ZeroSector(), EmptyRow())
  {
    forall i | 0 <= i < PER_SECTOR ensures SlotIs(ZeroSector(), i, EmptyRow()[i]) {
      ZeroSlot(ZeroSector(), i);
    }
  }

  /** memcpy of an entry into slot i. */
  lemma RowPut(s: Sector, row: Row, i: nat, e: Entry)
    requires RowIs(s, row) && i < PER_SECTOR
    requires |e.name| <= 15 && NoZero(e.name) && IsU32(e.ino) && IsU32(e.ftype)
    ensures RowIs(PutEntry(s, i, e), row[i := e])
  {
    PutEntryThere(s, i, e);
    SpliceAt(s, 24 * i, EntryBytes(e));
    forall q | 0 <= q < PER_SECTOR && q != i ensures SlotIs(PutEntry(s, i, e), q, row[q]) {
      SpliceKeepsSlot(s, PutEntry(s, i, e), i, q, row[q]);
    }
  }

  /** memset of slot i to zero. */
  lemma RowClear(s: Sector, row: Row, i: nat)
    requires RowIs(s, row) && i < PER_SECTOR
    ensures RowIs(ClearEntry(s, i), row[i := EMPTY])
  {
    var s' := ClearEntry(s, i);
    SpliceAt(s, 24 * i, seq(24, _ => 0));
    assert forall j :: 24 * i <= j < 24 * i + 24 ==> s'[j] == 0 by {
      forall j | 24 * i <= j < 24 * i + 24 ensures s'[j] == 0 {
        assert s'[24 * i + (j - 24 * i)] == 0;
      }
    }
    ZeroSlot(s', i);
    forall q | 0 <= q < PER_SECTOR && q != i ensures SlotIs(s', q, row[q]) {
      SpliceKeepsSlot(s, s', i, q, row[q]);
    }
  }

  /** Where each name stands, and where the entry of each inode stands: block and slot. */
  datatype Index = Index(at: map<Str, (int, int)>, of: map<int, (int, int)>)

  /** A directory: the entries of its twelve direct blocks, and an index to them. */
  datatype Dir = Dir(grid: seq<Row>, ix: Index)

  // ---------- listing the live entries ----------

  /** The live entries of a row, in order. */
  function LiveRow(row: Row): (live: seq<Entry>) {
    if |row| == 0 then []
    else LiveRow(row[..|row| - 1]) + if Live(row[|row| - 1]) then [row[|row| - 1]] else []
  }

  /** The live entries of a directory: block by block, slot by slot. */
  function LiveList(grid: seq<Row>): (live: seq<Entry>) {
    if |grid| == 0 then [] else LiveList(grid[..|grid| - 1]) + LiveRow(grid[|grid| - 1])
  }

  function One(e: Entry): int {
    if Live(e) then 1 else 0
  }

  lemma {:induction false} LiveRowUpdate(row: Row, i: nat, e: Entry)
    requires i < |row|
    ensures |LiveRow(row[i := e])| == |LiveRow(row)| + One(e) - One(row[i])
  {
    var n := |row| - 1;
    if i == n {
      assert row[i := e][..n] == row[..n];
    } else {
      assert row[i := e][..n] == row[..n][i := e];
      LiveRowUpdate(row[..n], i, e);
    }
  }

  lemma {:induction false} LiveListUpdate(grid: seq<Row>, k: nat, row: Row)
    requires k < |grid|
    ensures |LiveList(grid[k := row])| == |LiveList(grid)| + |LiveRow(row)| - |LiveRow(grid[k])|
  {
    var n := |grid| - 1;
    if k == n {
      assert grid[k := row][..n] == grid[..n];
    } else {
      assert grid[k := row][..n] == grid[..n][k := row];
      LiveListUpdate(grid[..n], k, row);
    }
  }

  lemma {:induction false} DeadRow(row: Row)
    requires forall i :: 0 <= i < |row| ==> !Live(row[i])
    ensures LiveRow(row) == []
  {
    if |row| > 0 {
      DeadRow(row[..|row| - 1]);
    }
  }

  /** A live entry is on the list. */
  lemma {:induction false} LiveRowHas(row: Row, i: nat)
    requires i < |row| && Live(row[i])
    ensures row[i] in LiveRow(row)
  {
    var n := |row| - 1;
    if i < n {
      LiveRowHas(row[..n], i);
    }
  }

  /** What is listed up to slot i of block k is the beginning of the whole list. */
  lemma {:induction false} ListPrefix(grid: seq<Row>, k: nat, i: nat)
    requires k < |grid| && i <= |grid[k]|
    ensures LiveList(grid[..k]) + LiveRow(grid[k][..i]) <= LiveList(grid)
    decreases |grid|, |grid[k]| - i
  {
    var n := |grid| - 1;
    if i < |grid[k]| {
      ListPrefix(grid, k, i + 1);
      assert grid[k][..i + 1][..i] == grid[k][..i];
    } else {
      assert grid[k][..i] == grid[k];
      if k == n {
        assert grid[..k] == grid[..n];
      } else {
        ListPrefix(grid[..n], k, i);
        assert grid[..n][..k] == grid[..k];
      }
    }
  }
}
