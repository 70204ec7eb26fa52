/** Bytes, little-endian 32-bit words, 512-byte sectors and word tables, as the
    x86 kernel lays them out on disk.  All round trips are proved here once. */
module Words {

  const U32_LIMIT := 0x1_0000_0000

  type Byte = b: int | 0 <= b < 256
  type Sector = s: seq<Byte> | |s| == 512 witness seq(512, _ => 0)

  predicate IsU32(w: int) {
    0 <= w < U32_LIMIT
  }

  /** The four bytes of a word, least significant first. */
  function LE32(w: int): (bytes: seq<Byte>)
    ensures |bytes| == 4
  {
    [w % 256, w / 256 % 256, w / 65536 % 256, w / 16777216 % 256]
  }

  function Word(bytes: seq<Byte>): (w: int)
    requires |bytes| == 4
    ensures IsU32(w)
  {
    var b0: int, b1: int, b2: int, b3: int := bytes[0], bytes[1], bytes[2], bytes[3];
    b0 + 256 * b1 + 65536 * b2 + 16777216 * b3
  }

  lemma WordOfLE32(w: int)
    requires IsU32(w)
    ensures Word(LE32(w)) == w
  {
    var a, b := w / 256, w / 65536;
    assert b == a / 256 && w / 16777216 == b / 256;
    assert w == a * 256 + w % 256 && a == b * 256 + a % 256 && b == (b / 256) * 256 + b % 256;
  }

  // ---------- word tables ----------

  /** Word number i of a byte string. */
  function WordAt(bytes: seq<Byte>, i: nat): (w: int)
    requires 4 * i + 4 <= |bytes|
    ensures IsU32(w)
  {
    Word(bytes[4 * i .. 4 * i + 4])
  }

  /** The bytes of a list of words, one after the other. */
  function TableBytes(words: seq<int>): (bytes: seq<Byte>)
    ensures |bytes| == 4 * |words|
  {
    seq(4 * |words|, j requires 0 <= j < 4 * |words| => LE32(words[j / 4])[j % 4])
  }

  lemma WordAtTable(words: seq<int>, i: nat)
    requires i < |words| && IsU32(words[i])
    ensures WordAt(TableBytes(words), i) == words[i]
  {
    var bytes := TableBytes(words);
    assert forall d :: 0 <= d < 4 ==> bytes[4 * i + d] == LE32(words[i])[d] by {
      forall d | 0 <= d < 4 ensures bytes[4 * i + d] == LE32(words[i])[d] {
        assert (4 * i + d) / 4 == i && (4 * i + d) % 4 == d;
      }
    }
    assert bytes[4 * i .. 4 * i + 4] == LE32(words[i]);
    WordOfLE32(words[i]);
  }

  /** The elements of `target` from `at` on are replaced by `source`: memcpy into a buffer. */
  function Splice<T>(target: seq<T>, at: nat, source: seq<T>): (result: seq<T>)
    requires at + |source| <= |target|
    ensures |result| == |target|
  {
    target[..at] + source + target[at + |source|..]
  }

  lemma SpliceAt<T>(target: seq<T>, at: nat, source: seq<T>)
    requires at + |source| <= |target|
    ensures forall j :: 0 <= j < |source| ==> Splice(target, at, source)[at + j] == source[j]
    ensures forall j :: 0 <= j < |target| && !(at <= j < at + |source|) ==> Splice(target, at, source)[j] == target[j]
  {
  }

  /** Appending the next n elements of s to a prefix of s. */
  lemma TakeMore<T>(b: seq<T>, s: seq<T>, i: nat, n: nat)
    requires i + n <= |s|
    ensures b + s[..i] + s[i .. i + n] == b + s[..i + n]
  {
    assert s[..i] + s[i .. i + n] == s[..i + n];
  }
}
