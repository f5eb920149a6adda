/** Bytes and the little-endian words the index file is made of. */
module LittleEndian {
  type Byte = i: int | 0 <= i < 0x100
  type Word = i: int | 0 <= i < 0x1_0000_0000
  type Int64 = i: int | -0x8000_0000_0000_0000 <= i < 0x8000_0000_0000_0000

  /** The conversion to an unsigned 32-bit value: high bits are lost. */
  function ToWord(n: nat): (w: Word)
    ensures n < 0x1_0000_0000 ==> w == n
  {
    n % 0x1_0000_0000
  }

  function ByteOf(n: nat): (b: Byte) {
    n % 0x100
  }

  function WordBytes(w: Word): (b: seq<Byte>)
    ensures |b| == 4
  {
    var w1: int := w / 0x100;
    var w2: int := w1 / 0x100;
    [ByteOf(w), ByteOf(w1), ByteOf(w2), ByteOf(w2 / 0x100)]
  }

  function WordOf(b: seq<Byte>): (w: Word)
    requires |b| == 4
  {
    var b1: int, b2: int, b3: int := b[1], b[2], b[3];
    b[0] + 0x100 * (b1 + 0x100 * (b2 + 0x100 * b3))
  }

  lemma WordOfBytes(w: Word)
    ensures WordOf(WordBytes(w)) == w
  {
    var w1: int := w / 0x100;
    var w2: int := w1 / 0x100;
    assert ByteOf(w2 / 0x100) == w2 / 0x100;
    assert ByteOf(w2) + 0x100 * (w2 / 0x100) == w2;
    assert ByteOf(w1) + 0x100 * w2 == w1;
  }

  lemma BytesOfWord(b: seq<Byte>)
    requires |b| == 4
    ensures WordBytes(WordOf(b)) == b
  {
    var b1: int, b2: int, b3: int := b[1], b[2], b[3];
    assert WordOf(b) / 0x100 == b1 + 0x100 * (b2 + 0x100 * b3);
    assert (b1 + 0x100 * (b2 + 0x100 * b3)) / 0x100 == b2 + 0x100 * b3;
  }

  function Bytes(ws: seq<Word>): (bs: seq<Byte>)
    ensures |bs| == 4 * |ws|
  {
    if ws == [] then [] else Bytes(ws[..|ws| - 1]) + WordBytes(ws[|ws| - 1])
  }

  /** Every whole word; up to three bytes left over are not part of one. */
  function Words(bs: seq<Byte>): (ws: seq<Word>)
    ensures |ws| == |bs| / 4
  {
    if |bs| < 4 then [] else [WordOf(bs[..4])] + Words(bs[4..])
  }

  lemma {:induction false} BytesConcat(a: seq<Word>, b: seq<Word>)
    ensures Bytes(a + b) == Bytes(a) + Bytes(b)
  {
    if b == [] {
      assert a + b == a;
    } else {
      var c := a + b;
      assert c[..|c| - 1] == a + b[..|b| - 1];
      BytesConcat(a, b[..|b| - 1]);
    }
  }

  lemma {:induction false} WordsConcat(a: seq<Byte>, b: seq<Byte>)
    requires |a| % 4 == 0
    ensures Words(a + b) == Words(a) + Words(b)
  {
    hide WordOf;
    if a == [] {
      assert a + b == b;
    } else {
      var c := a + b;
      assert c[..4] == a[..4] && c[4..] == a[4..] + b;
      WordsConcat(a[4..], b);
      assert Words(c) == [WordOf(c[..4])] + Words(c[4..]);
    }
  }

  lemma {:induction false} WordsOfBytes(ws: seq<Word>)
    ensures Words(Bytes(ws)) == ws
  {
    if ws != [] {
      var last := ws[|ws| - 1];
      WordsOfBytes(ws[..|ws| - 1]);
      WordsConcat(Bytes(ws[..|ws| - 1]), WordBytes(last));
      WordOfBytes(last);
      assert WordBytes(last)[..4] == WordBytes(last);
      assert Words(WordBytes(last)) == [last];
    }
  }

  lemma {:induction false} BytesOfWords(bs: seq<Byte>)
    ensures Bytes(Words(bs)) == bs[..4 * (|bs| / 4)]
  {
    if |bs| >= 4 {
      var w := WordOf(bs[..4]);
      BytesOfWords(bs[4..]);
      BytesConcat([w], Words(bs[4..]));
      BytesOfWord(bs[..4]);
      assert [w][..0] == [];
      assert Bytes([w]) == bs[..4];
      assert bs[..4] + bs[4..][..4 * (|bs[4..]| / 4)] == bs[..4 * (|bs| / 4)];
    }
  }

  /** The first words of a byte string are exactly `ws` when it starts with
  their bytes. */
  lemma StartsWith(bs: seq<Byte>, ws: seq<Word>)
    ensures Bytes(ws) <= bs <==> ws <= Words(bs)
  {
    hide Bytes, Words;
    if Bytes(ws) <= bs {
      assert bs == Bytes(ws) + bs[4 * |ws|..];
      WordsConcat(Bytes(ws), bs[4 * |ws|..]);
      WordsOfBytes(ws);
    }
    if ws <= Words(bs) {
      var rest := Words(bs)[|ws|..];
      assert Words(bs) == ws + rest;
      BytesConcat(ws, rest);
      BytesOfWords(bs);
      assert Bytes(ws) <= bs[..4 * (|bs| / 4)] <= bs;
    }
  }

  /** Eight bytes of two's complement, low word first. */
  function SeedBytes(seed: Int64): (b: seq<Byte>)
    ensures |b| == 8
  {
    var u := if seed < 0 then seed + 0x1_0000_0000_0000_0000 else seed;
    WordBytes(u % 0x1_0000_0000) + WordBytes(u / 0x1_0000_0000)
  }

  function SeedOf(b: seq<Byte>): (seed: Int64)
    requires |b| == 8
  {
    var u := WordOf(b[..4]) + 0x1_0000_0000 * WordOf(b[4..]);
    if u < 0x8000_0000_0000_0000 then u else u - 0x1_0000_0000_0000_0000
  }

  lemma SeedRoundTrip(seed: Int64)
    ensures SeedOf(SeedBytes(seed)) == seed
  {
    var u := if seed < 0 then seed + 0x1_0000_0000_0000_0000 else seed;
    var lo: Word, hi: Word := u % 0x1_0000_0000, u / 0x1_0000_0000;
    WordOfBytes(lo);
    WordOfBytes(hi);
    assert SeedBytes(seed)[..4] == WordBytes(lo) && SeedBytes(seed)[4..] == WordBytes(hi);
  }

  lemma SeedIsExact(b: seq<Byte>)
    requires |b| == 8
    ensures SeedBytes(SeedOf(b)) == b
  {
    hide WordOf, WordBytes;
    BytesOfWord(b[..4]);
    BytesOfWord(b[4..]);
    assert b == b[..4] + b[4..];
  }
}
