/** Moving words through a reusable buffer: `wordWriter` and `wordReader` of
`internal/index/store.go`. The buffer boundaries show in neither abstract value,
except where a file ends inside a word. */
module Streams {
  import opened LittleEndian

  const CHUNK := 0x1_0000
  const BUFFER := 4 * CHUNK

  /** Where written bytes end up. */
  class Sink {
    var out: seq<Byte>

    constructor ()
      ensures out == []
    {
      out := [];
    }

    method Write(bs: seq<Byte>)
      modifies this
      ensures out == old(out) + bs
    {
      out := out + bs;
    }
  }

  class WordWriter {
    const w: Sink
    const buf: array<Byte>
    var n: nat

    ghost predicate Valid()
      reads this, buf
    {
      buf.Length == BUFFER && n < BUFFER && n % 4 == 0
    }

    /** Everything written so far, flushed or not. */
    ghost function Written(): (bs: seq<Byte>)
      reads this, buf, w
      requires Valid()
    {
      w.out + buf[..n]
    }

    constructor (w: Sink)
      ensures Valid() && this.w == w && fresh(buf) && Written() == w.out
    {
      this.w := w;
      buf := new Byte[BUFFER];
      n := 0;
    }

    method Put(v: Word)
      requires Valid()
      modifies this, buf, w
      ensures Valid() && Written() == old(Written()) + WordBytes(v)
    {
      hide WordBytes;
      StoreWord(buf, n, v);
      n := n + 4;
      if n == buf.Length {
        w.Write(buf[..n]);
        n := 0;
      }
      assert Written() == old(w.out) + (old(buf[..n]) + WordBytes(v));
    }

    method Flush()
      requires Valid()
      modifies this, w
      ensures Valid() && n == 0 && w.out == old(Written())
    {
      if n == 0 { return; }
      w.Write(buf[..n]);
      n := 0;
    }
  }

  method StoreWord(buf: array<Byte>, n: nat, v: Word)
    requires n + 4 <= buf.Length
    modifies buf
    ensures buf[..n + 4] == old(buf[..n]) + WordBytes(v)
  {
    var b := WordBytes(v);
    buf[n], buf[n + 1], buf[n + 2], buf[n + 3] := b[0], b[1], b[2], b[3];
  }

  /** What lies from a position on. */
  function From(bs: seq<Byte>, pos: nat): (tail: seq<Byte>)
    ensures |tail| == if pos <= |bs| then |bs| - pos else 0
  {
    if pos <= |bs| then bs[pos..] else []
  }

  lemma FromFrom(bs: seq<Byte>, a: nat, b: nat)
    ensures From(From(bs, a), b) == From(bs, a + b)
  {}

  /** Input bytes and a position in them. */
  class ByteReader {
    var bytes: seq<Byte>
    var pos: nat

    constructor (bytes: seq<Byte>, pos: nat)
      ensures this.bytes == bytes && this.pos == pos
    {
      this.bytes, this.pos := bytes, pos;
    }

    function Tail(): (tail: seq<Byte>)
      reads this
    {
      From(bytes, pos)
    }

    /** As much of buf as the input still fills. */
    method ReadFull(buf: array<Byte>) returns (n: nat)
      modifies this`pos, buf
      ensures n == if buf.Length <= |old(Tail())| then buf.Length else |old(Tail())|
      ensures buf[..n] == old(Tail())[..n]
      ensures pos == old(pos) + n && Tail() == old(Tail())[n..]
    {
      var tail := Tail();
      n := if buf.Length <= |tail| then buf.Length else |tail|;
      var i := 0;
      while i < n
        invariant i <= n && buf[..i] == tail[..i]
        invariant this.pos == old(this.pos) && this.bytes == old(this.bytes)
      {
        buf[i] := tail[i];
        i := i + 1;
      }
      pos := pos + n;
    }

    /** Exactly n bytes, or a failure. */
    method Read(n: nat) returns (ok: bool, got: seq<Byte>)
      modifies this`pos
      ensures ok <==> n <= |old(Tail())|
      ensures ok ==> got == old(Tail())[..n]
      ensures ok ==> pos == old(pos) + n && Tail() == old(Tail())[n..]
    {
      var buf := new Byte[n];
      var k := ReadFull(buf);
      got := buf[..k];
      ok := k == n;
    }

    /** Back to a position; the input may have changed meanwhile. */
    method Rewind(pos: nat, now: seq<Byte>)
      modifies this
      ensures this.pos == pos && bytes == now
    {
      this.pos, bytes := pos, now;
    }
  }

  /** How many words an input of this many bytes delivers. A length that is not a
  whole number of words loses the entire last buffer, not only the odd bytes. */
  function Delivers(len: nat): (words: nat)
    ensures 4 * words <= len
  {
    if len % 4 == 0 then len / 4 else len / BUFFER * CHUNK
  }

  function Arriving(bs: seq<Byte>): (ws: seq<Word>)
    ensures |ws| == Delivers(|bs|)
  {
    Words(bs)[..Delivers(|bs|)]
  }

  /** One refill: a full buffer, a last one of whole words, or nothing more. */
  lemma Refill(bs: seq<Byte>, n: nat)
    requires n == if BUFFER <= |bs| then BUFFER else |bs|
    ensures n == 0 || n % 4 != 0 ==> Arriving(bs) == []
    ensures n % 4 == 0 ==> Arriving(bs) == Words(bs[..n]) + Arriving(bs[n..])
  {
    if n % 4 == 0 {
      WordsConcat(bs[..n], bs[n..]);
      assert bs == bs[..n] + bs[n..];
      DeliversStep(|bs|, n);
    }
  }

  lemma DeliversStep(len: nat, n: nat)
    requires n == (if BUFFER <= len then BUFFER else len) && n % 4 == 0
    ensures Delivers(len) == n / 4 + Delivers(len - n)
  {
    if n == BUFFER {
      assert len / BUFFER == (len - BUFFER) / BUFFER + 1;
    }
  }

  lemma FirstWord(bs: seq<Byte>)
    requires |bs| >= 4
    ensures Words(bs) == [WordOf(bs[..4])] + Words(bs[4..])
  {}

  class WordReader {
    const r: ByteReader
    const buf: array<Byte>
    var next: nat
    var end: nat

    ghost predicate Valid()
      reads this, buf
    {
      buf.Length == BUFFER && next <= end <= BUFFER && (end - next) % 4 == 0
    }

    /** The words still to come. */
    ghost function Rest(): (ws: seq<Word>)
      reads this, buf, r
      requires Valid()
    {
      Words(buf[next..end]) + Arriving(r.Tail())
    }

    constructor (r: ByteReader)
      ensures Valid() && this.r == r && fresh(buf) && Rest() == Arriving(r.Tail())
    {
      this.r := r;
      buf := new Byte[BUFFER];
      next, end := 0, 0;
    }

    /** Refills when the buffer runs out. */
    method More() returns (ok: bool)
      requires Valid()
      modifies this, buf, r`pos
      ensures ok <==> old(Rest()) != []
      ensures ok ==> Valid() && next < end && Rest() == old(Rest())
    {
      if next < end { return true; }
      Refill(r.Tail(), if BUFFER <= |r.Tail()| then BUFFER else |r.Tail()|);
      assert buf[next..end] == [];
      var n := r.ReadFull(buf);
      if n == 0 || n % 4 != 0 { return false; }
      next, end := 0, n;
      return true;
    }

    /** The following word. */
    method Next() returns (ok: bool, v: Word)
      requires Valid()
      modifies this, buf, r`pos
      ensures ok <==> old(Rest()) != []
      ensures ok ==> Valid() && v == old(Rest())[0] && Rest() == old(Rest())[1..]
    {
      hide Words, WordOf, Arriving, From;
      ok := More();
      if !ok { return false, 0; }
      assert 4 <= end - next;
      v := WordOf(buf[next..next + 4]);
      FirstWord(buf[next..end]);
      assert buf[next..end][..4] == buf[next..next + 4] && buf[next..end][4..] == buf[next + 4..end];
      next := next + 4;
    }
  }
}
