/**
A flat address space of bytes, and block headers laid out in it.

A header takes 32 bytes: two 4-byte fields (`arena`, `freed`) and three 8-byte fields (`size`, `prev`,
`next`), little-endian, in that order.
*/
module FlatMemory {
  import opened Bytes

  type Mem = seq<Byte>

  const HEADER: nat := 32

  datatype Header = Header(arena: nat, freed: bool, size: nat, prev: nat, next: nat)

  // ---- Little-endian numbers ----

  function Power(n: nat): nat {
    if n == 0 then 1 else 256 * Power(n - 1)
  }

  function Encode(v: nat, n: nat): (s: seq<Byte>)
    ensures |s| == n
  {
    if n == 0 then [] else [v % 256] + Encode(v / 256, n - 1)
  }

  function Decode(s: seq<Byte>): nat {
    if s == [] then 0 else s[0] + 256 * Decode(s[1..])
  }

  lemma {:induction false} DecodeEncode(v: nat, n: nat)
    requires v < Power(n)
    ensures Decode(Encode(v, n)) == v
  {
    if n > 0 {
      assert Encode(v, n)[1..] == Encode(v / 256, n - 1);
      DecodeEncode(v / 256, n - 1);
    }
  }

  lemma Powers()
    ensures Power(4) == 0x1_0000_0000 && Power(8) == WORD
  {
    assert Power(2) == 0x1_0000;
    assert Power(4) == 0x1_0000 * Power(2);
    assert Power(6) == 0x1_0000 * Power(4);
    assert Power(8) == 0x1_0000 * Power(6);
  }

  // ---- Headers ----

  predicate Fits(h: Header) {
    h.arena < 0x8000_0000 && h.size < WORD && h.prev < WORD && h.next < WORD
  }

  function EncodeHeader(h: Header): (s: seq<Byte>)
    ensures |s| == HEADER
  {
    Encode(h.arena, 4) + Encode(if h.freed then 1 else 0, 4) + Encode(h.size, 8) + Encode(h.prev, 8) + Encode(h.next, 8)
  }

  function DecodeHeader(s: seq<Byte>): Header
    requires |s| == HEADER
  {
    Header(Decode(s[0..4]), Decode(s[4..8]) != 0, Decode(s[8..16]), Decode(s[16..24]), Decode(s[24..32]))
  }

  /** Storing a header and loading it again loses nothing. */
  lemma HeaderRoundTrip(h: Header)
    requires Fits(h)
    ensures DecodeHeader(EncodeHeader(h)) == h
  {
    Powers();
    var s := EncodeHeader(h);
    assert s[0..4] == Encode(h.arena, 4);
    assert s[4..8] == Encode(if h.freed then 1 else 0, 4);
    assert s[8..16] == Encode(h.size, 8);
    assert s[16..24] == Encode(h.prev, 8);
    assert s[24..32] == Encode(h.next, 8);
    DecodeEncode(h.arena, 4);
    DecodeEncode(if h.freed then 1 else 0, 4);
    DecodeEncode(h.size, 8);
    DecodeEncode(h.prev, 8);
    DecodeEncode(h.next, 8);
  }

  // ---- Loads and stores ----

  function Put(m: Mem, a: nat, s: seq<Byte>): (m': Mem)
    requires a + |s| <= |m|
    ensures |m'| == |m|
    ensures forall x :: 0 <= x < |m| ==> m'[x] == (if a <= x < a + |s| then s[x - a] else m[x])
  {
    m[..a] + s + m[a + |s|..]
  }

  function Load(m: Mem, a: nat): Header
    requires a + HEADER <= |m|
  {
    DecodeHeader(m[a..a + HEADER])
  }

  function Store(m: Mem, a: nat, h: Header): (m': Mem)
    requires a + HEADER <= |m|
    ensures |m'| == |m|
    ensures forall x :: 0 <= x < |m| && !(a <= x < a + HEADER) ==> m'[x] == m[x]
  {
    Put(m, a, EncodeHeader(h))
  }

  lemma LoadStored(m: Mem, a: nat, h: Header)
    requires a + HEADER <= |m| && Fits(h)
    ensures Load(Store(m, a, h), a) == h
  {
    HeaderRoundTrip(h);
    assert Store(m, a, h)[a..a + HEADER] == EncodeHeader(h);
  }

  lemma LoadUnchanged(m: Mem, m': Mem, a: nat)
    requires |m| == |m'| && a + HEADER <= |m| && forall x :: a <= x < a + HEADER ==> m[x] == m'[x]
    ensures Load(m, a) == Load(m', a)
  {
    assert m[a..a + HEADER] == m'[a..a + HEADER];
  }
}
