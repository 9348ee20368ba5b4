/** Bytes, the UTF-8 encoding of `Buffer.from(text, 'utf8')`, and block streams. */
module Bytes {
  import opened Wrappers


  newtype byte = x: int | 0 <= x < 256

  /** One converted block of disk payload, as the block iterator yields it. */
  type Block = seq<byte>

  /** The UTF-8 bytes of one Unicode scalar value (RFC 3629, section 3). */
  function EncodeChar(c: char): (r: seq<byte>)
    ensures 1 <= |r| <= 4
    ensures |r| == 1 <==> (c as int) < 0x80
    ensures |r| == 1 ==> r[0] as int == c as int
  {
    var n := c as int;
    if n < 0x80 then [n as byte]
    else if n < 0x800 then [(0xC0 + n / 64) as byte, (0x80 + n % 64) as byte]
    else if n < 0x10000 then
      [(0xE0 + n / 4096) as byte, (0x80 + (n / 64) % 64) as byte, (0x80 + n % 64) as byte]
    else
      [(0xF0 + n / 262144) as byte, (0x80 + (n / 4096) % 64) as byte,
       (0x80 + (n / 64) % 64) as byte, (0x80 + n % 64) as byte]
  }

  /** The UTF-8 encoding of a whole string, character after character. */
  function Utf8(s: string): seq<byte>
    decreases |s|
  {
    if s == [] then [] else EncodeChar(s[0]) + Utf8(s[1..])
  }

  /** The encoding takes between one and four bytes per character. */
  lemma {:induction false} Utf8Length(s: string)
    ensures |s| <= |Utf8(s)| <= 4 * |s|
    decreases |s|
  {
    if s != [] {
      Utf8Length(s[1..]);
    }
  }

  /** Encoding a concatenation encodes each part in turn. */
  lemma {:induction false} Utf8Append(a: string, b: string)
    ensures Utf8(a + b) == Utf8(a) + Utf8(b)
    decreases |a|
  {
    if a != [] {
      assert (a + b)[0] == a[0] && (a + b)[1..] == a[1..] + b;
      Utf8Append(a[1..], b);
      calc {
        Utf8(a + b);
        EncodeChar(a[0]) + Utf8(a[1..] + b);
        EncodeChar(a[0]) + (Utf8(a[1..]) + Utf8(b));
        (EncodeChar(a[0]) + Utf8(a[1..])) + Utf8(b);
      }
    } else {
      assert a + b == b;
    }
  }

  /** The sequence length a UTF-8 lead byte announces. */
  function Width(lead: byte): (w: nat)
    ensures 1 <= w <= 4
  {
    if lead < 0x80 then 1 else if lead < 0xE0 then 2 else if lead < 0xF0 then 3 else 4
  }

  /** The code point carried by one encoded sequence, read from its lead and continuation bytes. */
  function CodePoint(b: seq<byte>): int
    requires 1 <= |b| <= 4
  {
    if |b| == 1 then b[0] as int
    else if |b| == 2 then (b[0] as int - 0xC0) * 64 + (b[1] as int - 0x80)
    else if |b| == 3 then (b[0] as int - 0xE0) * 4096 + (b[1] as int - 0x80) * 64 + (b[2] as int - 0x80)
    else (b[0] as int - 0xF0) * 262144 + (b[1] as int - 0x80) * 4096 + (b[2] as int - 0x80) * 64 + (b[3] as int - 0x80)
  }

  /** A Unicode scalar value: a code point that is not a surrogate. */
  predicate IsScalar(n: int)
  {
    0 <= n < 0xD800 || 0xE000 <= n < 0x110000
  }

  /**
   * Decoding UTF-8 bytes back to text, sequence by sequence; `None` when the bytes
   * run out mid-sequence or name no scalar value. It inverts `Utf8` on the bytes
   * `Utf8` produces, and is no validator beyond that: a stray continuation byte is
   * read as the lead of a two-byte sequence and overlong forms are accepted.
   */
  function Decode(bytes: seq<byte>): Option<string>
    decreases |bytes|
  {
    if bytes == [] then Some([])
    else
      var w := Width(bytes[0]);
      if |bytes| < w || !IsScalar(CodePoint(bytes[..w])) then None
      else match Decode(bytes[w..])
        case None => None
        case Some(rest) => Some([CodePoint(bytes[..w]) as char] + rest)
  }

  lemma DivSteps(n: int)
    requires 0 <= n
    ensures n / 4096 == (n / 64) / 64
    ensures n / 262144 == (n / 4096) / 64
  {
    var m := n / 64;
    assert n == 64 * m + n % 64;
    assert m == 64 * (m / 64) + m % 64;
    assert n == 4096 * (m / 64) + (64 * (m % 64) + n % 64);
    assert 0 <= 64 * (m % 64) + n % 64 < 4096;
    var k := n / 4096;
    assert n == 4096 * k + n % 4096;
    assert k == 64 * (k / 64) + k % 64;
    assert n == 262144 * (k / 64) + (4096 * (k % 64) + n % 4096);
    assert 0 <= 4096 * (k % 64) + n % 4096 < 262144;
  }

  /** The lead byte of a character's encoding announces its length, and the bytes carry the character back. */
  lemma EncodeCharDecodes(c: char)
    ensures Width(EncodeChar(c)[0]) == |EncodeChar(c)|
    ensures CodePoint(EncodeChar(c)) == c as int
  {
    var n := c as int;
    DivSteps(n);
    if n < 0x80 {
    } else if n < 0x800 {
      assert n == (n / 64) * 64 + n % 64;
    } else if n < 0x10000 {
      assert n / 64 == (n / 4096) * 64 + (n / 64) % 64;
      assert n == (n / 64) * 64 + n % 64;
    } else {
      assert n / 4096 == (n / 262144) * 64 + (n / 4096) % 64;
      assert n / 64 == (n / 4096) * 64 + (n / 64) % 64;
      assert n == (n / 64) * 64 + n % 64;
    }
  }

  /** Decoding the encoding of a text gives the text back, so distinct texts never share bytes. */
  lemma {:induction false} DecodeUtf8(s: string)
    ensures Decode(Utf8(s)) == Some(s)
    decreases |s|
  {
    if s != [] {
      var e := EncodeChar(s[0]);
      var bytes := Utf8(s);
      EncodeCharDecodes(s[0]);
      DecodeUtf8(s[1..]);
      assert bytes[..|e|] == e && bytes[|e|..] == Utf8(s[1..]);
      assert (s[0] as int) as char == s[0];
      assert [s[0]] + s[1..] == s;
    }
  }

  /** Texts with the same UTF-8 bytes are equal. */
  lemma Utf8Injective(a: string, b: string)
    requires Utf8(a) == Utf8(b)
    ensures a == b
  {
    DecodeUtf8(a);
    DecodeUtf8(b);
  }

  /** The bytes of a block sequence in order: what writing each block produces. */
  function Flatten(blocks: seq<Block>): seq<byte>
    decreases |blocks|
  {
    if blocks == [] then [] else Flatten(blocks[..|blocks| - 1]) + blocks[|blocks| - 1]
  }

  /** The sum of the block lengths. */
  function TotalLength(blocks: seq<Block>): nat
    decreases |blocks|
  {
    if blocks == [] then 0 else TotalLength(blocks[1..]) + |blocks[0]|
  }

  /** The flattened payload is exactly as long as the block lengths add up to. */
  lemma {:induction false} FlattenLength(blocks: seq<Block>)
    ensures |Flatten(blocks)| == TotalLength(blocks)
    decreases |blocks|
  {
    if blocks != [] {
      var n := |blocks|;
      FlattenLength(blocks[..n - 1]);
      TotalLengthSnoc(blocks[..n - 1], blocks[n - 1]);
      assert blocks[..n - 1] + [blocks[n - 1]] == blocks;
    }
  }

  lemma {:induction false} TotalLengthSnoc(blocks: seq<Block>, b: Block)
    ensures TotalLength(blocks + [b]) == TotalLength(blocks) + |b|
    decreases |blocks|
  {
    if blocks != [] {
      assert (blocks + [b])[1..] == blocks[1..] + [b];
      TotalLengthSnoc(blocks[1..], b);
    }
  }
}
