/** The hand-written base64 encoder, against decoding by section 4 of RFC 4648. */
module Base64 {
  import opened Text

  type Byte = n: int | 0 <= n < 256
  type Sextet = n: int | 0 <= n < 64

  /** The encoder's table, eight characters a row. */
  function TableRow(k: int): string
    requires 0 <= k < 8
  {
    ["ABCDEFGH", "IJKLMNOP", "QRSTUVWX", "YZabcdef", "ghijklmn", "opqrstuv", "wxyz0123", "456789+/"][k]
  }

  function Symbol(n: Sextet): char {
    if n < 26 then (n + 'A' as int) as char
    else if n < 52 then (n - 26 + 'a' as int) as char
    else if n < 62 then (n - 52 + '0' as int) as char
    else if n == 62 then '+'
    else '/'
  }

  /** `Symbol` is that table. */
  lemma SymbolIsTable(n: Sextet)
    ensures |TableRow(n as int / 8)| == 8 && TableRow(n as int / 8)[n as int % 8] == Symbol(n)
  {
  }

  /** The value of a character of the alphabet, from the table of section 4. */
  function Value(c: char): Option<Sextet> {
    if 'A' <= c <= 'Z' then Some((c as int) - ('A' as int))
    else if 'a' <= c <= 'z' then Some((c as int) - ('a' as int) + 26)
    else if '0' <= c <= '9' then Some((c as int) - ('0' as int) + 52)
    else if c == '+' then Some(62)
    else if c == '/' then Some(63)
    else None
  }

  lemma SymbolValue(n: Sextet)
    ensures Value(Symbol(n)) == Some(n) && Symbol(n) != '='
  {
  }

  /** The chunk as 24 bits, missing bytes zero. */
  function Bits(chunk: seq<Byte>): (n: int)
    requires 1 <= |chunk| <= 3
    ensures 0 <= n < 16777216
  {
    var b0: int, b1: int, b2: int := chunk[0], if |chunk| > 1 then chunk[1] else 0, if |chunk| > 2 then chunk[2] else 0;
    b0 * 65536 + b1 * 256 + b2
  }

  /** Four groups of six bits, those past the data's end replaced by `=`. */
  function Quad(w: Sextet, x: Sextet, y: Sextet, z: Sextet, len: nat): (r: string)
    requires 1 <= len <= 3
    ensures |r| == 4
  {
    [Symbol(w), Symbol(x), if len > 1 then Symbol(y) else '=', if len > 2 then Symbol(z) else '=']
  }

  /** One chunk of one to three bytes. */
  function EncodeChunk(chunk: seq<Byte>): (r: string)
    requires 1 <= |chunk| <= 3
    ensures |r| == 4
  {
    var n := Bits(chunk);
    Quad(n / 262144 % 64, n / 4096 % 64, n / 64 % 64, n % 64, |chunk|)
  }

  function Encode(data: seq<Byte>): string {
    if data == [] then []
    else if |data| <= 3 then EncodeChunk(data)
    else EncodeChunk(data[..3]) + Encode(data[3..])
  }

  function Joined(a: int, b: int): (r: Byte)
    requires 0 <= a < 64 && 0 <= b < 64
  {
    a * 4 + b / 16
  }

  function Joined2(b: int, c: int): (r: Byte)
    requires 0 <= b < 64 && 0 <= c < 64
  {
    b % 16 * 16 + c / 4
  }

  function Joined3(c: int, d: int): (r: Byte)
    requires 0 <= c < 64 && 0 <= d < 64
  {
    c % 4 * 64 + d
  }

  /** The bits of four characters; padding only at the end, and its unused bits zero. */
  function DecodeQuad(q: string): Option<seq<Byte>>
    requires |q| == 4
  {
    match (Value(q[0]), Value(q[1]), Value(q[2]), Value(q[3]))
    case (Some(a), Some(b), Some(c), Some(d)) => Some([Joined(a, b), Joined2(b, c), Joined3(c, d)])
    case (Some(a), Some(b), Some(c), None) =>
      if q[3] == '=' && c % 4 == 0 then Some([Joined(a, b), Joined2(b, c)]) else None
    case (Some(a), Some(b), None, None) =>
      if q[2] == '=' && q[3] == '=' && b % 16 == 0 then Some([Joined(a, b)]) else None
    case _ => None
  }

  /** Decoding: whole groups of four, a padded group only at the end. */
  function Decode(s: string): Option<seq<Byte>> {
    if s == [] then Some([])
    else if |s| < 4 then None
    else
      match DecodeQuad(s[..4])
      case None => None
      case Some(head) =>
        if |head| < 3 then (if |s| == 4 then Some(head) else None)
        else match Decode(s[4..])
             case Some(tail) => Some(head + tail)
             case None => None
  }

  /** The digits of a number written in base 64. */
  lemma Digits(n: int, u: int, x: int, y: int, r: int)
    requires 0 <= u < 64 && 0 <= x < 64 && 0 <= y < 64 && 0 <= r < 64
    requires n == 262144 * u + 4096 * x + 64 * y + r
    ensures n / 262144 % 64 == u && n / 4096 % 64 == x && n / 64 % 64 == y && n % 64 == r
  {
    assert n / 262144 == u;
    assert n / 4096 == 64 * u + x;
    assert n / 64 == 4096 * u + 64 * x + y;
  }

  /** The four groups of six bits of three bytes. */
  lemma ThreeBytes(b0: Byte, b1: Byte, b2: Byte, n: int)
    requires n == b0 as int * 65536 + b1 as int * 256 + b2 as int
    ensures n / 262144 % 64 == b0 as int / 4
    ensures n / 4096 % 64 == b0 as int % 4 * 16 + b1 as int / 16
    ensures n / 64 % 64 == b1 as int % 16 * 4 + b2 as int / 64
    ensures n % 64 == b2 as int % 64
  {
    var u: int, v: int, s: int, t: int, q: int, r: int := b0 / 4, b0 % 4, b1 / 16, b1 % 16, b2 / 64, b2 % 64;
    Digits(n, u, v * 16 + s, t * 4 + q, r);
  }

  lemma QuadDecodes(w: Sextet, x: Sextet, y: Sextet, z: Sextet, len: nat)
    requires 1 <= len <= 3 && (len == 1 ==> x as int % 16 == 0) && (len == 2 ==> y as int % 4 == 0)
    ensures DecodeQuad(Quad(w, x, y, z, len)) == Some([Joined(w, x), Joined2(x, y), Joined3(y, z)][..len])
  {
    SymbolValue(w);
    SymbolValue(x);
    SymbolValue(y);
    SymbolValue(z);
    var all := [Joined(w, x), Joined2(x, y), Joined3(y, z)];
    assert all[..1] == [Joined(w, x)] && all[..2] == [Joined(w, x), Joined2(x, y)] && all[..3] == all;
  }

  lemma ChunkRoundTrip(chunk: seq<Byte>)
    requires 1 <= |chunk| <= 3
    ensures DecodeQuad(EncodeChunk(chunk)) == Some(chunk)
  {
    var b0, n := chunk[0], Bits(chunk);
    var b1: Byte := if |chunk| > 1 then chunk[1] else 0;
    var b2: Byte := if |chunk| > 2 then chunk[2] else 0;
    var w: Sextet, x: Sextet, y: Sextet, z: Sextet := n / 262144 % 64, n / 4096 % 64, n / 64 % 64, n % 64;
    ThreeBytes(b0, b1, b2, n);
    BytesBack(b0, b1, b2);
    QuadDecodes(w, x, y, z, |chunk|);
    assert [b0, b1, b2][..|chunk|] == chunk;
  }

  lemma BytesBack(b0: Byte, b1: Byte, b2: Byte)
    ensures
      var a: int, b: int, c: int, d: int := b0 / 4, b0 % 4 * 16 + b1 / 16, b1 % 16 * 4 + b2 / 64, b2 % 64;
      && Joined(a, b) == b0 && Joined2(b, c) == b1 && Joined3(c, d) == b2
      && (b1 == 0 ==> b % 16 == 0) && (b2 == 0 ==> c % 4 == 0)
  {
  }

  /** Decoding what was encoded gives back every byte sequence. */
  lemma {:induction false} RoundTrip(data: seq<Byte>)
    ensures Decode(Encode(data)) == Some(data)
  {
    if data == [] {
    } else if |data| <= 3 {
      ChunkRoundTrip(data);
      assert EncodeChunk(data)[..4] == EncodeChunk(data);
      assert data + [] == data;
    } else {
      var head, tail := data[..3], data[3..];
      ChunkRoundTrip(head);
      RoundTrip(tail);
      var s := EncodeChunk(head) + Encode(tail);
      assert s[..4] == EncodeChunk(head) && s[4..] == Encode(tail);
      assert head + tail == data;
    }
  }

  function Padding(n: nat): nat {
    if n % 3 == 0 then 0 else 3 - n % 3
  }

  lemma PaddingPeriodic(n: nat)
    requires n > 3
    ensures Padding(n) == Padding(n - 3)
  {
  }

  lemma ChunkCount(n: nat)
    ensures n > 3 ==> (n + 2) / 3 == (n - 3 + 2) / 3 + 1
    ensures 1 <= n <= 3 ==> (n + 2) / 3 == 1
  {
  }

  lemma EncodeStep(data: seq<Byte>)
    requires |data| > 3
    ensures |Encode(data)| == 4 + |Encode(data[3..])|
  {
  }

  lemma {:induction false} EncodedLength(data: seq<Byte>)
    ensures |Encode(data)| == (|data| + 2) / 3 * 4
  {
    ChunkCount(|data|);
    if |data| > 3 {
      EncodeStep(data);
      EncodedLength(data[3..]);
      assert |data[3..]| == |data| - 3;
    }
  }

  /** All characters are from the alphabet save the padding at the very end. */
  lemma {:induction false} EncodedShape(data: seq<Byte>)
    ensures Padding(|data|) <= |Encode(data)|
    ensures forall i :: 0 <= i < |Encode(data)| ==>
              (Encode(data)[i] == '=' <==> i >= |Encode(data)| - Padding(|data|))
              && (Encode(data)[i] != '=' ==> Value(Encode(data)[i]).Some?)
  {
    if data != [] {
      var head := if |data| <= 3 then data else data[..3];
      ChunkShape(head);
      if |data| > 3 {
        EncodedShape(data[3..]);
        PaddingPeriodic(|data|);
        assert Encode(data) == EncodeChunk(head) + Encode(data[3..]);
      }
    }
  }

  lemma ChunkShape(chunk: seq<Byte>)
    requires 1 <= |chunk| <= 3
    ensures forall i :: 0 <= i < 4 ==>
              (EncodeChunk(chunk)[i] == '=' <==> i > |chunk|)
              && (EncodeChunk(chunk)[i] != '=' ==> Value(EncodeChunk(chunk)[i]).Some?)
  {
  }

  /** The encoder's loop over chunks of three, pushing four characters each time. */
  method Base64Encode(data: seq<Byte>) returns (out: string)
    ensures out == Encode(data)
  {
    out := [];
    var rest := data;
    while rest != []
      invariant out + Encode(rest) == Encode(data)
      decreases |rest|
    {
      var len := if |rest| < 3 then |rest| else 3;
      ghost var before := out;
      out := out + EncodeChunk(rest[..len]);
      EncodeSplits(rest, len);
      assert out + Encode(rest[len..]) == before + Encode(rest);
      rest := rest[len..];
    }
    assert out + [] == out;
  }

  lemma EncodeSplits(rest: seq<Byte>, len: nat)
    requires rest != [] && len == if |rest| < 3 then |rest| else 3
    ensures Encode(rest) == EncodeChunk(rest[..len]) + Encode(rest[len..])
  {
    if |rest| <= 3 {
      assert rest[..len] == rest && rest[len..] == [];
      assert EncodeChunk(rest) + [] == EncodeChunk(rest);
    }
  }
}
