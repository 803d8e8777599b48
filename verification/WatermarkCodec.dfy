/** The hand-written watermark record: an int64 time stamp, then the view id and the last key, each behind a
    uint32 length. */
module WatermarkCodec {
  import opened Optional
  import opened Arithmetic
  import opened ByteOrder

  const WIDTH32: nat := 0x1_0000_0000
  const WIDTH64: nat := 0x1_0000_0000_0000_0000
  const HALF64: nat := 0x8000_0000_0000_0000

  datatype Record = Record(viewId: seq<Byte>, lastKey: seq<Byte>, timestamp: int)

  /** n in `width` bytes, least first. */
  function Little(n: nat, width: nat): (r: seq<Byte>)
    ensures |r| == width
  {
    if width == 0 then [] else [n % 256] + Little(n / 256, width - 1)
  }

  function FromLittle(s: seq<Byte>): nat {
    if s == [] then 0 else s[0] + 256 * FromLittle(s[1..])
  }

  function Pow256(k: nat): (p: nat)
    ensures p > 0
  {
    if k == 0 then 1 else 256 * Pow256(k - 1)
  }

  lemma {:induction false} LittleRoundTrip(n: nat, width: nat)
    requires n < Pow256(width)
    ensures FromLittle(Little(n, width)) == n
  {
    if width > 0 {
      LittleRoundTrip(n / 256, width - 1);
      assert Little(n, width)[1..] == Little(n / 256, width - 1);
    }
  }

  lemma {:induction false} FromLittleRoundTrip(s: seq<Byte>)
    ensures FromLittle(s) < Pow256(|s|) && Little(FromLittle(s), |s|) == s
  {
    if s != [] {
      FromLittleRoundTrip(s[1..]);
      var rest := FromLittle(s[1..]);
      assert FromLittle(s) == s[0] + 256 * rest;
      assert FromLittle(s) % 256 == s[0] && FromLittle(s) / 256 == rest;
      assert s == [s[0]] + s[1..];
    }
  }

  lemma Widths()
    ensures Pow256(4) == WIDTH32 && Pow256(8) == WIDTH64
  {
    assert Pow256(2) == 0x1_0000;
    assert Pow256(3) == 0x100_0000;
    assert Pow256(4) == 256 * Pow256(3);
    assert Pow256(5) == 256 * Pow256(4);
    assert Pow256(6) == 256 * Pow256(5);
    assert Pow256(7) == 256 * Pow256(6);
    assert Pow256(8) == 256 * Pow256(7);
  }

  predicate IsInt64(t: int) {
    t + HALF64 >= 0 && t < HALF64
  }

  function ToUnsigned(t: int): nat
    requires IsInt64(t)
  {
    if t < 0 then t + WIDTH64 else t
  }

  function ToSigned(n: nat): int {
    if n < HALF64 then n else n - WIDTH64
  }

  /** A length narrowed to a uint32. */
  function U32(n: nat): (r: seq<Byte>)
    ensures |r| == 4
  {
    Little(n % WIDTH32, 4)
  }

  lemma U32RoundTrip(n: nat)
    requires n < WIDTH32
    ensures FromLittle(U32(n)) == n
  {
    assert n % WIDTH32 == n;
    var width: nat := 4;
    Widths();
    assert n < Pow256(width);
    LittleRoundTrip(n, width);
  }

  lemma U32Of(s: seq<Byte>)
    requires |s| == 4
    ensures FromLittle(s) < WIDTH32 && U32(FromLittle(s)) == s
  {
    Widths();
    FromLittleRoundTrip(s);
    var n := FromLittle(s);
    assert n % WIDTH32 == n;
    assert U32(n) == Little(n, |s|);
  }

  function Header(t: int): seq<Byte>
    requires IsInt64(t)
  {
    Little(ToUnsigned(t), 8)
  }

  lemma HeaderRoundTrip(t: int)
    requires IsInt64(t)
    ensures ToSigned(FromLittle(Header(t))) == t
  {
    Widths();
    LittleRoundTrip(ToUnsigned(t), 8);
  }

  lemma HeaderOf(s: seq<Byte>)
    requires |s| == 8
    ensures IsInt64(ToSigned(FromLittle(s))) && Header(ToSigned(FromLittle(s))) == s
  {
    Widths();
    FromLittleRoundTrip(s);
  }

  /** The encoding, with more bytes after it; lengths are narrowed to 32 bits, the strings are whole. */
  function EncodeThen(w: Record, more: seq<Byte>): seq<Byte>
    requires IsInt64(w.timestamp)
  {
    Header(w.timestamp) + (U32(|w.viewId|)
      + (w.viewId + (U32(|w.lastKey|) + (w.lastKey + more))))
  }

  function Encode(w: Record): seq<Byte>
    requires IsInt64(w.timestamp)
  {
    EncodeThen(w, [])
  }

  /** Byte k has the weight of 256 to the k. */
  lemma {:induction false} LittleBytes(n: nat, width: nat, k: nat)
    requires k < width
    ensures Little(n, width)[k] == (n / Pow256(k)) % 256
  {
    if k > 0 {
      LittleBytes(n / 256, width - 1, k - 1);
      DivTwice(n, Pow256(k - 1));
    }
  }

  lemma DivTwice(n: nat, p: nat)
    requires p > 0
    ensures n / 256 / p == n / (256 * p)
  {
    var q, r := n / 256 / p, (n / 256) % p;
    assert n / 256 == q * p + r;
    assert n == (n / 256) * 256 + n % 256;
    var rest := r * 256 + n % 256;
    assert n == q * (256 * p) + rest;
    DivModUnique(n, q, rest, 256 * p);
  }

  lemma HeaderBytes(t: int, i: nat)
    requires IsInt64(t) && i < 8
    ensures |Header(t)| == 8 && Header(t)[i] == (t % WIDTH64 / Pow256(i)) % 256
  {
    var width: nat, n := 8, ToUnsigned(t);
    DivModUnique(t, if t < 0 then -1 else 0, n, WIDTH64);
    assert Header(t) == Little(n, width);
    LittleBytes(n, width, i);
  }

  lemma LengthBytes(n: nat, i: nat)
    requires n < WIDTH32 && i < 4
    ensures U32(n)[i] == (n / Pow256(i)) % 256
  {
    var width: nat := 4;
    LittleBytes(n % WIDTH32, width, i);
  }

  /** Where the record's parts stand: the time stamp in eight bytes, and each string behind its length in four. */
  lemma EncodedLayout(w: Record)
    requires IsInt64(w.timestamp)
    ensures
      var bytes, v := Encode(w), |w.viewId|;
      && |bytes| == 16 + v + |w.lastKey| && bytes[..8] == Header(w.timestamp)
      && bytes[8..12] == U32(v) && bytes[12..12 + v] == w.viewId
      && bytes[12 + v..16 + v] == U32(|w.lastKey|) && bytes[16 + v..] == w.lastKey
  {
    var last := U32(|w.lastKey|) + (w.lastKey + []);
    var view := U32(|w.viewId|) + (w.viewId + last);
    Cut(Header(w.timestamp), view);
    Cut(U32(|w.viewId|), w.viewId + last);
    Cut(w.viewId, last);
    Cut(U32(|w.lastKey|), w.lastKey + []);
    var bytes, v := Encode(w), |w.viewId|;
    assert bytes[8..] == view && bytes[12..] == view[4..] && bytes[12 + v..] == last;
  }

  /** A uint32 length and as many bytes: the bytes and what follows them. */
  function TakeString(bytes: seq<Byte>): Result<(seq<Byte>, seq<Byte>)> {
    if |bytes| < 4 then Err("missing length")
    else
      var n, rest := FromLittle(bytes[..4]), bytes[4..];
      if n > |rest| then Err("overflow") else Ok((rest[..n], rest[n..]))
  }

  function Decode(bytes: seq<Byte>): Result<Record> {
    if |bytes| < 16 then Err("truncated")
    else
      var viewId := TakeString(bytes[8..]);
      if viewId.Err? then Err("view_id overflow")
      else
        var lastKey := TakeString(viewId.value.1);
        if lastKey.Err? then Err("last_key missing or overflow")
        else Ok(Record(viewId.value.0, lastKey.value.0, ToSigned(FromLittle(bytes[..8]))))
  }

  lemma Cut(a: seq<Byte>, b: seq<Byte>)
    ensures (a + b)[..|a|] == a && (a + b)[|a|..] == b
  {
  }

  lemma StringTaken(s: seq<Byte>, more: seq<Byte>)
    requires |s| < WIDTH32
    ensures TakeString(U32(|s|) + (s + more)) == Ok((s, more))
  {
    U32RoundTrip(|s|);
    Cut(U32(|s|), s + more);
    Cut(s, more);
  }

  lemma TakenString(bytes: seq<Byte>, s: seq<Byte>, more: seq<Byte>)
    requires TakeString(bytes) == Ok((s, more))
    ensures |s| < WIDTH32 && bytes == U32(|s|) + (s + more)
  {
    U32Of(bytes[..4]);
    assert bytes == bytes[..4] + bytes[4..];
    assert bytes[4..] == s + more;
  }

  /** Both strings are shorter than 2^32 bytes. */
  predicate Fits(w: Record) {
    |w.viewId| < WIDTH32 && |w.lastKey| < WIDTH32
  }

  /** A decoded record is what some prefix of the bytes encodes, and it always fits. */
  lemma DecodeIsEncoded(bytes: seq<Byte>, w: Record) returns (more: seq<Byte>)
    requires Decode(bytes) == Ok(w)
    ensures IsInt64(w.timestamp) && Fits(w) && bytes == EncodeThen(w, more)
  {
    HeaderOf(bytes[..8]);
    assert bytes == bytes[..8] + bytes[8..];
    var rest := TakeString(bytes[8..]).value.1;
    TakenString(bytes[8..], w.viewId, rest);
    more := TakeString(rest).value.1;
    TakenString(rest, w.lastKey, more);
  }

  lemma EncodeDecodes(w: Record, more: seq<Byte>)
    requires IsInt64(w.timestamp) && Fits(w)
    ensures Decode(EncodeThen(w, more)) == Ok(w)
  {
    var tail := U32(|w.lastKey|) + (w.lastKey + more);
    var rest := U32(|w.viewId|) + (w.viewId + tail);
    Cut(Header(w.timestamp), rest);
    HeaderRoundTrip(w.timestamp);
    StringTaken(w.viewId, tail);
    StringTaken(w.lastKey, more);
  }

  /** The codec gives a record back exactly when both its strings are shorter than 2^32 bytes. */
  lemma RoundTripIffFits(w: Record)
    requires IsInt64(w.timestamp)
    ensures Decode(Encode(w)) == Ok(w) <==> Fits(w)
  {
    if Fits(w) {
      EncodeDecodes(w, []);
    } else if Decode(Encode(w)) == Ok(w) {
      var _ := DecodeIsEncoded(Encode(w), w);
    }
  }

  /** Walks the buffer by offset, as the decoder does; no read is out of bounds. */
  method DecodeWatermark(bytes: seq<Byte>) returns (r: Result<Record>)
    ensures r.Ok? == Decode(bytes).Ok? && (r.Ok? ==> r == Decode(bytes))
  {
    if |bytes| < 16 {
      return Err("truncated");
    }
    var off := 0;
    var timestamp := ToSigned(FromLittle(bytes[off..off + 8]));
    off := off + 8;
    var l1 := FromLittle(bytes[off..off + 4]);
    off := off + 4;
    assert bytes[8..][..4] == bytes[8..12] && bytes[8..][4..] == bytes[12..];
    if off + l1 > |bytes| {
      return Err("view_id overflow");
    }
    var viewId := bytes[off..off + l1];
    assert viewId == bytes[12..][..l1] && bytes[12..][l1..] == bytes[12 + l1..];
    off := off + l1;
    if off + 4 > |bytes| {
      return Err("missing last_key length");
    }
    ghost var rest := bytes[off..];
    var l2 := FromLittle(bytes[off..off + 4]);
    assert rest[..4] == bytes[off..off + 4] && rest[4..] == bytes[off + 4..];
    off := off + 4;
    if off + l2 > |bytes| {
      return Err("last_key overflow");
    }
    assert bytes[off..][..l2] == bytes[off..off + l2];
    r := Ok(Record(viewId, bytes[off..off + l2], timestamp));
  }
}
