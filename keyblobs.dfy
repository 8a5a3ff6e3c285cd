/** Decoding of the CNG public-key export blobs (BCRYPT_RSAKEY_BLOB and
    BCRYPT_ECCKEY_BLOB) and the curve-size lookup for ECDSA keys. */
module KeyBlobs {
  import opened Bytes
  import opened Types
  import opened Ncrypt

  const Rsa1Magic: uint32 := 0x31415352       // "RSA1"
  const EcdsaP256Magic: uint32 := 0x31534345  // "ECS1"
  const RsaHeaderSize: nat := 24
  const EccHeaderSize: nat := 8

  datatype RsaPublicKey = RsaPublicKey(n: nat, e: int)
  datatype Curve = P256 | P384 | P521
  datatype EccPoint = EccPoint(x: nat, y: nat)
  datatype EcdsaPublicKey = EcdsaPublicKey(curve: Curve, x: nat, y: nat)

  /** A bytes.Reader over a fixed byte string. */
  class Reader {
    const s: seq<byte>
    var i: nat

    ghost predicate Valid()
      reads this
    {
      i <= |s|
    }

    constructor (s: seq<byte>)
      ensures this.s == s && i == 0 && Valid()
    {
      this.s := s;
      i := 0;
    }

    /** Read into b[lo..]: at the end of the input the result is EOF, even for
        an empty destination; otherwise as many bytes as fit are copied. */
    method Read(b: array<byte>, lo: nat) returns (n: nat, eof: bool)
      requires Valid() && lo <= b.Length
      modifies this, b
      ensures Valid()
      ensures eof == (old(i) == |s|)
      ensures n == if eof then 0 else Min(b.Length - lo, |s| - old(i))
      ensures i == old(i) + n
      ensures b[..] == old(b[..lo]) + s[old(i)..old(i) + n] + old(b[lo + n..])
    {
      if i == |s| {
        return 0, true;
      }
      eof := false;
      n := Min(b.Length - lo, |s| - i);
      forall k | lo <= k < lo + n {
        b[k] := s[i + (k - lo)];
      }
      i := i + n;
      assert b[..] == old(b[..lo]) + s[old(i)..old(i) + n] + old(b[lo + n..]);
    }

    /** io.ReadFull, as binary.Read uses it for a fixed-size header: all k
        bytes, or a failure after consuming what was left. */
    method ReadFull(k: nat) returns (ok: bool, bytes: seq<byte>)
      requires Valid()
      modifies this
      ensures Valid()
      ensures ok == (old(i) + k <= |s|)
      ensures ok ==> bytes == s[old(i)..old(i) + k] && i == old(i) + k
      ensures !ok ==> i == |s|
    {
      if i + k <= |s| {
        ok, bytes := true, s[i..i + k];
        i := i + k;
      } else {
        ok, bytes := false, s[i..];
        i := |s|;
      }
    }
  }

  /** `n, err := r.Read(b[lo:])` followed by the check `n == len(b[lo:]) && err == nil`. */
  method ReadExact(rd: Reader, b: array<byte>, lo: nat) returns (ok: bool)
    requires rd.Valid() && lo <= b.Length
    modifies rd, b
    ensures rd.Valid()
    ensures ok == CanRead(rd.s, old(rd.i), b.Length - lo)
    ensures ok ==> rd.i == old(rd.i) + (b.Length - lo)
    ensures ok ==> b[..] == old(b[..lo]) + rd.s[old(rd.i)..rd.i]
  {
    var n, eof := rd.Read(b, lo);
    ok := n == b.Length - lo && !eof;
  }

  function Min(a: nat, b: nat): nat {
    if a <= b then a else b
  }

  /** A read of `size` bytes at `pos` succeeds only if the reader is not yet
      exhausted and at least `size` bytes remain. */
  predicate CanRead(buf: seq<byte>, pos: nat, size: nat) {
    pos < |buf| && pos + size <= |buf|
  }

  // ---------------------------------------------------------------- RSA

  datatype RsaHeader = RsaHeader(
    magic: uint32, bitLength: uint32, publicExpSize: uint32,
    modulusSize: uint32, prime1Size: uint32, prime2Size: uint32)

  function ParseRsaHeader(buf: seq<byte>): RsaHeader
    requires |buf| >= RsaHeaderSize
  {
    RsaHeader(Le32(buf, 0), Le32(buf, 4), Le32(buf, 8), Le32(buf, 12), Le32(buf, 16), Le32(buf, 20))
  }

  function EncodeRsaHeader(h: RsaHeader): (s: seq<byte>)
    ensures |s| == RsaHeaderSize
  {
    Le32Bytes(h.magic) + (Le32Bytes(h.bitLength) + (Le32Bytes(h.publicExpSize)
      + (Le32Bytes(h.modulusSize) + (Le32Bytes(h.prime1Size) + Le32Bytes(h.prime2Size)))))
  }

  /** The exponent as the code reads it: its bytes right-aligned in an
      eight-byte zero buffer, read as a big-endian uint64, converted to int. */
  function Exponent(expBytes: seq<byte>): int
    requires |expBytes| <= 8
  {
    var padded := Zeros(8 - |expBytes|) + expBytes;
    Pow256Eight();
    GoInt64(BigEndian(padded))
  }

  /** The layout of an RSA public blob: a 24-byte little-endian header, then
      the exponent bytes and the modulus bytes at their declared sizes. */
  function DecodeRsaBlob(buf: seq<byte>): Result<RsaPublicKey> {
    if |buf| < RsaHeaderSize then Err(HeaderRead)
    else
      var h := ParseRsaHeader(buf);
      if h.magic != Rsa1Magic then Err(InvalidMagic(h.magic))
      else if h.publicExpSize > 8 then Err(UnsupportedExponentSize(h.publicExpSize))
      else DecodeRsaKey(buf, h.publicExpSize, h.modulusSize)
  }

  /** The exponent and modulus that follow an accepted header. */
  function DecodeRsaKey(buf: seq<byte>, expSize: nat, modSize: nat): Result<RsaPublicKey>
    requires expSize <= 8
  {
    if !CanRead(buf, RsaHeaderSize, expSize) then Err(ExponentRead)
    else
      var m := RsaHeaderSize + expSize;
      if !CanRead(buf, m, modSize) then Err(ModulusRead)
      else Ok(RsaPublicKey(BigEndian(buf[m..m + modSize]), Exponent(buf[RsaHeaderSize..m])))
  }

  lemma HeaderFields(buf: seq<byte>, header: seq<byte>)
    requires |buf| >= RsaHeaderSize && header == buf[..RsaHeaderSize]
    ensures ParseRsaHeader(buf) == ParseRsaHeader(header)
  {
  }

  lemma ExponentBuffer(before: seq<byte>, after: seq<byte>, read: seq<byte>)
    requires |before| == 8 && AllZero(before) && |read| <= 8
    requires after == before[..8 - |read|] + read
    ensures after == Zeros(8 - |read|) + read
  {
    assert before[..8 - |read|] == Zeros(8 - |read|);
  }

  /** The big-endian integer in the next `k` bytes, read into a buffer of
      that size. */
  method ReadBigEndian(rd: Reader, k: nat) returns (ok: bool, v: nat)
    requires rd.Valid()
    modifies rd
    ensures rd.Valid()
    ensures ok == CanRead(rd.s, old(rd.i), k)
    ensures ok ==> rd.i == old(rd.i) + k && v == BigEndian(rd.s[old(rd.i)..rd.i])
  {
    var b := new byte[k](_ => 0);
    ok := ReadExact(rd, b, 0);
    v := BigEndian(b[..]);
    if ok {
      assert b[..] == rd.s[old(rd.i)..rd.i];
    }
  }

  /** The exponent read into the tail of an eight-byte zero buffer. */
  method ReadExponent(rd: Reader, k: nat) returns (ok: bool, e: int)
    requires rd.Valid() && k <= 8
    modifies rd
    ensures rd.Valid()
    ensures ok == CanRead(rd.s, old(rd.i), k)
    ensures ok ==> rd.i == old(rd.i) + k && e == Exponent(rd.s[old(rd.i)..rd.i])
  {
    var exp := new byte[8](_ => 0);
    ghost var exp0 := exp[..];
    ok := ReadExact(rd, exp, 8 - k);
    Pow256Eight();
    e := GoInt64(BigEndian(exp[..]));
    if ok {
      ExponentBuffer(exp0, exp[..], rd.s[old(rd.i)..rd.i]);
    }
  }

  /** unmarshalRSA: read the header through a bytes.Reader, check it, then read
      the exponent into the tail of an eight-byte buffer and the modulus into a
      buffer of its declared size. */
  method UnmarshalRsa(buf: seq<byte>) returns (r: Result<RsaPublicKey>)
    ensures r == DecodeRsaBlob(buf)
  {
    var rd := new Reader(buf);
    var ok, header := rd.ReadFull(RsaHeaderSize);
    if !ok {
      return Err(HeaderRead);
    }
    HeaderFields(buf, header);
    var h := ParseRsaHeader(header);
    if h.magic != Rsa1Magic {
      return Err(InvalidMagic(h.magic));
    }
    if h.publicExpSize > 8 {
      return Err(UnsupportedExponentSize(h.publicExpSize));
    }
    var okE, e := ReadExponent(rd, h.publicExpSize);
    if !okE {
      return Err(ExponentRead);
    }
    var okN, n := ReadBigEndian(rd, h.modulusSize);
    if !okN {
      return Err(ModulusRead);
    }
    r := Ok(RsaPublicKey(n, e));
  }

  /** The blob a provider would export for modulus `n` and exponent `e`, at
      the sizes that `h` declares. */
  function EncodeRsaBlob(h: RsaHeader, e: nat, n: nat): (s: seq<byte>)
    requires e < Pow256(h.publicExpSize) && n < Pow256(h.modulusSize)
    ensures |s| == RsaHeaderSize + h.publicExpSize + h.modulusSize
  {
    EncodeRsaHeader(h) + ToBigEndian(e, h.publicExpSize) + ToBigEndian(n, h.modulusSize)
  }

  lemma RsaHeaderRoundTrip(h: RsaHeader, rest: seq<byte>)
    ensures ParseRsaHeader(EncodeRsaHeader(h) + rest) == h
  {
    var e := EncodeRsaHeader(h);
    assert (e + rest)[..RsaHeaderSize] == e;
    HeaderFields(e + rest, e);
    var m, b, p, q, r1, r2 := Le32Bytes(h.magic), Le32Bytes(h.bitLength), Le32Bytes(h.publicExpSize),
      Le32Bytes(h.modulusSize), Le32Bytes(h.prime1Size), Le32Bytes(h.prime2Size);
    var t4 := r1 + r2;
    var t3 := q + t4;
    var t2 := p + t3;
    var t1 := b + t2;
    Le32Head(h.magic, t1);
    Le32Shift(m, t1, 0); Le32Head(h.bitLength, t2);
    Le32Shift(m, t1, 4); Le32Shift(b, t2, 0); Le32Head(h.publicExpSize, t3);
    Le32Shift(m, t1, 8); Le32Shift(b, t2, 4); Le32Shift(p, t3, 0); Le32Head(h.modulusSize, t4);
    Le32Shift(m, t1, 12); Le32Shift(b, t2, 8); Le32Shift(p, t3, 4); Le32Shift(q, t4, 0); Le32Head(h.prime1Size, r2);
    Le32Shift(m, t1, 16); Le32Shift(b, t2, 12); Le32Shift(p, t3, 8); Le32Shift(q, t4, 4); Le32Shift(r1, r2, 0);
    Le32Head(h.prime2Size, []);
    assert r2 + [] == r2;
  }

  /** The exponent is the big-endian value of its declared bytes, as long
      as that value stays below 2^63. */
  lemma ExponentValue(expBytes: seq<byte>)
    requires |expBytes| <= 8 && BigEndian(expBytes) < Two63
    ensures Exponent(expBytes) == BigEndian(expBytes)
  {
    BigEndianLeadingZeros(Zeros(8 - |expBytes|), expBytes);
  }

  /** Decoding an encoded blob recovers the key: the bit length, the prime
      sizes and any trailing bytes play no part. The modulus read needs at
      least one byte left, so an empty modulus needs trailing bytes. */
  lemma RsaBlobRoundTrip(h: RsaHeader, e: nat, n: nat, trailing: seq<byte>)
    requires h.magic == Rsa1Magic && h.publicExpSize <= 8
    requires e < Pow256(h.publicExpSize) && n < Pow256(h.modulusSize) && e < Two63
    requires h.modulusSize + |trailing| > 0
    ensures DecodeRsaBlob(EncodeRsaBlob(h, e, n) + trailing) == Ok(RsaPublicKey(n, e))
  {
    var eb, nb := ToBigEndian(e, h.publicExpSize), ToBigEndian(n, h.modulusSize);
    RsaLayout(h, eb, nb, trailing);
    ExponentValue(eb);
  }

  /** The exponent and modulus are read back from their places in the layout. */
  lemma {:induction false} RsaLayout(h: RsaHeader, eb: seq<byte>, nb: seq<byte>, trailing: seq<byte>)
    requires h.magic == Rsa1Magic && h.publicExpSize <= 8
    requires |eb| == h.publicExpSize && |nb| == h.modulusSize && h.modulusSize + |trailing| > 0
    ensures DecodeRsaBlob(EncodeRsaHeader(h) + eb + nb + trailing)
         == Ok(RsaPublicKey(BigEndian(nb), Exponent(eb)))
  {
    var buf := EncodeRsaHeader(h) + eb + nb + trailing;
    assert buf == EncodeRsaHeader(h) + (eb + nb + trailing);
    RsaHeaderRoundTrip(h, eb + nb + trailing);
    assert DecodeRsaBlob(buf) == DecodeRsaKey(buf, |eb|, |nb|);
    RsaKeyLayout(EncodeRsaHeader(h), eb, nb, trailing);
  }

  /** Whatever the header bytes, the exponent and modulus are read from the
      places right after them. */
  lemma {:induction false} RsaKeyLayout(header: seq<byte>, eb: seq<byte>, nb: seq<byte>, trailing: seq<byte>)
    requires |header| == RsaHeaderSize && |eb| <= 8 && |nb| + |trailing| > 0
    ensures DecodeRsaKey(header + eb + nb + trailing, |eb|, |nb|)
         == Ok(RsaPublicKey(BigEndian(nb), Exponent(eb)))
  {
    var buf := header + eb + nb + trailing;
    var m := RsaHeaderSize + |eb|;
    assert buf[RsaHeaderSize..m] == eb;
    assert buf[m..m + |nb|] == nb;
  }

  /** The header checks, whatever follows the header: a short buffer, a foreign
      magic and an exponent wider than eight bytes are each rejected. */
  lemma RsaHeaderRejected(h: RsaHeader, rest: seq<byte>, short: seq<byte>)
    requires |short| < RsaHeaderSize
    ensures DecodeRsaBlob(short) == Err(HeaderRead)
    ensures h.magic != Rsa1Magic ==> DecodeRsaBlob(EncodeRsaHeader(h) + rest) == Err(InvalidMagic(h.magic))
    ensures h.magic == Rsa1Magic && h.publicExpSize > 8 ==>
              DecodeRsaBlob(EncodeRsaHeader(h) + rest) == Err(UnsupportedExponentSize(h.publicExpSize))
  {
    RsaHeaderRoundTrip(h, rest);
  }

  /** A blob with an accepted header decodes unless fewer bytes follow than
      the two sizes declare (a size of zero at the very end also fails). */
  lemma RsaShortBody(h: RsaHeader, body: seq<byte>)
    requires h.magic == Rsa1Magic && h.publicExpSize <= 8
    ensures var r := DecodeRsaBlob(EncodeRsaHeader(h) + body);
            && (r.Ok? <==> CanRead(body, 0, h.publicExpSize) && CanRead(body, h.publicExpSize, h.modulusSize))
            && (!CanRead(body, 0, h.publicExpSize) ==> r == Err(ExponentRead))
            && (CanRead(body, 0, h.publicExpSize) && !CanRead(body, h.publicExpSize, h.modulusSize) ==> r == Err(ModulusRead))
  {
    RsaHeaderRoundTrip(h, body);
    var buf := EncodeRsaHeader(h) + body;
    assert |buf| == RsaHeaderSize + |body|;
  }

  /** Trailing bytes after a well-formed blob are ignored. */
  lemma RsaTrailingIgnored(buf: seq<byte>, trailing: seq<byte>)
    requires DecodeRsaBlob(buf).Ok?
    ensures DecodeRsaBlob(buf + trailing) == DecodeRsaBlob(buf)
  {
    var all := buf + trailing;
    assert all[..RsaHeaderSize] == buf[..RsaHeaderSize];
    HeaderFields(all, buf[..RsaHeaderSize]);
    HeaderFields(buf, buf[..RsaHeaderSize]);
    var h := ParseRsaHeader(buf);
    var m := RsaHeaderSize + h.publicExpSize;
    assert all[RsaHeaderSize..m] == buf[RsaHeaderSize..m];
    assert all[m..m + h.modulusSize] == buf[m..m + h.modulusSize];
  }

  /** A declared modulus size of zero with nothing after the exponent is a
      read failure: the reader reports end of input even for an empty read. */
  lemma RsaEmptyModulusAtEnd(h: RsaHeader, e: nat)
    requires h.magic == Rsa1Magic && h.publicExpSize <= 8 && h.modulusSize == 0
    requires e < Pow256(h.publicExpSize)
    ensures DecodeRsaBlob(EncodeRsaBlob(h, e, 0)) == Err(if h.publicExpSize == 0 then ExponentRead else ModulusRead)
  {
    RsaHeaderRoundTrip(h, ToBigEndian(e, h.publicExpSize) + ToBigEndian(0, 0));
    assert EncodeRsaBlob(h, e, 0) == EncodeRsaHeader(h) + (ToBigEndian(e, h.publicExpSize) + ToBigEndian(0, 0));
  }

  /** An eight-byte exponent with the top bit set wraps to a negative int. */
  lemma RsaExponentWraps(expBytes: seq<byte>)
    requires |expBytes| == 8 && expBytes[0] >= 0x80
    ensures Exponent(expBytes) < 0
  {
    var padded := Zeros(0) + expBytes;
    assert padded == [expBytes[0]] + expBytes[1..];
    BigEndianAppend([expBytes[0]], expBytes[1..]);
    assert [expBytes[0]][..0] == [];
    Pow256Seven();
  }

  lemma Pow256Seven()
    ensures Pow256(7) == 0x100_0000_0000_0000
  {
  }

  // ---------------------------------------------------------------- ECC

  /** The layout of an ECC public blob: magic and key length (little-endian),
      then X and Y, each of the key length, big-endian. Only the P-256 magic
      is accepted. */
  function DecodeEccPoint(buf: seq<byte>): Result<EccPoint> {
    if |buf| < EccHeaderSize then Err(HeaderRead)
    else
      var magic, cb := Le32(buf, 0), Le32(buf, 4);
      if magic != EcdsaP256Magic then Err(InvalidMagic(magic))
      else if !CanRead(buf, EccHeaderSize, cb) then Err(PointXRead)
      else if !CanRead(buf, EccHeaderSize + cb, cb) then Err(PointYRead)
      else Ok(EccPoint(BigEndian(buf[EccHeaderSize..EccHeaderSize + cb]),
                       BigEndian(buf[EccHeaderSize + cb..EccHeaderSize + 2 * cb])))
  }

  function EncodeEccBlob(magic: uint32, cb: uint32, x: nat, y: nat): (s: seq<byte>)
    requires x < Pow256(cb) && y < Pow256(cb)
    ensures |s| == EccHeaderSize + 2 * cb
  {
    Le32Bytes(magic) + Le32Bytes(cb) + ToBigEndian(x, cb) + ToBigEndian(y, cb)
  }

  /** The coordinates are read back from their places in the layout. */
  lemma {:induction false} EccLayout(cb: uint32, xb: seq<byte>, yb: seq<byte>, trailing: seq<byte>)
    requires |xb| == cb && |yb| == cb && cb + |trailing| > 0
    ensures DecodeEccPoint(Le32Bytes(EcdsaP256Magic) + Le32Bytes(cb) + xb + yb + trailing)
         == Ok(EccPoint(BigEndian(xb), BigEndian(yb)))
  {
    var payload := xb + yb + trailing;
    var buf := Le32Bytes(EcdsaP256Magic) + Le32Bytes(cb) + xb + yb + trailing;
    assert buf == Le32Bytes(EcdsaP256Magic) + Le32Bytes(cb) + payload;
    EccHeaderOf(buf, EcdsaP256Magic, cb, payload);
    var c: nat := cb;
    assert buf[EccHeaderSize..EccHeaderSize + c] == xb by {
      assert payload[..c] == xb;
    }
    assert buf[EccHeaderSize + c..EccHeaderSize + 2 * c] == yb by {
      assert payload[c..2 * c] == yb;
    }
  }

  /** Decoding an encoded P-256 blob recovers the point, trailing bytes ignored. */
  lemma EccBlobRoundTrip(cb: uint32, x: nat, y: nat, trailing: seq<byte>)
    requires x < Pow256(cb) && y < Pow256(cb)
    requires cb + |trailing| > 0
    ensures DecodeEccPoint(EncodeEccBlob(EcdsaP256Magic, cb, x, y) + trailing) == Ok(EccPoint(x, y))
  {
    EccLayout(cb, ToBigEndian(x, cb), ToBigEndian(y, cb), trailing);
  }

  lemma EccHeaderOf(buf: seq<byte>, magic: uint32, cb: uint32, payload: seq<byte>)
    requires buf == Le32Bytes(magic) + Le32Bytes(cb) + payload
    ensures |buf| >= EccHeaderSize && Le32(buf, 0) == magic && Le32(buf, 4) == cb
    ensures buf[EccHeaderSize..] == payload
  {
    Le32RoundTrip(magic, [], Le32Bytes(cb) + payload);
    assert [] + Le32Bytes(magic) + (Le32Bytes(cb) + payload) == buf;
    Le32RoundTrip(cb, Le32Bytes(magic), payload);
  }

  /** A blob that does not carry the P-256 magic is rejected whatever follows,
      so P-384 and P-521 blobs with their own magic never decode. */
  lemma EccOnlyP256Magic(buf: seq<byte>)
    requires |buf| >= EccHeaderSize && Le32(buf, 0) != EcdsaP256Magic
    ensures DecodeEccPoint(buf) == Err(InvalidMagic(Le32(buf, 0)))
  {
  }

  /** The zero-length read at the end of the input fails here too. */
  lemma EccEmptyKeyAtEnd()
    ensures DecodeEccPoint(EncodeEccBlob(EcdsaP256Magic, 0, 0, 0)) == Err(PointXRead)
  {
    Le32RoundTrip(EcdsaP256Magic, [], Le32Bytes(0));
    Le32RoundTrip(0, Le32Bytes(EcdsaP256Magic), []);
    assert EncodeEccBlob(EcdsaP256Magic, 0, 0, 0) == Le32Bytes(EcdsaP256Magic) + Le32Bytes(0) + [];
  }

  // ---------------------------------------------------------------- curve

  /** The switch in getEcdsaCurve on the key's bit length. */
  function CurveForBits(bits: uint32): Result<Curve> {
    match bits
    case 256 => Ok(P256)
    case 384 => Ok(P384)
    case 521 => Ok(P521)
    case _ => Err(UnsupportedCurve(bits))
  }

  function CurveBits(c: Curve): uint32 {
    match c
    case P256 => 256
    case P384 => 384
    case P521 => 521
  }

  /** Exactly the three bit lengths of the supported curves are accepted, each
      to its own curve. */
  lemma CurveForBitsExact(bits: uint32, c: Curve)
    ensures CurveForBits(bits) == Ok(c) <==> bits == CurveBits(c)
    ensures CurveForBits(bits).Err? <==> bits !in {256, 384, 521}
    ensures CurveForBits(bits).Err? ==> CurveForBits(bits) == Err(UnsupportedCurve(bits))
  {
  }

  const LengthProperty: Operation := GetProperty("Length")

  /** getEcdsaCurve does not panic: a successful probe leaves a buffer with a
      first byte for the fill, and a successful fill leaves the four bytes
      that binary.LittleEndian.Uint32 reads. A short buffer whose fill fails
      is an ordinary error. */
  predicate CurveSafe(respond: Call -> Reply, kh: Handle) {
    && ProbeAtLeast(respond, kh, LengthProperty, 1)
    && (Exchange(respond, kh, LengthProperty).result.Ok? ==>
          |Exchange(respond, kh, LengthProperty).result.value.buffer| >= 4)
  }

  /** getEcdsaCurve: the "Length" property through the two-phase protocol,
      its first four bytes read as a little-endian uint32. */
  function CurveQuery(respond: Call -> Reply, kh: Handle): (x: Run<Curve>)
    requires CurveSafe(respond, kh)
    ensures x.calls == Exchange(respond, kh, LengthProperty).calls
    ensures respond(ProbeCall(kh, LengthProperty)).status != 0 ==>
      x.result == Err(ProviderFailed(respond(ProbeCall(kh, LengthProperty)).status, SizeProbe))
    ensures respond(ProbeCall(kh, LengthProperty)).status == 0 ==>
      var fill := respond(FillCall(kh, LengthProperty, respond(ProbeCall(kh, LengthProperty)).size));
      fill.status != 0 ==> x.result == Err(ProviderFailed(fill.status, Fill))
  {
    var fetched := Exchange(respond, kh, LengthProperty);
    match fetched.result
    case Err(e) => Run(Err(e), fetched.calls)
    case Ok(f) => Run(CurveForBits(Le32(f.buffer, 0)), fetched.calls)
  }

  method GetEcdsaCurve(p: Provider, kh: Handle) returns (r: Result<Curve>)
    requires CurveSafe(p.respond, kh)
    modifies p
    ensures r == CurveQuery(p.respond, kh).result
    ensures p.log == old(p.log) + CurveQuery(p.respond, kh).calls
  {
    var fetched := TwoPhase(p, kh, LengthProperty);
    match fetched
    case Err(e) => r := Err(e);
    case Ok(f) => r := CurveForBits(Le32(f.buffer, 0));
  }

  /** A provider reporting `bits` as a four-byte little-endian "Length"
      property yields the curve of that bit length, or UnsupportedCurve. */
  lemma CurveFromLength(respond: Call -> Reply, kh: Handle, bits: uint32)
    requires respond(ProbeCall(kh, LengthProperty)).status == 0
    requires respond(ProbeCall(kh, LengthProperty)).size == 4
    requires var fill := respond(FillCall(kh, LengthProperty, 4));
             fill.status == 0 && fill.output == Le32Bytes(bits)
    ensures CurveQuery(respond, kh).result == CurveForBits(bits)
    ensures CurveQuery(respond, kh).result.Err? <==> bits !in {256, 384, 521}
  {
    ExchangeBuffer(respond, kh, LengthProperty);
    var buf := Exchange(respond, kh, LengthProperty).result.value.buffer;
    assert buf == [] + Le32Bytes(bits) + [];
    Le32RoundTrip(bits, [], []);
  }

  /** A "Length" property probed at one to three bytes whose fill then fails
      is reported as the fill's error; the four-byte read is never reached. */
  lemma CurveShortLengthFillFails(respond: Call -> Reply, kh: Handle)
    requires respond(ProbeCall(kh, LengthProperty)).status == 0
    requires 1 <= respond(ProbeCall(kh, LengthProperty)).size < 4
    requires respond(FillCall(kh, LengthProperty, respond(ProbeCall(kh, LengthProperty)).size)).status != 0
    ensures CurveSafe(respond, kh)
    ensures var fill := respond(FillCall(kh, LengthProperty, respond(ProbeCall(kh, LengthProperty)).size));
            CurveQuery(respond, kh) == Run(Err(ProviderFailed(fill.status, Fill)), Exchange(respond, kh, LengthProperty).calls)
  {
  }

  /** unmarshalEcdsa: the point first, then (only if it decoded) the curve. */
  function EcdsaFromBlob(respond: Call -> Reply, buf: seq<byte>, kh: Handle): Run<EcdsaPublicKey>
    requires DecodeEccPoint(buf).Ok? ==> CurveSafe(respond, kh)
  {
    match DecodeEccPoint(buf)
    case Err(e) => Run(Err(e), [])
    case Ok(pt) =>
      var c := CurveQuery(respond, kh);
      match c.result
      case Err(e) => Run(Err(e), c.calls)
      case Ok(curve) => Run(Ok(EcdsaPublicKey(curve, pt.x, pt.y)), c.calls)
  }

  /** A decoded point is paired with the curve the key reports; a curve the
      switch does not know fails the whole key with UnsupportedCurve. */
  lemma EcdsaKeyOfCurve(respond: Call -> Reply, buf: seq<byte>, kh: Handle, bits: uint32)
    requires DecodeEccPoint(buf).Ok?
    requires respond(ProbeCall(kh, LengthProperty)).status == 0
    requires respond(ProbeCall(kh, LengthProperty)).size == 4
    requires var fill := respond(FillCall(kh, LengthProperty, 4));
             fill.status == 0 && fill.output == Le32Bytes(bits)
    ensures var r := EcdsaFromBlob(respond, buf, kh).result;
            var pt := DecodeEccPoint(buf).value;
            && (bits !in {256, 384, 521} ==> r == Err(UnsupportedCurve(bits)))
            && (bits in {256, 384, 521} ==> r.Ok? && CurveBits(r.value.curve) == bits
                                            && r.value.x == pt.x && r.value.y == pt.y)
  {
    CurveFromLength(respond, kh, bits);
  }

  /** The point part of unmarshalECC: header through binary.Read, then X and Y
      each into a buffer of the key length. */
  method ReadEccPoint(buf: seq<byte>) returns (r: Result<EccPoint>)
    ensures r == DecodeEccPoint(buf)
  {
    var rd := new Reader(buf);
    var ok, header := rd.ReadFull(EccHeaderSize);
    if !ok {
      return Err(HeaderRead);
    }
    var magic: uint32, cb: nat := Le32(header, 0), Le32(header, 4);
    assert header == buf[..EccHeaderSize];
    if magic != EcdsaP256Magic {
      return Err(InvalidMagic(magic));
    }
    var okX, x := ReadBigEndian(rd, cb);
    if !okX {
      return Err(PointXRead);
    }
    var okY, y := ReadBigEndian(rd, cb);
    if !okY {
      return Err(PointYRead);
    }
    r := Ok(EccPoint(x, y));
  }

  method UnmarshalEcdsa(p: Provider, buf: seq<byte>, kh: Handle) returns (r: Result<EcdsaPublicKey>)
    requires DecodeEccPoint(buf).Ok? ==> CurveSafe(p.respond, kh)
    modifies p
    ensures r == EcdsaFromBlob(p.respond, buf, kh).result
    ensures p.log == old(p.log) + EcdsaFromBlob(p.respond, buf, kh).calls
  {
    var pt := ReadEccPoint(buf);
    if pt.Err? {
      return Err(pt.error);
    }
    var curve := GetEcdsaCurve(p, kh);
    match curve
    case Err(e) => r := Err(e);
    case Ok(c) => r := Ok(EcdsaPublicKey(c, pt.value.x, pt.value.y));
  }
}
