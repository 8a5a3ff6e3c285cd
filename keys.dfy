/** Private keys held by the key storage provider: the hash-to-algorithm table,
    signing and decryption through the size-probe/fill protocol, string
    properties with their NUL bytes removed, the public-key metadata, opening
    an existing key and generating a new one. */
module Keys {
  import opened Bytes
  import opened Types
  import opened Ncrypt
  import opened KeyBlobs

  const PadPkcs1: nat := 0x2                 // BCRYPT_PAD_PKCS1
  const MachineKeyFlag: nat := 0x20          // NCRYPT_MACHINE_KEY_FLAG
  const OverwriteKeyFlag: nat := 0x80        // NCRYPT_OVERWRITE_KEY_FLAG
  const PersistFlag: nat := 0x8000_0000      // NCRYPT_PERSIST_FLAG
  const AllowDecryptFlag: nat := 0x1         // NCRYPT_ALLOW_DECRYPT_FLAG
  const AllowSigningFlag: nat := 0x2         // NCRYPT_ALLOW_SIGNING_FLAG
  const MaxKeySize: int := 16384
  const ProviderMSSoftware: string := "Microsoft Software Key Storage Provider"
  const KeysDirectory: string := "\\Microsoft\\Crypto\\Keys\\"

  const AlgorithmGroupProperty: Operation := GetProperty("Algorithm Group")
  const UniqueNameProperty: Operation := GetProperty("Unique Name")
  const RsaPublicBlob: Operation := ExportKey("RSAPUBLICBLOB")
  const EccPublicBlob: Operation := ExportKey("ECCPUBLICBLOB")

  // ------------------------------------------------------------ algorithm ids

  const SupportedHashes: set<Hash> := {SHA1, SHA256, SHA384, SHA512}

  /** algIDs: the BCRYPT algorithm identifier for a hash, if it has one. */
  function AlgId(h: Hash): (r: Option<string>)
    ensures r.Some? <==> h in SupportedHashes
  {
    match h
    case SHA1 => Some("SHA1")
    case SHA256 => Some("SHA256")
    case SHA384 => Some("SHA384")
    case SHA512 => Some("SHA512")
    case _ => None
  }

  /** Distinct supported hashes name distinct algorithms. */
  lemma AlgIdInjective(h1: Hash, h2: Hash)
    requires AlgId(h1).Some? && AlgId(h1) == AlgId(h2)
    ensures h1 == h2
  {
  }

  // ------------------------------------------------------------ keys

  /** RsaKey and EcdsaKey: the provider's key handle, the exported public key
      and the container location. */
  datatype Key =
    | RsaKey(handle: Handle, rsaPub: RsaPublicKey, container: string)
    | EcdsaKey(handle: Handle, ecdsaPub: EcdsaPublicKey, container: string)

  /** The options a caller hands to Decrypt: this package's DecrypterOpts, or
      any other implementation of crypto.DecrypterOpts. */
  datatype DecrypterOptions =
    | DecrypterOpts(hashfunc: Hash, flags: uint32)
    | ForeignDecrypterOpts

  // ------------------------------------------------------------ sign and decrypt

  /** The NCryptSignHash call each key kind makes: PKCS #1 padding naming the
      algorithm for RSA; no padding information and no flags for ECDSA. */
  function SignOp(key: Key, digest: seq<byte>, algId: string): Operation {
    if key.RsaKey? then SignHash(Pkcs1PaddingInfo(algId), digest, PadPkcs1)
    else SignHash(NoPaddingInfo, digest, 0)
  }

  /** The NCryptDecrypt call: OAEP padding with an empty label, the caller's flags. */
  function DecryptOp(blob: seq<byte>, algId: string, flags: uint32): Operation {
    Decrypt(blob, OaepPaddingInfo(algId, "", 0), flags)
  }

  /** The two-phase protocol whose result is cut at the length the fill reported. */
  function Truncated(x: Run<Fetched>): Run<seq<byte>>
    requires x.result.Ok? ==> x.result.value.reported <= |x.result.value.buffer|
  {
    match x.result
    case Err(e) => Run(Err(e), x.calls)
    case Ok(f) => Run(Ok(f.buffer[..f.reported]), x.calls)
  }

  /** The buffer is non-empty, so its first byte has an address. */
  predicate TwoPhaseSafe(respond: Call -> Reply, target: Handle, op: Operation) {
    ProbeAtLeast(respond, target, op, 1)
  }

  /** Also, the reported length fits the buffer, so slicing at it is in range. */
  predicate TruncateSafe(respond: Call -> Reply, target: Handle, op: Operation) {
    ProbeAtLeast(respond, target, op, 1) && FillFits(respond, target, op)
  }

  function SignRun(respond: Call -> Reply, key: Key, digest: seq<byte>, h: Hash): Run<seq<byte>>
    requires SignSafe(respond, key, digest, h)
  {
    match AlgId(h)
    case None => Run(Err(UnsupportedHash(h)), [])
    case Some(alg) => Truncated(Exchange(respond, key.handle, SignOp(key, digest, alg)))
  }

  /** The digest is non-empty (its first byte is addressed) and the signing
      call allows the buffer handling, whenever a signing call is made. */
  predicate SignSafe(respond: Call -> Reply, key: Key, digest: seq<byte>, h: Hash) {
    AlgId(h).Some? ==> |digest| > 0 && TruncateSafe(respond, key.handle, SignOp(key, digest, AlgId(h).value))
  }

  function DecryptRun(respond: Call -> Reply, key: Key, blob: seq<byte>, opts: DecrypterOptions): Run<seq<byte>>
    requires DecryptSafe(respond, key, blob, opts)
  {
    if opts.ForeignDecrypterOpts? then Run(Err(NotDecrypterOpts), [])
    else
      match AlgId(opts.hashfunc)
      case None => Run(Err(UnsupportedHash(opts.hashfunc)), [])
      case Some(alg) => Truncated(Exchange(respond, key.handle, DecryptOp(blob, alg, opts.flags)))
  }

  predicate DecryptSafe(respond: Call -> Reply, key: Key, blob: seq<byte>, opts: DecrypterOptions) {
    opts.DecrypterOpts? && AlgId(opts.hashfunc).Some? ==>
      |blob| > 0 && TruncateSafe(respond, key.handle, DecryptOp(blob, AlgId(opts.hashfunc).value, opts.flags))
  }

  /** rsaSign, ecdsaSign and rsaDecrypt share this shape: probe, allocate,
      fill, return the buffer up to the reported length. */
  method TwoPhaseTruncated(p: Provider, kh: Handle, op: Operation) returns (r: Result<seq<byte>>)
    requires TruncateSafe(p.respond, kh, op)
    modifies p
    ensures r == Truncated(Exchange(p.respond, kh, op)).result
    ensures p.log == old(p.log) + Exchange(p.respond, kh, op).calls
  {
    var fetched := TwoPhase(p, kh, op);
    match fetched
    case Err(e) => r := Err(e);
    case Ok(f) => r := Ok(f.buffer[..f.reported]);
  }

  /** RsaKey.Sign and EcdsaKey.Sign: look the hash up, then sign through the
      key's own call. ecdsaSign takes the algorithm identifier but does not
      pass it to the provider. */
  method Sign(p: Provider, key: Key, digest: seq<byte>, h: Hash) returns (r: Result<seq<byte>>)
    requires SignSafe(p.respond, key, digest, h)
    modifies p
    ensures r == SignRun(p.respond, key, digest, h).result
    ensures p.log == old(p.log) + SignRun(p.respond, key, digest, h).calls
  {
    var alg := AlgId(h);
    if alg.None? {
      return Err(UnsupportedHash(h));
    }
    r := TwoPhaseTruncated(p, key.handle, SignOp(key, digest, alg.value));
  }

  /** RsaKey.Decrypt: only this package's options are accepted, and only a
      supported hash; the caller's flags go to the provider unchanged. */
  method DecryptWith(p: Provider, key: Key, blob: seq<byte>, opts: DecrypterOptions) returns (r: Result<seq<byte>>)
    requires key.RsaKey?
    requires DecryptSafe(p.respond, key, blob, opts)
    modifies p
    ensures r == DecryptRun(p.respond, key, blob, opts).result
    ensures p.log == old(p.log) + DecryptRun(p.respond, key, blob, opts).calls
  {
    if opts.ForeignDecrypterOpts? {
      return Err(NotDecrypterOpts);
    }
    var alg := AlgId(opts.hashfunc);
    if alg.None? {
      return Err(UnsupportedHash(opts.hashfunc));
    }
    r := TwoPhaseTruncated(p, key.handle, DecryptOp(blob, alg.value, opts.flags));
  }

  /** An unsupported hash is an error before any provider call. */
  lemma SignRejectsHash(respond: Call -> Reply, key: Key, digest: seq<byte>, h: Hash)
    requires SignSafe(respond, key, digest, h)
    ensures SignRun(respond, key, digest, h).calls == [] <==> h !in SupportedHashes
    ensures h !in SupportedHashes ==> SignRun(respond, key, digest, h).result == Err(UnsupportedHash(h))
  {
  }

  /** The calls a signature makes: first the size probe, then (if it
      succeeded) the fill at the probed size, both with the key's padding and
      flags and the caller's digest. */
  lemma SignCalls(respond: Call -> Reply, key: Key, digest: seq<byte>, h: Hash)
    requires SignSafe(respond, key, digest, h) && h in SupportedHashes
    ensures var calls := SignRun(respond, key, digest, h).calls;
            var alg := AlgId(h).value;
            && 1 <= |calls| <= 2
            && (forall i :: 0 <= i < |calls| ==>
                  (&& calls[i].target == key.handle && calls[i].op.SignHash?
                   && calls[i].op.digest == digest
                   && (key.RsaKey? ==> calls[i].op.padding == Pkcs1PaddingInfo(alg) && calls[i].op.flags == 0x2)
                   && (key.EcdsaKey? ==> calls[i].op.padding == NoPaddingInfo && calls[i].op.flags == 0)))
            && calls[0].output == None
            && (|calls| == 2 ==> calls[1].output == Some(respond(calls[0]).size))
  {
    var op := SignOp(key, digest, AlgId(h).value);
    var x := Exchange(respond, key.handle, op);
    assert SignRun(respond, key, digest, h).calls == x.calls;
  }

  /** When both calls succeed, the result is the first `reported` bytes of
      what the provider wrote, zero-extended up to the probed length. */
  lemma {:induction false} TruncatedOutput(respond: Call -> Reply, kh: Handle, op: Operation)
    requires TruncateSafe(respond, kh, op)
    requires respond(ProbeCall(kh, op)).status == 0
    ensures var probe := respond(ProbeCall(kh, op));
            var fill := respond(FillCall(kh, op, probe.size));
            var r := Truncated(Exchange(respond, kh, op)).result;
            && (fill.status != 0 <==> r == Err(ProviderFailed(fill.status, Fill)))
            && (fill.status == 0 ==> r.Ok? && |r.value| == fill.size)
            && (fill.status == 0 && fill.size <= |fill.output| ==> r.value == fill.output[..fill.size])
            && (fill.status == 0 && |fill.output| < fill.size ==>
                  r.value == fill.output + Zeros(fill.size - |fill.output|))
  {
    var probe := respond(ProbeCall(kh, op));
    var fill := respond(FillCall(kh, op, probe.size));
    if fill.status == 0 {
      ExchangeBuffer(respond, kh, op);
      var buf := Exchange(respond, kh, op).result.value.buffer;
      if fill.size <= |fill.output| {
        if |fill.output| >= probe.size {
          assert buf[..fill.size] == fill.output[..fill.size];
        } else {
          assert buf[..fill.size] == fill.output[..fill.size];
        }
      } else {
        assert buf[..fill.size] == fill.output + Zeros(fill.size - |fill.output|);
      }
    }
  }

  /** Decryption forwards the caller's flags and OAEP with the named hash and an
      empty label; foreign options and unsupported hashes make no call. */
  lemma DecryptCalls(respond: Call -> Reply, key: Key, blob: seq<byte>, opts: DecrypterOptions)
    requires DecryptSafe(respond, key, blob, opts)
    ensures var x := DecryptRun(respond, key, blob, opts);
            && (opts.ForeignDecrypterOpts? ==> x == Run(Err(NotDecrypterOpts), []))
            && (opts.DecrypterOpts? && opts.hashfunc !in SupportedHashes ==>
                  x == Run(Err(UnsupportedHash(opts.hashfunc)), []))
            && (opts.DecrypterOpts? && opts.hashfunc in SupportedHashes ==>
                  1 <= |x.calls| <= 2
                  && forall i :: 0 <= i < |x.calls| ==>
                       (x.calls[i].target == key.handle
                        && x.calls[i].op == Decrypt(blob, OaepPaddingInfo(AlgId(opts.hashfunc).value, "", 0), opts.flags)))
  {
    if opts.DecrypterOpts? && opts.hashfunc in SupportedHashes {
      var x := Exchange(respond, key.handle, DecryptOp(blob, AlgId(opts.hashfunc).value, opts.flags));
      assert DecryptRun(respond, key, blob, opts).calls == x.calls;
    }
  }

  // ------------------------------------------------------------ string properties

  /** strings.Replace(s, "\x00", "", -1) on the bytes of a property value:
      every NUL byte goes, wherever it is, and the other bytes keep their order. */
  function StripNul(s: seq<byte>): (r: seq<byte>)
    ensures |r| <= |s|
    ensures forall i :: 0 <= i < |r| ==> r[i] != 0
    ensures forall b :: b != 0 ==> multiset(r)[b] == multiset(s)[b]
    ensures (forall i :: 0 <= i < |s| ==> s[i] != 0) ==> r == s
  {
    if s == [] then []
    else
      var rest := StripNul(s[1..]);
      assert s == [s[0]] + s[1..];
      if s[0] == 0 then rest else [s[0]] + rest
  }

  lemma {:induction false} StripNulAppend(a: seq<byte>, b: seq<byte>)
    ensures StripNul(a + b) == StripNul(a) + StripNul(b)
  {
    if a != [] {
      assert (a + b)[1..] == a[1..] + b;
      StripNulAppend(a[1..], b);
    } else {
      assert a + b == b;
    }
  }

  lemma StripNulIdempotent(s: seq<byte>)
    ensures StripNul(StripNul(s)) == StripNul(s)
  {
  }

  lemma {:induction false} StripNulZeros(z: seq<byte>)
    requires AllZero(z)
    ensures StripNul(z) == []
  {
    if z != [] {
      StripNulZeros(z[1..]);
    }
  }

  /** string(buf): each byte becomes one character of the string. */
  function Text(b: seq<byte>): (t: string)
    ensures |t| == |b| && forall i :: 0 <= i < |b| ==> t[i] as int == b[i]
  {
    if b == [] then [] else [b[0] as char] + Text(b[1..])
  }

  /** The text of a property as the code reads it: the whole buffer, every NUL
      byte removed. */
  function StringPropertyRun(respond: Call -> Reply, kh: Handle, op: Operation): Run<string> {
    var x := Exchange(respond, kh, op);
    match x.result
    case Err(e) => Run(Err(e), x.calls)
    case Ok(f) => Run(Ok(Text(StripNul(f.buffer))), x.calls)
  }

  method ReadStringProperty(p: Provider, kh: Handle, op: Operation) returns (r: Result<string>)
    requires TwoPhaseSafe(p.respond, kh, op)
    modifies p
    ensures r == StringPropertyRun(p.respond, kh, op).result
    ensures p.log == old(p.log) + StringPropertyRun(p.respond, kh, op).calls
  {
    var fetched := TwoPhase(p, kh, op);
    match fetched
    case Err(e) => r := Err(e);
    case Ok(f) => r := Ok(Text(StripNul(f.buffer)));
  }

  /** getKeyType: the "Algorithm Group" property. */
  method GetKeyType(p: Provider, kh: Handle) returns (r: Result<string>)
    requires TwoPhaseSafe(p.respond, kh, AlgorithmGroupProperty)
    modifies p
    ensures r == StringPropertyRun(p.respond, kh, AlgorithmGroupProperty).result
    ensures p.log == old(p.log) + StringPropertyRun(p.respond, kh, AlgorithmGroupProperty).calls
  {
    r := ReadStringProperty(p, kh, AlgorithmGroupProperty);
  }

  /** container: the "Unique Name" property. */
  method Container(p: Provider, kh: Handle) returns (r: Result<string>)
    requires TwoPhaseSafe(p.respond, kh, UniqueNameProperty)
    modifies p
    ensures r == StringPropertyRun(p.respond, kh, UniqueNameProperty).result
    ensures p.log == old(p.log) + StringPropertyRun(p.respond, kh, UniqueNameProperty).calls
  {
    r := ReadStringProperty(p, kh, UniqueNameProperty);
  }

  /** A NUL-free Latin-1 string as the provider stores it: UTF-16LE, two bytes
      per character, the high byte zero. */
  ghost predicate Latin1(s: string) {
    forall i :: 0 <= i < |s| ==> 0 < s[i] as int < 256
  }

  function Utf16Le(s: string): (w: seq<byte>)
    requires Latin1(s)
    ensures |w| == 2 * |s|
  {
    if s == [] then [] else [s[0] as int, 0] + Utf16Le(s[1..])
  }

  lemma {:induction false} Utf16LeStripped(s: string)
    requires Latin1(s)
    ensures Text(StripNul(Utf16Le(s))) == s
  {
    if s != [] {
      StripNulAppend([s[0] as int, 0], Utf16Le(s[1..]));
      assert StripNul([s[0] as int, 0]) == [s[0] as int] by {
        assert [s[0] as int, 0][1..] == [0];
        assert [0 as byte][1..] == [];
      }
      Utf16LeStripped(s[1..]);
      assert Text([s[0] as int] + StripNul(Utf16Le(s[1..]))) == [s[0]] + Text(StripNul(Utf16Le(s[1..])));
      assert s == [s[0]] + s[1..];
    }
  }

  /** A provider that writes the name in UTF-16LE with its terminator, into
      a buffer at least that long, yields the name: the terminator and the
      zeroed rest of the buffer disappear with the NUL bytes. */
  lemma WideNameRecovered(respond: Call -> Reply, kh: Handle, op: Operation, name: string)
    requires Latin1(name)
    requires var probe := respond(ProbeCall(kh, op));
             var fill := respond(FillCall(kh, op, probe.size));
             && probe.status == 0 && fill.status == 0
             && fill.output == Utf16Le(name) + [0, 0] && |fill.output| <= probe.size
    ensures StringPropertyRun(respond, kh, op).result == Ok(name)
  {
    var probe := respond(ProbeCall(kh, op));
    var fill := respond(FillCall(kh, op, probe.size));
    ExchangeBuffer(respond, kh, op);
    var pad := Zeros(probe.size - |fill.output|);
    var buf := Exchange(respond, kh, op).result.value.buffer;
    assert buf == Utf16Le(name) + ([0, 0] + pad);
    StripNulAppend(Utf16Le(name), [0, 0] + pad);
    StripNulZeros([0, 0] + pad);
    assert StripNul(buf) == StripNul(Utf16Le(name));
    Utf16LeStripped(name);
  }

  // ------------------------------------------------------------ metadata

  /** The container attribute: the unique name, under the ProgramData key
      directory for the software provider, as it is for any other provider. */
  function KeyLocation(provName: string, programData: string, uniqueName: string): (path: string)
    ensures |path| >= |uniqueName| && path[|path| - |uniqueName|..] == uniqueName
    ensures provName != ProviderMSSoftware ==> path == uniqueName
    ensures provName == ProviderMSSoftware ==>
              && |path| == |programData| + |KeysDirectory| + |uniqueName|
              && path[..|programData|] == programData
              && path[|programData|..|programData| + |KeysDirectory|] == KeysDirectory
  {
    if provName == ProviderMSSoftware then programData + KeysDirectory + uniqueName else uniqueName
  }

  /** exportRSA: the RSAPUBLICBLOB export, decoded from the whole buffer. */
  function ExportRsaRun(respond: Call -> Reply, kh: Handle): Run<RsaPublicKey> {
    var x := Exchange(respond, kh, RsaPublicBlob);
    match x.result
    case Err(e) => Run(Err(e), x.calls)
    case Ok(f) => Run(DecodeRsaBlob(f.buffer), x.calls)
  }

  /** exportEcdsa: the ECCPUBLICBLOB export, then the point and the curve. */
  function ExportEcdsaRun(respond: Call -> Reply, kh: Handle): Run<EcdsaPublicKey>
    requires ExportEcdsaSafe(respond, kh)
  {
    var x := Exchange(respond, kh, EccPublicBlob);
    match x.result
    case Err(e) => Run(Err(e), x.calls)
    case Ok(f) =>
      var k := EcdsaFromBlob(respond, f.buffer, kh);
      Run(k.result, x.calls + k.calls)
  }

  predicate ExportEcdsaSafe(respond: Call -> Reply, kh: Handle) {
    && TwoPhaseSafe(respond, kh, EccPublicBlob)
    && var x := Exchange(respond, kh, EccPublicBlob);
       x.result.Ok? && DecodeEccPoint(x.result.value.buffer).Ok? ==> CurveSafe(respond, kh)
  }

  method ExportRsa(p: Provider, kh: Handle) returns (r: Result<RsaPublicKey>)
    requires TwoPhaseSafe(p.respond, kh, RsaPublicBlob)
    modifies p
    ensures r == ExportRsaRun(p.respond, kh).result
    ensures p.log == old(p.log) + ExportRsaRun(p.respond, kh).calls
  {
    var fetched := TwoPhase(p, kh, RsaPublicBlob);
    match fetched
    case Err(e) => r := Err(e);
    case Ok(f) => r := UnmarshalRsa(f.buffer);
  }

  method ExportEcdsa(p: Provider, kh: Handle) returns (r: Result<EcdsaPublicKey>)
    requires ExportEcdsaSafe(p.respond, kh)
    modifies p
    ensures r == ExportEcdsaRun(p.respond, kh).result
    ensures p.log == old(p.log) + ExportEcdsaRun(p.respond, kh).calls
  {
    var fetched := TwoPhase(p, kh, EccPublicBlob);
    match fetched
    case Err(e) => r := Err(e);
    case Ok(f) =>
      r := UnmarshalEcdsa(p, f.buffer, kh);
      AppendAssoc(old(p.log), Exchange(p.respond, kh, EccPublicBlob).calls, EcdsaFromBlob(p.respond, f.buffer, kh).calls);
  }

  /** Which public key a metadata read exports. */
  datatype Kind = RsaKind | EcdsaKind

  /** The calls of rsaKeyMetadata or ecdsaKeyMetadata are safe: the unique
      name probe and, once it succeeded, the export. */
  predicate MetadataSafe(respond: Call -> Reply, kh: Handle, kind: Kind) {
    && TwoPhaseSafe(respond, kh, UniqueNameProperty)
    && (StringPropertyRun(respond, kh, UniqueNameProperty).result.Ok? ==>
          match kind
          case RsaKind => TwoPhaseSafe(respond, kh, RsaPublicBlob)
          case EcdsaKind => ExportEcdsaSafe(respond, kh))
  }

  /** rsaKeyMetadata: the container location (from the unique name), then
      the RSA public key. */
  function RsaMetadata(respond: Call -> Reply, kh: Handle, w: WinCertStore, programData: string): Run<Key> {
    var uc := StringPropertyRun(respond, kh, UniqueNameProperty);
    match uc.result
    case Err(e) => Run(Err(e), uc.calls)
    case Ok(name) =>
      var pub := ExportRsaRun(respond, kh);
      Run(if pub.result.Ok? then Ok(RsaKey(kh, pub.result.value, KeyLocation(w.provName, programData, name)))
          else Err(pub.result.error),
          uc.calls + pub.calls)
  }

  /** ecdsaKeyMetadata: the same, with the ECDSA public key. */
  function EcdsaMetadata(respond: Call -> Reply, kh: Handle, w: WinCertStore, programData: string): Run<Key>
    requires MetadataSafe(respond, kh, EcdsaKind)
  {
    var uc := StringPropertyRun(respond, kh, UniqueNameProperty);
    match uc.result
    case Err(e) => Run(Err(e), uc.calls)
    case Ok(name) =>
      var pub := ExportEcdsaRun(respond, kh);
      Run(if pub.result.Ok? then Ok(EcdsaKey(kh, pub.result.value, KeyLocation(w.provName, programData, name)))
          else Err(pub.result.error),
          uc.calls + pub.calls)
  }

  function Metadata(respond: Call -> Reply, kh: Handle, w: WinCertStore, programData: string, kind: Kind): Run<Key>
    requires MetadataSafe(respond, kh, kind)
  {
    match kind
    case RsaKind => RsaMetadata(respond, kh, w, programData)
    case EcdsaKind => EcdsaMetadata(respond, kh, w, programData)
  }

  method RsaKeyMetadata(p: Provider, kh: Handle, w: WinCertStore, programData: string) returns (r: Result<Key>)
    requires MetadataSafe(p.respond, kh, RsaKind)
    modifies p
    ensures r == RsaMetadata(p.respond, kh, w, programData).result
    ensures p.log == old(p.log) + RsaMetadata(p.respond, kh, w, programData).calls
  {
    ghost var log0 := p.log;
    var uc := Container(p, kh);
    if uc.Err? {
      return Err(uc.error);
    }
    var location := KeyLocation(w.provName, programData, uc.value);
    var pub := ExportRsa(p, kh);
    AppendAssoc(log0, StringPropertyRun(p.respond, kh, UniqueNameProperty).calls, ExportRsaRun(p.respond, kh).calls);
    r := if pub.Ok? then Ok(RsaKey(kh, pub.value, location)) else Err(pub.error);
  }

  method EcdsaKeyMetadata(p: Provider, kh: Handle, w: WinCertStore, programData: string) returns (r: Result<Key>)
    requires MetadataSafe(p.respond, kh, EcdsaKind)
    modifies p
    ensures r == EcdsaMetadata(p.respond, kh, w, programData).result
    ensures p.log == old(p.log) + EcdsaMetadata(p.respond, kh, w, programData).calls
  {
    ghost var log0 := p.log;
    var uc := Container(p, kh);
    if uc.Err? {
      return Err(uc.error);
    }
    var location := KeyLocation(w.provName, programData, uc.value);
    var pub := ExportEcdsa(p, kh);
    AppendAssoc(log0, StringPropertyRun(p.respond, kh, UniqueNameProperty).calls, ExportEcdsaRun(p.respond, kh).calls);
    r := if pub.Ok? then Ok(EcdsaKey(kh, pub.value, location)) else Err(pub.error);
  }

  /** Metadata yields a key of the kind asked for, on the handle it was read
      from, located under the unique name. */
  lemma MetadataKey(respond: Call -> Reply, kh: Handle, w: WinCertStore, programData: string, kind: Kind)
    requires MetadataSafe(respond, kh, kind)
    requires Metadata(respond, kh, w, programData, kind).result.Ok?
    ensures var k := Metadata(respond, kh, w, programData, kind).result.value;
            var name := StringPropertyRun(respond, kh, UniqueNameProperty).result;
            && k.handle == kh && name.Ok?
            && k.container == KeyLocation(w.provName, programData, name.value)
            && (kind == RsaKind <==> k.RsaKey?)
            && (k.RsaKey? ==> ExportRsaRun(respond, kh).result == Ok(k.rsaPub))
            && (k.EcdsaKey? ==> ExportEcdsaRun(respond, kh).result == Ok(k.ecdsaPub))
  {
  }

  // ------------------------------------------------------------ opening a key

  function OpenCall(w: WinCertStore): Call {
    Call(w.prov, OpenKey(w.container, MachineKeyFlag), None)
  }

  /** The algorithm group selects the metadata read: "RSA" and "ECDSA" keys
      are supported, any other group is an error without further calls. */
  function KindOf(group: string): Option<Kind> {
    if group == "RSA" then Some(RsaKind)
    else if group == "ECDSA" then Some(EcdsaKind)
    else None
  }

  /** Every call Key makes keeps to the buffer rules. */
  predicate KeySafe(respond: Call -> Reply, w: WinCertStore) {
    var openReply := respond(OpenCall(w));
    openReply.status == 0 ==>
      var kh := openReply.handle;
      && TwoPhaseSafe(respond, kh, AlgorithmGroupProperty)
      && var t := StringPropertyRun(respond, kh, AlgorithmGroupProperty);
         t.result.Ok? && KindOf(t.result.value).Some? ==> MetadataSafe(respond, kh, KindOf(t.result.value).value)
  }

  /** WinCertStore.Key: open the container as a machine key, ask its algorithm
      group, and read the metadata of the matching key kind. */
  function KeyRun(respond: Call -> Reply, w: WinCertStore, programData: string): Run<Key>
    requires KeySafe(respond, w)
  {
    var openReply := respond(OpenCall(w));
    if openReply.status != 0 then Run(Err(KeyOpenFailed(openReply.status)), [OpenCall(w)])
    else
      var kh := openReply.handle;
      var t := StringPropertyRun(respond, kh, AlgorithmGroupProperty);
      match t.result
      case Err(e) => Run(Err(e), [OpenCall(w)] + t.calls)
      case Ok(group) =>
        match KindOf(group)
        case None => Run(Err(UnsupportedKeyAlgorithm(group)), [OpenCall(w)] + t.calls)
        case Some(kind) =>
          var m := Metadata(respond, kh, w, programData, kind);
          Run(m.result, [OpenCall(w)] + t.calls + m.calls)
  }

  method OpenStoreKey(p: Provider, w: WinCertStore, programData: string) returns (r: Result<Key>)
    requires KeySafe(p.respond, w)
    modifies p
    ensures r == KeyRun(p.respond, w, programData).result
    ensures p.log == old(p.log) + KeyRun(p.respond, w, programData).calls
  {
    ghost var log0 := p.log;
    var openReply := p.Invoke(OpenCall(w));
    if openReply.status != 0 {
      return Err(KeyOpenFailed(openReply.status));
    }
    var kh := openReply.handle;
    var group := GetKeyType(p, kh);
    ghost var t := StringPropertyRun(p.respond, kh, AlgorithmGroupProperty).calls;
    AppendAssoc(log0, [OpenCall(w)], t);
    if group.Err? {
      return Err(group.error);
    }
    var kind := KindOf(group.value);
    if kind.None? {
      return Err(UnsupportedKeyAlgorithm(group.value));
    }
    if kind.value == RsaKind {
      r := RsaKeyMetadata(p, kh, w, programData);
    } else {
      r := EcdsaKeyMetadata(p, kh, w, programData);
    }
    AppendAssoc(log0, [OpenCall(w)] + t, Metadata(p.respond, kh, w, programData, kind.value).calls);
  }

  /** A key that opens is of the kind its algorithm group names, on the
      handle NCryptOpenKey returned for the store's container. */
  lemma OpenedKeyMatchesGroup(respond: Call -> Reply, w: WinCertStore, programData: string)
    requires KeySafe(respond, w)
    ensures var openReply := respond(OpenCall(w));
            var r := KeyRun(respond, w, programData).result;
            r.Ok? ==>
              && openReply.status == 0 && r.value.handle == openReply.handle
              && var t := StringPropertyRun(respond, openReply.handle, AlgorithmGroupProperty).result;
                 t.Ok? && (r.value.RsaKey? <==> t.value == "RSA") && (r.value.EcdsaKey? <==> t.value == "ECDSA")
  {
    var openReply := respond(OpenCall(w));
    if openReply.status == 0 {
      var t := StringPropertyRun(respond, openReply.handle, AlgorithmGroupProperty).result;
      if t.Ok? && KindOf(t.value).Some? {
        var kind := KindOf(t.value).value;
        if Metadata(respond, openReply.handle, w, programData, kind).result.Ok? {
          MetadataKey(respond, openReply.handle, w, programData, kind);
        }
      }
    }
  }

  /** A group other than "RSA" and "ECDSA" is rejected as unsupported. */
  lemma OpenUnsupportedGroup(respond: Call -> Reply, w: WinCertStore, programData: string)
    requires KeySafe(respond, w)
    requires respond(OpenCall(w)).status == 0
    requires var t := StringPropertyRun(respond, respond(OpenCall(w)).handle, AlgorithmGroupProperty).result;
             t.Ok? && t.value != "RSA" && t.value != "ECDSA"
    ensures var t := StringPropertyRun(respond, respond(OpenCall(w)).handle, AlgorithmGroupProperty);
            KeyRun(respond, w, programData) == Run(Err(UnsupportedKeyAlgorithm(t.result.value)), [OpenCall(w)] + t.calls)
  {
  }

  // ------------------------------------------------------------ generating a key

  /** uint32(keySize): Go's conversion keeps the low 32 bits. */
  function Uint32Of(n: int): (u: uint32)
    ensures 0 <= n < 0x1_0000_0000 ==> u == n
    ensures n < 0 && n >= -0x1_0000_0000 ==> u == n + 0x1_0000_0000
  {
    n % 0x1_0000_0000
  }

  function CreateCall(w: WinCertStore): Call {
    Call(w.prov, CreatePersistedKey("RSA", w.container, MachineKeyFlag + OverwriteKeyFlag), None)
  }

  function LengthCall(kh: Handle, keySize: int): Call {
    Call(kh, SetProperty("Length", Uint32Of(keySize), PersistFlag), None)
  }

  function UsageCall(kh: Handle): Call {
    Call(kh, SetProperty("Key Usage", AllowDecryptFlag + AllowSigningFlag, PersistFlag), None)
  }

  function FinalizeCall(kh: Handle): Call {
    Call(kh, FinalizeKey(0), None)
  }

  /** The creation part of Generate: create the persisted RSA key, set its
      length and usage, finalize it; the first failing call ends it. */
  function CreateRun(respond: Call -> Reply, w: WinCertStore, keySize: int): (x: Run<Handle>)
    ensures x.result.Ok? ==> x.calls == [CreateCall(w), LengthCall(x.result.value, keySize),
                                         UsageCall(x.result.value), FinalizeCall(x.result.value)]
    ensures 1 <= |x.calls| <= 4 && x.calls[0] == CreateCall(w)
    ensures var kh := respond(CreateCall(w)).handle;
            x.result.Ok? <==>
              && respond(CreateCall(w)).status == 0 && respond(LengthCall(kh, keySize)).status == 0
              && respond(UsageCall(kh)).status == 0 && respond(FinalizeCall(kh)).status == 0
    ensures x.result.Ok? ==> x.result.value == respond(CreateCall(w)).handle
    ensures respond(CreateCall(w)).status != 0 ==>
      x == Run(Err(KeyCreateFailed(respond(CreateCall(w)).status)), [CreateCall(w)])
    ensures var kh := respond(CreateCall(w)).handle;
            respond(CreateCall(w)).status == 0 ==>
              && (respond(LengthCall(kh, keySize)).status != 0 ==>
                    x.result == Err(SetPropertyFailed("Length", respond(LengthCall(kh, keySize)).status)))
              && (respond(LengthCall(kh, keySize)).status == 0 && respond(UsageCall(kh)).status != 0 ==>
                    x.result == Err(SetPropertyFailed("Key Usage", respond(UsageCall(kh)).status)))
              && (respond(LengthCall(kh, keySize)).status == 0 && respond(UsageCall(kh)).status == 0
                  && respond(FinalizeCall(kh)).status != 0 ==>
                    x.result == Err(FinalizeFailed(respond(FinalizeCall(kh)).status)))
  {
    var created := respond(CreateCall(w));
    if created.status != 0 then Run(Err(KeyCreateFailed(created.status)), [CreateCall(w)])
    else
      var kh := created.handle;
      var length := respond(LengthCall(kh, keySize));
      if length.status != 0 then Run(Err(SetPropertyFailed("Length", length.status)), [CreateCall(w), LengthCall(kh, keySize)])
      else
        var usage := respond(UsageCall(kh));
        if usage.status != 0 then
          Run(Err(SetPropertyFailed("Key Usage", usage.status)), [CreateCall(w), LengthCall(kh, keySize), UsageCall(kh)])
        else
          var fin := respond(FinalizeCall(kh));
          var calls := [CreateCall(w), LengthCall(kh, keySize), UsageCall(kh), FinalizeCall(kh)];
          if fin.status != 0 then Run(Err(FinalizeFailed(fin.status)), calls)
          else Run(Ok(kh), calls)
  }

  /** Every call Generate makes keeps to the buffer rules. */
  predicate GenerateSafe(respond: Call -> Reply, w: WinCertStore, keySize: int) {
    var c := CreateRun(respond, w, keySize);
    keySize <= MaxKeySize && c.result.Ok? ==>
      var kh := c.result.value;
      && TwoPhaseSafe(respond, kh, AlgorithmGroupProperty)
      && var t := StringPropertyRun(respond, kh, AlgorithmGroupProperty);
         t.result.Ok? && t.result.value == "RSA" ==> MetadataSafe(respond, kh, RsaKind)
  }

  /** WinCertStore.Generate: a size bound, the creation calls, then the key
      type; only an RSA key is returned. */
  function GenerateRun(respond: Call -> Reply, w: WinCertStore, programData: string, keySize: int): Run<Key>
    requires GenerateSafe(respond, w, keySize)
  {
    if keySize > MaxKeySize then Run(Err(UnsupportedKeySize(keySize)), [])
    else
      var c := CreateRun(respond, w, keySize);
      match c.result
      case Err(e) => Run(Err(e), c.calls)
      case Ok(kh) =>
        var t := StringPropertyRun(respond, kh, AlgorithmGroupProperty);
        match t.result
        case Err(e) => Run(Err(e), c.calls + t.calls)
        case Ok(group) =>
          if group != "RSA" then Run(Err(UnsupportedKeyAlgorithm(group)), c.calls + t.calls)
          else
            var m := Metadata(respond, kh, w, programData, RsaKind);
            Run(m.result, c.calls + t.calls + m.calls)
  }

  method CreateKey(p: Provider, w: WinCertStore, keySize: int) returns (r: Result<Handle>)
    modifies p
    ensures r == CreateRun(p.respond, w, keySize).result
    ensures p.log == old(p.log) + CreateRun(p.respond, w, keySize).calls
  {
    var created := p.Invoke(CreateCall(w));
    if created.status != 0 {
      return Err(KeyCreateFailed(created.status));
    }
    var kh := created.handle;
    var length := p.Invoke(LengthCall(kh, keySize));
    if length.status != 0 {
      return Err(SetPropertyFailed("Length", length.status));
    }
    var usage := p.Invoke(UsageCall(kh));
    if usage.status != 0 {
      return Err(SetPropertyFailed("Key Usage", usage.status));
    }
    var fin := p.Invoke(FinalizeCall(kh));
    if fin.status != 0 {
      return Err(FinalizeFailed(fin.status));
    }
    r := Ok(kh);
  }

  method Generate(p: Provider, w: WinCertStore, programData: string, keySize: int) returns (r: Result<Key>)
    requires GenerateSafe(p.respond, w, keySize)
    modifies p
    ensures r == GenerateRun(p.respond, w, programData, keySize).result
    ensures p.log == old(p.log) + GenerateRun(p.respond, w, programData, keySize).calls
  {
    if keySize > MaxKeySize {
      return Err(UnsupportedKeySize(keySize));
    }
    ghost var log0 := p.log;
    var kh := CreateKey(p, w, keySize);
    if kh.Err? {
      return Err(kh.error);
    }
    var group := GetKeyType(p, kh.value);
    ghost var c := CreateRun(p.respond, w, keySize).calls;
    ghost var t := StringPropertyRun(p.respond, kh.value, AlgorithmGroupProperty).calls;
    AppendAssoc(log0, c, t);
    if group.Err? {
      return Err(group.error);
    }
    if group.value != "RSA" {
      return Err(UnsupportedKeyAlgorithm(group.value));
    }
    r := RsaKeyMetadata(p, kh.value, w, programData);
    AppendAssoc(log0, c + t, RsaMetadata(p.respond, kh.value, w, programData).calls);
  }

  /** Sizes above 16384 are refused before any provider call; 16384 itself
      and every smaller size (negative ones included) reach NCryptCreatePersistedKey. */
  lemma GenerateSizeBound(respond: Call -> Reply, w: WinCertStore, programData: string, keySize: int)
    requires GenerateSafe(respond, w, keySize)
    ensures var x := GenerateRun(respond, w, programData, keySize);
            && (keySize > 16384 <==> x.calls == [])
            && (keySize > 16384 ==> x.result == Err(UnsupportedKeySize(keySize)))
            && (keySize <= 16384 ==> x.calls[0] == CreateCall(w))
  {
  }

  /** The length property carries the key size, except that a negative size
      wraps to a large unsigned value. */
  lemma GenerateLength(w: WinCertStore, kh: Handle, keySize: int)
    requires keySize <= MaxKeySize
    ensures 0 <= keySize ==> LengthCall(kh, keySize).op.value == keySize
    ensures -0x8000_0000 <= keySize < 0 ==>
              LengthCall(kh, keySize).op.value == keySize + 0x1_0000_0000 && LengthCall(kh, keySize).op.value > MaxKeySize
  {
  }

  /** Generate returns only RSA keys: an "ECDSA" group, like any other
      non-RSA group, is an error. */
  lemma GenerateOnlyRsa(respond: Call -> Reply, w: WinCertStore, programData: string, keySize: int)
    requires GenerateSafe(respond, w, keySize)
    ensures var r := GenerateRun(respond, w, programData, keySize).result;
            r.Ok? ==> r.value.RsaKey?
    ensures var c := CreateRun(respond, w, keySize);
            keySize <= MaxKeySize && c.result.Ok? ==>
              var t := StringPropertyRun(respond, c.result.value, AlgorithmGroupProperty).result;
              t.Ok? && t.value != "RSA" ==> GenerateRun(respond, w, programData, keySize).result == Err(UnsupportedKeyAlgorithm(t.value))
  {
    var c := CreateRun(respond, w, keySize);
    if keySize <= MaxKeySize && c.result.Ok? {
      var kh := c.result.value;
      var t := StringPropertyRun(respond, kh, AlgorithmGroupProperty).result;
      if t.Ok? && t.value == "RSA" && Metadata(respond, kh, w, programData, RsaKind).result.Ok? {
        MetadataKey(respond, kh, w, programData, RsaKind);
      }
    }
  }
}
