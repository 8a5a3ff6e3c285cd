/** Values shared by every component: optional values, results, the error
    taxonomy, hash identifiers, certificate store scopes and the store handle. */
module Types {
  import opened Bytes

  datatype Option<T> = None | Some(value: T)

  /** Which call of a size-probe/fill pair failed. */
  datatype Phase = SizeProbe | Fill

  /** The values of Go's crypto.Hash that a caller's signer options can name. */
  datatype Hash =
    | NoHash | MD4 | MD5 | SHA1 | SHA224 | SHA256 | SHA384 | SHA512 | MD5SHA1 | RIPEMD160
    | SHA3_224 | SHA3_256 | SHA3_384 | SHA3_512 | SHA512_224 | SHA512_256
    | BLAKE2s_256 | BLAKE2b_256 | BLAKE2b_384 | BLAKE2b_512

  /** The system certificate stores the package opens. */
  datatype Scope = UserMy | MachineMy | MachineCa | MachineRoot

  datatype Error =
    // blob decoding
    | HeaderRead
    | InvalidMagic(magic: uint32)
    | UnsupportedExponentSize(expSize: uint32)
    | ExponentRead
    | ModulusRead
    | PointXRead
    | PointYRead
    | UnsupportedCurve(bits: uint32)
    // dispatch
    | UnsupportedHash(hash: Hash)
    | NotDecrypterOpts
    | ProviderFailed(status: nat, phase: Phase)
    // key handles
    | KeyOpenFailed(status: nat)
    | KeyCreateFailed(status: nat)
    | SetPropertyFailed(property: string, status: nat)
    | FinalizeFailed(status: nat)
    | UnsupportedKeySize(keySize: int)
    | UnsupportedKeyAlgorithm(group: string)
    // certificate stores
    | StoreOpenFailed(scope: Scope)
    | InvalidIssuerString
    | FindFailed(code: nat)
    | ContextCreationFailed
    | AssociationFailed
    | AddFailed(scope: Scope)
    | DeleteFailed(scope: Scope)

  datatype Result<T> = Ok(value: T) | Err(error: Error)

  /** WinCertStore: the provider handle and name, the key container name and the
      ordered issuer lists, fixed when the store is opened. */
  datatype WinCertStore = WinCertStore(
    prov: nat,
    provName: string,
    issuers: seq<string>,
    intermediateIssuers: seq<string>,
    container: string)
}
