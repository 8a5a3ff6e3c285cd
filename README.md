# certtostore (Windows) — a verified model

This project models the Windows back end of the `certtostore` package
(`certtostore_windows.go`). The package keeps a certificate and its private
key in the Windows certificate stores and the CNG key storage provider.
The model covers four parts:

- **Key blobs** (`keyblobs.dfy`). The RSA and ECC public-key blobs the
  provider exports are decoded through a `bytes.Reader`-style cursor. The
  curve is looked up from the key's "Length" property by bit length.
  Round-trip lemmas pair each decoder with an encoder. Further lemmas state
  the header checks, the short-buffer errors, the end-of-input quirk of
  `Read` and the wrap-around of the 64-bit exponent.
- **Provider dispatch** (`ncrypt.dfy`, `keys.dfy`). Every NCrypt call is a
  `Call` value. An abstract function answers each call, and a `Provider`
  object logs every call made on it. The two-phase convention (probe the
  size, then fill a buffer of that size) is defined once, as `Exchange`, and
  is used by signing, decryption, property queries and key export. Built on
  it are:
  - the hash-to-algorithm table;
  - RSA and ECDSA signing and RSA decryption, with their padding and flags;
  - NUL stripping of string properties;
  - the key-file path of the software provider;
  - `Key()`, with its algorithm-group switch;
  - `Generate`, with its key-size bound and its RSA-only result.
- **Certificate selection** (`selection.dfy`). The `cert` loop walks the
  issuer list over an enumerated store. It shares one search cursor
  between issuers, skips certificates without the digital-signature usage
  bit or that do not parse, and stops at the first qualifying certificate.
  `SelectCert` is the loop. `Walk` is its specification, with lemmas about
  precedence, resumption and the order of the searches.
- **Store lifecycle** (`lifecycle.dfy`). The four system stores (user MY,
  machine MY, machine CA, machine ROOT) are a class
  `SystemStores` whose methods `Cert`, `Intermediate`, `Root`, `Link`,
  `Remove` and `Store` are proved against pure outcome functions. The
  operating system's decisions are a `Platform` value: which stores fail to
  open (and whether `Link`'s second opening of the user store fails), issuer matching, certificate-context creation, key association,
  and which adds and deletes fail.

`bytes.dfy` holds the byte, `uint32` and big-endian arithmetic. `types.dfy`
holds the shared result, error, hash and store-handle types.

Where the documented behaviour and the code differ, the model follows the
code:

- **The search cursor is shared.** The cursor left by one issuer's search is
  where the next issuer's search starts. A qualifying certificate of a later
  issuer that sits before that point is never found. See
  `Selection.SharedCursorMissesLaterIssuer`: with issuers `[A, B]`, where
  only B's certificate qualifies, the result is "none".
- **Each issuer is searched once.** An issuer whose first match does not
  qualify contributes nothing, even when a later certificate of the same
  issuer would (`Selection.FirstMatchOnly`).
- **`remove` deletes one certificate.** For each issuer it deletes only the
  first matching certificate per store. A second certificate of the same
  issuer survives (`Lifecycle.RemoveLeavesSecondCertificate`).
- **`Remove` succeeds when nothing matches.** The comment on `Remove` says it
  returns an error when it cannot remove any certificate. The code treats a
  search that finds nothing as success, and skips the delete
  (`Lifecycle.RemoveFromOutcomes`).
- **A repeated `Link` can add the certificate again.** `Link` compares the
  machine certificate's serial number only with the user store's
  selection, which is its first qualifying match, not with every
  certificate the user store holds. If user MY holds an earlier qualifying
  certificate of the same issuer with another serial number, every `Link`
  appends the machine certificate once more
  (`Lifecycle.LinkRepeatsBehindEarlierUserCertificate`).
- **Adds append.** `CERT_STORE_ADD_ALWAYS` appends to the store and does not
  replace an existing certificate.
- **`Intermediate` reads user MY.** `Store` puts intermediates into machine
  CA, but `Intermediate` looks them up in the user MY store
  (`Lifecycle.StoredIntermediateNotLookedUp`).
- **A negative key size passes the bound.** `Generate` checks only
  `keySize > 16384`. A negative size passes that check and is converted to
  a `uint32` above the bound (`Keys.GenerateLength`).

## Model

| member | source | states |
|---|---|---|
| Bytes.GoInt64 | certtostore_windows.go:1097 | converting the 64-bit unsigned exponent to Go's `int` gives a value in [-2^63, 2^63) congruent to it modulo 2^64, non-negative exactly when the exponent is below 2^63 |
| Bytes.GoInt64Unique | certtostore_windows.go:1097 | any value in [-2^63, 2^63) congruent to the exponent modulo 2^64 is the converted value, so the conversion is the two's complement wrap |
| Ncrypt.Provider.InvokeInto | certtostore_windows.go:555-564 | a fill call is logged, and the output buffer afterwards holds the provider's bytes up to its length, with the rest of the buffer unchanged |
| Ncrypt.Exchange | certtostore_windows.go:537-569 | one or two calls: the size probe first; a second call exactly when the probe succeeded, as a fill with capacity equal to the probed size; a failed probe is the error `ProviderFailed(status, SizeProbe)`, a failed fill `ProviderFailed(status, Fill)`; when both succeed the result is a buffer of the probed length carrying the fill's reported size |
| Ncrypt.ExchangeBuffer | certtostore_windows.go:555-569 | the fetched buffer is the provider's output cut to the probed length, or that output followed by zeros when it is shorter |
| Ncrypt.TwoPhase | certtostore_windows.go:537-569 | the size-probe/fill protocol returns the result of `Exchange` and logs exactly its calls |
| KeyBlobs.Reader.Read | certtostore_windows.go:1086-1093 | `bytes.Reader.Read`: end of input is reported whenever no bytes remain, even for an empty destination; otherwise it copies as many bytes as fit and advances the cursor by that many |
| KeyBlobs.Reader.ReadFull | certtostore_windows.go:1073-1075 | `binary.Read` of a fixed-size header succeeds exactly when enough bytes remain, and then yields those bytes |
| KeyBlobs.ReadExact | certtostore_windows.go:1085-1093 | a read into a buffer tail succeeds exactly when the remaining bytes fill it and the read is not at end of input with nothing to read |
| KeyBlobs.UnmarshalRsa | certtostore_windows.go:1061-1100 | the cursor-based decoder returns exactly the result of the blob layout `DecodeRsaBlob` |
| KeyBlobs.RsaHeaderRejected | certtostore_windows.go:1072-1083 | a buffer shorter than the 24-byte header, a magic other than RSA1, or an exponent size above 8 is rejected with its own error, whatever follows the header |
| KeyBlobs.RsaShortBody | certtostore_windows.go:1085-1093 | after an accepted header, decoding succeeds exactly when the exponent and the modulus can both be read; otherwise it fails with the error of the first one that cannot |
| KeyBlobs.RsaBlobRoundTrip | certtostore_windows.go:1061-1100 | encoding a modulus and an exponent below 2^63 at the declared sizes and decoding the blob gives them back, whatever trails the blob |
| KeyBlobs.RsaLayout | certtostore_windows.go:1085-1099 | for any exponent and modulus bytes at the declared sizes, the key is the big-endian modulus and the right-aligned exponent; bit length and prime sizes play no part |
| KeyBlobs.RsaTrailingIgnored | certtostore_windows.go:1090-1099 | bytes after a decodable blob do not change the decoded key |
| KeyBlobs.RsaEmptyModulusAtEnd | certtostore_windows.go:1086-1093 | a declared size of zero at the very end of the buffer fails, as the reader reports end of input |
| KeyBlobs.ExponentValue | certtostore_windows.go:1085-1097 | an exponent below 2^63 is its big-endian value after right-alignment into eight zero bytes |
| KeyBlobs.RsaExponentWraps | certtostore_windows.go:1097 | an eight-byte exponent with its top bit set comes out negative |
| KeyBlobs.ReadEccPoint | certtostore_windows.go:906-939 | the cursor-based read of the ECC header, X and Y returns exactly the decoded point `DecodeEccPoint` |
| KeyBlobs.EccBlobRoundTrip | certtostore_windows.go:913-939 | a P-256-magic blob with X and Y at the key length decodes to that X and Y, whatever trails it |
| KeyBlobs.EccOnlyP256Magic | certtostore_windows.go:918-920 | any magic other than the P-256 ECC magic is rejected, naming the magic |
| KeyBlobs.EccEmptyKeyAtEnd | certtostore_windows.go:922-927 | a key length of zero with no bytes after the header fails on reading X |
| KeyBlobs.CurveForBitsExact | certtostore_windows.go:982-992 | 256, 384 and 521 map to P-256, P-384 and P-521, each to its own curve; every other value is `UnsupportedCurve` with that value |
| KeyBlobs.CurveQuery | certtostore_windows.go:954-980 | the curve query makes exactly the two-phase calls for the "Length" property; a failed probe or fill is that phase's `ProviderFailed` error |
| KeyBlobs.CurveShortLengthFillFails | certtostore_windows.go:969-980 | a "Length" property probed at one to three bytes whose fill fails is allowed and gives the fill's error, before the four-byte read |
| KeyBlobs.GetEcdsaCurve | certtostore_windows.go:954-993 | the method returns the curve query's result and logs its calls |
| KeyBlobs.CurveFromLength | certtostore_windows.go:954-993 | when the provider reports the length as a little-endian `uint32`, the result is the curve of that bit length, an error exactly for other values |
| KeyBlobs.UnmarshalEcdsa | certtostore_windows.go:906-952 | the point is decoded first; only a decoded point leads to the curve query; the result and the calls are those of `EcdsaFromBlob` |
| KeyBlobs.EcdsaKeyOfCurve | certtostore_windows.go:941-951 | a decoded key carries the decoded X and Y and the curve of the reported bit length; an unknown bit length fails the whole key |
| Keys.AlgId | certtostore_windows.go:96-101 | exactly SHA-1, SHA-256, SHA-384 and SHA-512 have an algorithm id |
| Keys.AlgIdInjective | certtostore_windows.go:96-101 | distinct hashes never share an algorithm id |
| Keys.Sign | certtostore_windows.go:473-491 | signing returns the result of `SignRun` and logs exactly its calls |
| Keys.SignRejectsHash | certtostore_windows.go:473-491 | no provider call is made exactly when the hash has no algorithm id, and then the error names the hash |
| Keys.SignCalls | certtostore_windows.go:493-569 | one or two NCryptSignHash calls on the key's handle with the digest: PKCS#1 padding naming the algorithm and flag 0x2 for RSA, no padding and flags 0 for ECDSA; a fill only with the probed capacity |
| Keys.TwoPhaseTruncated | certtostore_windows.go:551-569 | the method returns the truncated two-phase result and logs the two-phase calls |
| Keys.TruncatedOutput | certtostore_windows.go:554-569 | after a successful probe, a failing fill is an error naming its status; otherwise the result has the fill's reported length and holds the provider's bytes, zero-extended to that length when fewer were written |
| Keys.DecryptWith | certtostore_windows.go:592-610 | RSA decryption returns the result of `DecryptRun` and logs exactly its calls |
| Keys.DecryptCalls | certtostore_windows.go:592-652 | foreign options and unknown hashes fail with no call; otherwise one or two NCryptDecrypt calls on the key's handle carry the blob, OAEP padding with the algorithm id and an empty label, and the caller's flags unchanged |
| Keys.StripNul | certtostore_windows.go:831 | no zero byte is left, every non-zero byte keeps its count, and a string without NULs is unchanged |
| Keys.StripNulAppend | certtostore_windows.go:831 | removing NULs distributes over concatenation, so NULs anywhere are removed and not only trailing ones |
| Keys.StripNulIdempotent | certtostore_windows.go:831 | stripping twice is stripping once |
| Keys.StripNulZeros | certtostore_windows.go:831 | a buffer of zeros strips to the empty string |
| Keys.ReadStringProperty | certtostore_windows.go:804-833 | a string property is the NUL-stripped two-phase result, and the calls are logged |
| Keys.GetKeyType | certtostore_windows.go:804-833 | the algorithm group is the NUL-stripped "Algorithm Group" property |
| Keys.Container | certtostore_windows.go:996-1025 | the container name is the NUL-stripped "Unique Name" property |
| Keys.Utf16LeStripped | certtostore_windows.go:1023 | a Latin-1 name in UTF-16LE comes back unchanged after NUL stripping |
| Keys.WideNameRecovered | certtostore_windows.go:996-1025 | a provider returning a Latin-1 name in UTF-16LE with its terminator yields exactly that name |
| Keys.KeyLocation | certtostore_windows.go:843-845 | the path always ends with the unique name; for the software provider it is the ProgramData value, then `\Microsoft\Crypto\Keys\`, then the name; otherwise it is the name alone |
| Keys.ExportRsa | certtostore_windows.go:1027-1059 | RSAPUBLICBLOB is exported through the two-phase protocol and decoded as an RSA blob; the calls are logged |
| Keys.ExportEcdsa | certtostore_windows.go:874-904 | ECCPUBLICBLOB is exported through the two-phase protocol and decoded as an ECC key; the calls are logged |
| Keys.RsaKeyMetadata | certtostore_windows.go:835-853 | the container name, then the RSA export; result and calls as `RsaMetadata` |
| Keys.EcdsaKeyMetadata | certtostore_windows.go:855-872 | the container name, then the ECDSA export; result and calls as `EcdsaMetadata` |
| Keys.MetadataKey | certtostore_windows.go:835-872 | a key built from metadata has the given handle, the key location of the unique name, the requested kind, and the exported public key |
| Keys.OpenStoreKey | certtostore_windows.go:689-724 | opening the machine key by container name and dispatching on its group gives `KeyRun`'s result and logs its calls |
| Keys.OpenedKeyMatchesGroup | certtostore_windows.go:701-723 | an opened key carries the handle the provider returned; it is an RSA key exactly when the group is "RSA" and an ECDSA key exactly when it is "ECDSA" |
| Keys.OpenUnsupportedGroup | certtostore_windows.go:721-723 | any other group fails with `UnsupportedKeyAlgorithm` naming it, after exactly the open and group-query calls |
| Keys.Uint32Of | certtostore_windows.go:739 | Go's `uint32(int)` conversion: values in range are kept, negative ones wrap by 2^32 |
| Keys.CreateRun | certtostore_windows.go:738-781 | a created handle took exactly four calls, in order: create, set Length, set Key Usage, finalize; every run makes at most four calls, starting with the create call; it succeeds exactly when all four statuses are zero, and then returns the handle the create call gave; otherwise the first failing step's error (`KeyCreateFailed` after the create call alone, `SetPropertyFailed` for Length or Key Usage, `FinalizeFailed`) |
| Keys.CreateKey | certtostore_windows.go:738-781 | the method returns `CreateRun`'s result and logs its calls |
| Keys.Generate | certtostore_windows.go:729-802 | generation returns `GenerateRun`'s result and logs its calls |
| Keys.GenerateSizeBound | certtostore_windows.go:734-736 | a key size above 16384 is rejected with no provider call; 16384 and below go on to create the key |
| Keys.GenerateLength | certtostore_windows.go:739 | the Length property is the key size when it is not negative; a negative size of at least -2^31 becomes a value above 16384 |
| Keys.GenerateOnlyRsa | certtostore_windows.go:783-801 | a generated key is always RSA; a group other than "RSA", "ECDSA" included, is `UnsupportedKeyAlgorithm` |
| Selection.Find | certtostore_windows.go:155-172 | the search from a position returns the first matching certificate after only non-matching ones, "not found" when none follows, or the first enumeration fault with its code |
| Selection.SelectCert | certtostore_windows.go:216-271 | the loop with `continue` and `break` returns exactly the result of `Walk` from an empty cursor |
| Selection.SelectedQualifies | certtostore_windows.go:248-265 | a selected certificate has the signature usage bit, parses, is in the store, and matches some issuer with no NUL in that or an earlier issuer |
| Selection.NoCandidateNoSelection | certtostore_windows.go:267-269 | without faults and malformed issuers, when no matching certificate qualifies the result is "none" and not an error |
| Selection.EarlierIssuersDecide | certtostore_windows.go:264-265 | once an issuer list has produced a certificate or an error, issuers appended after it change nothing |
| Selection.LaterIssuersResume | certtostore_windows.go:239-247 | after issuers that found nothing usable, later issuers search from the cursor those earlier searches left |
| Selection.SearchesInOrder | certtostore_windows.go:229-247 | the searches made are one per issuer in list order, the first from the initial cursor and each next one just after the previous one's find |
| Selection.SoleCertificateSelected | certtostore_windows.go:229-270 | a qualifying certificate alone in its store is selected when an issuer matches it |
| Selection.SharedCursorMissesLaterIssuer | certtostore_windows.go:239-247 | with issuers [A, B] over a store holding B's qualifying certificate before A's non-qualifying one, the result is "none" |
| Selection.FirstMatchOnly | certtostore_windows.go:239-250 | an issuer whose first match lacks the usage bit yields nothing, though a later certificate of that issuer qualifies |
| Lifecycle.WideName | certtostore_windows.go:135-139 | the UTF-16 string Windows reads ends at the first NUL: a NUL-free prefix, equal to the input when it has no NUL |
| Lifecycle.SystemStores.Cert | certtostore_windows.go:210-212 | `Cert` selects from machine MY with the store's issuers |
| Lifecycle.SystemStores.Intermediate | certtostore_windows.go:432-435 | `Intermediate` selects from user MY with the intermediate issuers |
| Lifecycle.SystemStores.Root | certtostore_windows.go:439-441 | `Root` selects from machine ROOT with the caller's issuers |
| Lifecycle.SystemStores.Lookup | certtostore_windows.go:216-227 | a store that fails to open is an error; otherwise the result is the selection over its contents |
| Lifecycle.SystemStores.Link | certtostore_windows.go:274-337 | result and new stores are those of `LinkOutcome` |
| Lifecycle.LinkAppendsSelection | certtostore_windows.go:274-337 | `Link` leaves the machine stores alone; it either leaves user MY unchanged or appends the selected machine certificate to it; an error changes nothing |
| Lifecycle.LinkWithoutMachineCertificate | certtostore_windows.go:275-282 | with no machine certificate selected, `Link` succeeds and changes nothing |
| Lifecycle.LinkAlreadyLinked | certtostore_windows.go:285-294 | when the user store's selection has the machine certificate's serial number, `Link` succeeds and changes nothing |
| Lifecycle.LinkAppendsWhenMissing | certtostore_windows.go:296-333 | when the user store selects nothing or a different serial number and context creation, the second user-store open and the add succeed, `Link` succeeds with exactly the machine certificate appended to user MY |
| Lifecycle.LinkFailures | certtostore_windows.go:296-331 | a failed context creation, second user-store open or add is reported as `ContextCreationFailed`, `StoreOpenFailed(UserMy)` or `AddFailed(UserMy)` and changes nothing |
| Lifecycle.LinkIgnoresAssociation | certtostore_windows.go:305-315 | whether the key association succeeds does not affect `Link` |
| Lifecycle.LinkRepeatsBehindEarlierUserCertificate | certtostore_windows.go:285-333 | with user MY holding an earlier qualifying certificate of another serial number, a first `Link` appends the machine certificate, and a second `Link` appends it again |
| Lifecycle.LinkTwiceOnEmptyUserStore | certtostore_windows.go:286-293 | after a successful link into an empty user store, a second link succeeds and changes nothing, because the user selection now has the same serial number |
| Lifecycle.SystemStores.RemoveFromStore | certtostore_windows.go:363-380 | one store's removal: result and new stores are those of `RemoveFrom` |
| Lifecycle.SystemStores.RemoveIssuer | certtostore_windows.go:351-418 | `remove`: result and new stores are those of `RemoveOutcome` |
| Lifecycle.SystemStores.Remove | certtostore_windows.go:341-348 | the loop over the issuers gives the result and new stores of `RemoveAllOutcome` |
| Lifecycle.RemoveFromOutcomes | certtostore_windows.go:351-380 | an open failure, a failed search, a miss and a failed delete each leave the stores as they were (a miss with success); a found certificate whose delete succeeds is removed from its store and nothing else changes |
| Lifecycle.RemoveFromDeletesFirstMatch | certtostore_windows.go:363-380 | the other stores are untouched, and the store is unchanged or loses exactly its first entry matching the issuer, with no usage check |
| Lifecycle.RemoveOneBounds | certtostore_windows.go:351-418 | one `remove` touches neither CA nor ROOT, touches machine MY only when asked, and takes at most one entry from each store |
| Lifecycle.DeleteShrinks | certtostore_windows.go:373-380 | a deletion leaves the other stores alone and leaves this store a sub-multiset of its entries, at most one shorter |
| Lifecycle.RemoveBounds | certtostore_windows.go:341-418 | `Remove` never touches CA or ROOT, leaves machine MY alone without `removeSystem`, and takes at most one entry per issuer from each MY store |
| Lifecycle.RemoveStopsAtFirstError | certtostore_windows.go:342-347 | the first issuer whose removal fails ends `Remove` with that failure |
| Lifecycle.RemoveLeavesSecondCertificate | certtostore_windows.go:363-380 | a user store holding two certificates of issuer A keeps the second after `Remove` for A |
| Lifecycle.SystemStores.Store | certtostore_windows.go:1103-1169 | result and new stores are those of `StoreOutcome` |
| Lifecycle.StoreAssociationAborts | certtostore_windows.go:1112-1122 | a failed key association ends `Store` before any store changes |
| Lifecycle.StoreEffect | certtostore_windows.go:1103-1169 | `Store` succeeds exactly when every step does, and then appends the leaf to machine MY and the intermediate to machine CA; a failure after the leaf was added keeps it (no rollback); user MY and ROOT are never touched |
| Lifecycle.StoreThenCert | certtostore_windows.go:1137 | after storing a qualifying leaf into an empty machine MY, `Cert` returns that leaf |
| Lifecycle.StoredIntermediateNotLookedUp | certtostore_windows.go:432-435 | `Store` never changes what `Intermediate` returns |

## Left out

- DLL loading and procedure lookup (the `MustLoadDLL`/`MustFindProc` globals), `openProvider` and `OpenWinCertStore`: the store handle is a given `WinCertStore` value.
- The NCrypt and CryptoAPI calls themselves: each is a `Call` answered by an abstract function, or a field of `Platform`. The provider answers the same call the same way every time; provider state that changes between calls is not modelled. The same holds for store opens, except that `Link`'s second opening of the user store (certtostore_windows.go:318-325) has its own oracle, `Platform.userReopenFails`, because it can fail after the first lookup in that store succeeded.
- Provider-side cryptography (PKCS#1 v1.5 signing, OAEP decryption, RSA and ECDSA arithmetic): only the calls and their arguments are modelled.
- `x509.ParseCertificate` and `CertGetIntendedKeyUsage`: a certificate carries a `parses` flag and its usage bits.
- `CERT_FIND_ISSUER_STR` matching: issuer matching is a `Matcher` parameter.
- `CertCloseStore`, `CertFreeCertificateContext` and key handles, which are never released: there is no handle lifetime in the model, so a use of a released handle cannot be expressed.
- Selection.Walk and Selection.LaterIssuersResume: `findCert` frees the context it is passed as `prev` (certtostore_windows.go:153-155), and after a search that finds nothing `cert` passes that freed `prev` on to the next issuer's search (certtostore_windows.go:239-247); the model assumes the freed context still positions the enumeration after the earlier certificate.
- `SetACL` and `setAcl`: they run `icacls.exe`, an external program.
- The `Public` accessors: they return a stored field.
- Logging and printing, including the message `Link` prints for a failed association: only the decisions are modelled.
- Error message texts: each error is a constructor of `Types.Error` carrying the values that matter.
- `os.Getenv("ProgramData")`: a string parameter.
- `unsafe` pointers, `reflect.SliceHeader` and the UTF-16 pointer from `wide`: a certificate carries its DER bytes; `Lifecycle.WideName` keeps what Windows reads of a `wide` string.
- Go panics (`&x[0]` on an empty slice, slicing past capacity, `binary.LittleEndian.Uint32` on a short buffer): each is a precondition (`SignSafe`, `DecryptSafe`, `TwoPhaseSafe`, `CurveSafe`, `ExportEcdsaSafe`, `MetadataSafe`, `KeySafe`, `GenerateSafe`, `LinkSafe`, `StoreSafe`) that holds on every path where the panicking expression is reached.
- Go's `int` is taken to be 64 bits wide.
- Keys.Text: a Go string is its bytes; the model gives each byte its own character, and no UTF-8 decoding is done on property values.
- Keys.WideNameRecovered: only names within Latin-1 are stated; other UTF-16 characters are not modelled.
- Keys.Uint32Of: its contract covers key sizes from -2^32 up; smaller sizes wrap further and are not stated.
- Concurrency: the package is sequential.
