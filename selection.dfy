/** Certificate selection in a system store: an ordered issuer list is walked
    over the store's enumeration, one issuer search per issuer, each search
    resuming after the most recently found certificate. */
module Selection {
  import opened Bytes
  import opened Types

  const SignatureKeyUsage: bv16 := 0x80  // CERT_DIGITAL_SIGNATURE_KEY_USAGE

  /** A certificate as the store holds it: its issuer name, serial number,
      intended key usage bits, DER encoding, and whether x509 parsing of that
      encoding succeeds. */
  datatype Certificate = Certificate(issuer: string, serial: nat, usage: bv16, der: seq<byte>, parses: bool)

  /** A position of the store's enumeration: a certificate, or a point where
      the search call fails with an error other than "not found". */
  datatype Entry = Stored(cert: Certificate) | Fault(code: nat)

  /** Issuer matching as the store's issuer-string search does it. */
  type Matcher = (string, string) -> bool

  /** A certificate the selection returns: the digital-signature usage bit is
      set and the encoding parses. */
  predicate Qualifies(c: Certificate) {
    c.usage & SignatureKeyUsage != 0 && c.parses
  }

  /** The search for `name` from position `from` on: the first certificate
      whose issuer matches, "not found" at the end, or the first fault on the way. */
  function Find(store: seq<Entry>, name: string, from: nat, matches: Matcher): (r: Result<Option<nat>>)
    ensures r.Ok? && r.value.Some? ==>
              var k := r.value.value;
              && from <= k < |store| && store[k].Stored? && matches(name, store[k].cert.issuer)
              && forall j :: from <= j < k ==> store[j].Stored? && !matches(name, store[j].cert.issuer)
    ensures r.Ok? && r.value.None? ==>
              forall j :: from <= j < |store| ==> store[j].Stored? && !matches(name, store[j].cert.issuer)
    ensures r.Err? ==>
              && r.error.FindFailed?
              && exists k :: from <= k < |store| && store[k] == Fault(r.error.code)
                   && forall j :: from <= j < k ==> store[j].Stored? && !matches(name, store[j].cert.issuer)
    decreases |store| - from
  {
    if from >= |store| then Ok(None)
    else
      match store[from]
      case Fault(code) => Err(FindFailed(code))
      case Stored(c) => if matches(name, c.issuer) then Ok(Some(from)) else Find(store, name, from + 1, matches)
  }

  /** Where the next search starts: at the beginning, or after the previous find. */
  function Start(prev: Option<nat>): nat {
    if prev.None? then 0 else prev.value + 1
  }

  /** One issuer search: the issuer and the position it started from. */
  datatype Search = Search(issuer: string, from: nat)

  /** The outcome of the walk and the searches it made. */
  datatype Scan = Scan(result: Result<Option<Certificate>>, searched: seq<Search>)

  /** The loop of `cert`: for each issuer in order, an issuer name with a NUL
      cannot be converted and ends the walk; otherwise one search from after
      `prev`. A fault ends the walk; no match goes on to the next issuer with
      the same cursor; a match moves the cursor and, if the certificate
      qualifies, it is the result. */
  function Walk(store: seq<Entry>, issuers: seq<string>, prev: Option<nat>, matches: Matcher): Scan
    decreases |issuers|
  {
    if issuers == [] then Scan(Ok(None), [])
    else if '\0' in issuers[0] then Scan(Err(InvalidIssuerString), [])
    else
      var here := Search(issuers[0], Start(prev));
      match Find(store, issuers[0], Start(prev), matches)
      case Err(e) => Scan(Err(e), [here])
      case Ok(None) =>
        var rest := Walk(store, issuers[1..], prev, matches);
        Scan(rest.result, [here] + rest.searched)
      case Ok(Some(k)) =>
        if Qualifies(store[k].cert) then Scan(Ok(Some(store[k].cert)), [here])
        else
          var rest := Walk(store, issuers[1..], Some(k), matches);
          Scan(rest.result, [here] + rest.searched)
  }

  function Select(store: seq<Entry>, issuers: seq<string>, matches: Matcher): Result<Option<Certificate>> {
    Walk(store, issuers, None, matches).result
  }

  /** The selection loop, with `continue` for an issuer without a usable
      certificate and `break` at the first qualifying one. */
  method SelectCert(store: seq<Entry>, issuers: seq<string>, matches: Matcher) returns (r: Result<Option<Certificate>>)
    ensures r == Select(store, issuers, matches)
  {
    var prev: Option<nat> := None;
    var cert: Option<Certificate> := None;
    var i := 0;
    while i < |issuers|
      invariant 0 <= i <= |issuers| && cert.None?
      invariant prev.Some? ==> prev.value < |store| && store[prev.value].Stored?
      invariant Walk(store, issuers, None, matches).result == Walk(store, issuers[i..], prev, matches).result
    {
      var issuer := issuers[i];
      assert issuers[i..][1..] == issuers[i + 1..];
      if '\0' in issuer {
        return Err(InvalidIssuerString);
      }
      var nc := Find(store, issuer, Start(prev), matches);
      if nc.Err? {
        return Err(nc.error);
      }
      if nc.value.None? {
        i := i + 1;
        continue;
      }
      prev := nc.value;
      var found := store[nc.value.value].cert;
      if found.usage & SignatureKeyUsage == 0 {
        i := i + 1;
        continue;
      }
      if !found.parses {
        i := i + 1;
        continue;
      }
      cert := Some(found);
      break;
    }
    r := Ok(cert);
  }

  // ------------------------------------------------------------ properties

  /** A selected certificate qualifies, is in the store, and matches an issuer
      of the list that the walk reached: no issuer up to it contains a NUL. */
  lemma {:induction false} SelectedQualifies(store: seq<Entry>, issuers: seq<string>, prev: Option<nat>, matches: Matcher)
    requires Walk(store, issuers, prev, matches).result.Ok?
    requires Walk(store, issuers, prev, matches).result.value.Some?
    ensures var c := Walk(store, issuers, prev, matches).result.value.value;
            && Qualifies(c) && Stored(c) in store
            && exists j :: 0 <= j < |issuers| && matches(issuers[j], c.issuer)
                 && forall i :: 0 <= i <= j ==> '\0' !in issuers[i]
    decreases |issuers|
  {
    var c := Walk(store, issuers, prev, matches).result.value.value;
    var f := Find(store, issuers[0], Start(prev), matches);
    if f.value.Some? && Qualifies(store[f.value.value].cert) {
      var k := f.value.value;
      assert store[k] == Stored(c);
      assert matches(issuers[0], c.issuer);
    } else {
      var next := if f.value.None? then prev else f.value;
      assert Walk(store, issuers, prev, matches).result == Walk(store, issuers[1..], next, matches).result;
      SelectedQualifies(store, issuers[1..], next, matches);
      var j :| 0 <= j < |issuers[1..]| && matches(issuers[1..][j], c.issuer)
                 && forall i :: 0 <= i <= j ==> '\0' !in issuers[1..][i];
      assert matches(issuers[j + 1], c.issuer);
      forall i | 0 <= i <= j + 1
        ensures '\0' !in issuers[i]
      {
        if i > 0 {
          assert issuers[i] == issuers[1..][i - 1];
        }
      }
    }
  }

  /** No selection without a candidate: when no certificate of the store both
      qualifies and matches an issuer, and the walk meets no fault and no bad
      issuer name, the result is "none". */
  lemma {:induction false} NoCandidateNoSelection(store: seq<Entry>, issuers: seq<string>, prev: Option<nat>, matches: Matcher)
    requires forall k :: 0 <= k < |store| ==> store[k].Stored?
    requires forall i :: 0 <= i < |issuers| ==> '\0' !in issuers[i]
    requires forall k, i :: 0 <= k < |store| && 0 <= i < |issuers| && matches(issuers[i], store[k].cert.issuer)
               ==> !Qualifies(store[k].cert)
    ensures Walk(store, issuers, prev, matches).result == Ok(None)
    decreases |issuers|
  {
    if issuers != [] {
      assert '\0' !in issuers[0];
      var f := Find(store, issuers[0], Start(prev), matches);
      var next := if f.value.None? then prev else f.value;
      forall k, i | 0 <= k < |store| && 0 <= i < |issuers[1..]| && matches(issuers[1..][i], store[k].cert.issuer)
        ensures !Qualifies(store[k].cert)
      {
        assert issuers[1..][i] == issuers[i + 1];
      }
      NoCandidateNoSelection(store, issuers[1..], next, matches);
    }
  }

  /** Earlier issuers take precedence: once a prefix of the list selects a
      certificate or fails, the issuers after it are never searched. */
  lemma {:induction false} EarlierIssuersDecide(store: seq<Entry>, first: seq<string>, later: seq<string>, prev: Option<nat>, matches: Matcher)
    requires var r := Walk(store, first, prev, matches).result; r.Err? || r.value.Some?
    ensures Walk(store, first + later, prev, matches) == Walk(store, first, prev, matches)
    decreases |first|
  {
    assert first != [];
    var all := first + later;
    assert all[0] == first[0];
    assert all[1..] == first[1..] + later;
    var f := Find(store, first[0], Start(prev), matches);
    if '\0' !in first[0] && f.Ok? && (f.value.None? || !Qualifies(store[f.value.value].cert)) {
      var next := if f.value.None? then prev else f.value;
      assert Walk(store, first, prev, matches).result == Walk(store, first[1..], next, matches).result;
      EarlierIssuersDecide(store, first[1..], later, next, matches);
    }
  }

  /** When a prefix of the list selects nothing, the rest of the list is
      walked with the cursor the prefix left behind. */
  function CursorAfter(store: seq<Entry>, issuers: seq<string>, prev: Option<nat>, matches: Matcher): Option<nat>
    decreases |issuers|
  {
    if issuers == [] || '\0' in issuers[0] then prev
    else
      match Find(store, issuers[0], Start(prev), matches)
      case Err(_) => prev
      case Ok(None) => CursorAfter(store, issuers[1..], prev, matches)
      case Ok(Some(k)) => CursorAfter(store, issuers[1..], Some(k), matches)
  }

  lemma {:induction false} LaterIssuersResume(store: seq<Entry>, first: seq<string>, later: seq<string>, prev: Option<nat>, matches: Matcher)
    requires Walk(store, first, prev, matches).result == Ok(None)
    ensures Walk(store, first + later, prev, matches).result
         == Walk(store, later, CursorAfter(store, first, prev, matches), matches).result
    decreases |first|
  {
    if first == [] {
      assert first + later == later;
    } else {
      var all := first + later;
      assert all[0] == first[0];
      assert all[1..] == first[1..] + later;
      var f := Find(store, first[0], Start(prev), matches);
      var next := if f.value.None? then prev else f.value;
      LaterIssuersResume(store, first[1..], later, next, matches);
    }
  }

  /** One search per issuer, in list order, each from where the previous one
      left the cursor: at the start, unchanged after "not found", just past
      the previously found certificate otherwise. */
  function NextFrom(store: seq<Entry>, s: Search, matches: Matcher): nat {
    var f := Find(store, s.issuer, s.from, matches);
    if f.Ok? && f.value.Some? then f.value.value + 1 else s.from
  }

  lemma {:induction false} SearchesInOrder(store: seq<Entry>, issuers: seq<string>, prev: Option<nat>, matches: Matcher)
    ensures var s := Walk(store, issuers, prev, matches).searched;
            && |s| <= |issuers|
            && (forall j :: 0 <= j < |s| ==> s[j].issuer == issuers[j])
            && (|s| > 0 ==> s[0].from == Start(prev))
            && (forall j :: 0 <= j < |s| - 1 ==> s[j + 1].from == NextFrom(store, s[j], matches))
    decreases |issuers|
  {
    if issuers != [] && '\0' !in issuers[0] {
      var f := Find(store, issuers[0], Start(prev), matches);
      if f.Ok? && (f.value.None? || !Qualifies(store[f.value.value].cert)) {
        var next := if f.value.None? then prev else f.value;
        SearchesInOrder(store, issuers[1..], next, matches);
        var s := Walk(store, issuers, prev, matches).searched;
        var rest := Walk(store, issuers[1..], next, matches).searched;
        assert s == [Search(issuers[0], Start(prev))] + rest;
        assert Start(next) == NextFrom(store, s[0], matches);
        forall j | 0 <= j < |s|
          ensures s[j].issuer == issuers[j]
        {
          if j > 0 {
            assert s[j] == rest[j - 1];
          }
        }
        forall j | 0 <= j < |s| - 1
          ensures s[j + 1].from == NextFrom(store, s[j], matches)
        {
          if j > 0 {
            assert s[j] == rest[j - 1] && s[j + 1] == rest[j];
          }
        }
      }
    }
  }

  /** A certificate in a store of its own is selected whenever it qualifies and
      an issuer matches it before any malformed issuer name comes up. */
  lemma {:induction false} SoleCertificateSelected(c: Certificate, issuers: seq<string>, matches: Matcher)
    requires Qualifies(c)
    requires exists j :: 0 <= j < |issuers| && matches(issuers[j], c.issuer)
               && forall i :: 0 <= i <= j ==> '\0' !in issuers[i]
    ensures Select([Stored(c)], issuers, matches) == Ok(Some(c))
    decreases |issuers|
  {
    assert '\0' !in issuers[0];
    if !matches(issuers[0], c.issuer) {
      assert Find([Stored(c)], issuers[0], 1, matches) == Ok(None);
      var j :| 0 <= j < |issuers| && matches(issuers[j], c.issuer)
                 && forall i :: 0 <= i <= j ==> '\0' !in issuers[i];
      assert matches(issuers[1..][j - 1], c.issuer);
      forall i | 0 <= i <= j - 1
        ensures '\0' !in issuers[1..][i]
      {
        assert issuers[1..][i] == issuers[i + 1];
      }
      SoleCertificateSelected(c, issuers[1..], matches);
    }
  }

  // ------------------------------------------------------------ what the cursor does

  function SameName(a: string, b: string): bool {
    a == b
  }

  const LeafForB: Certificate := Certificate("B", 1, 0x80, [0x30], true)
  const NoSignatureForA: Certificate := Certificate("A", 2, 0x20, [0x30], true)

  /** The shared cursor hides a qualifying certificate from a later issuer:
      the search for A moves past B's certificate, so the search for B starts
      after it and finds nothing. */
  lemma SharedCursorMissesLaterIssuer()
    ensures Qualifies(LeafForB) && SameName("B", LeafForB.issuer)
    ensures Select([Stored(LeafForB), Stored(NoSignatureForA)], ["A", "B"], SameName) == Ok(None)
  {
    var store := [Stored(LeafForB), Stored(NoSignatureForA)];
    assert Find(store, "A", 0, SameName) == Ok(Some(1));
    assert Find(store, "B", 2, SameName) == Ok(None);
    assert ["A", "B"][1..] == ["B"];
  }

  /** Only the first matching certificate of an issuer is examined: a later
      qualifying one of the same issuer is not selected. */
  lemma FirstMatchOnly()
    ensures Select([Stored(NoSignatureForA), Stored(NoSignatureForA.(usage := 0x80))], ["A"], SameName) == Ok(None)
  {
    var store := [Stored(NoSignatureForA), Stored(NoSignatureForA.(usage := 0x80))];
    assert Find(store, "A", 0, SameName) == Ok(Some(0));
  }
}
