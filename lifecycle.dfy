/** The certificate lifecycle of a WinCertStore over the Windows system stores:
    looking certificates up (Cert, Intermediate, Root), linking the machine
    certificate into the user store (Link), removing issued certificates
    (Remove), and importing a certificate with its intermediate (Store). */
module Lifecycle {
  import opened Bytes
  import opened Types
  import opened Selection

  /** What the operating system decides: which stores fail to open, whether
      Link's second opening of the user store fails, issuer matching, which
      encodings a certificate context rejects, whether a key can be
      associated with a certificate, and which adds and deletes fail. */
  datatype Platform = Platform(
    openFails: Scope -> bool,
    userReopenFails: bool,
    matches: Matcher,
    contextFails: seq<byte> -> bool,
    associates: Certificate -> bool,
    addFails: (Scope, Certificate) -> bool,
    deleteFails: (Scope, Certificate) -> bool)

  /** The contents of the four system stores. */
  datatype Stores = Stores(userMy: seq<Entry>, machineMy: seq<Entry>, machineCa: seq<Entry>, machineRoot: seq<Entry>)

  function Get(s: Stores, scope: Scope): seq<Entry> {
    match scope
    case UserMy => s.userMy
    case MachineMy => s.machineMy
    case MachineCa => s.machineCa
    case MachineRoot => s.machineRoot
  }

  function Put(s: Stores, scope: Scope, entries: seq<Entry>): (t: Stores)
    ensures Get(t, scope) == entries
    ensures forall other :: other != scope ==> Get(t, other) == Get(s, other)
  {
    match scope
    case UserMy => s.(userMy := entries)
    case MachineMy => s.(machineMy := entries)
    case MachineCa => s.(machineCa := entries)
    case MachineRoot => s.(machineRoot := entries)
  }

  /** What an operation returns and the stores it leaves behind. */
  datatype Outcome = Outcome(result: Result<()>, stores: Stores)

  // ------------------------------------------------------------ lookups

  /** cert: open the store, then select from it. */
  function CertIn(pl: Platform, s: Stores, scope: Scope, issuers: seq<string>): Result<Option<Certificate>> {
    if pl.openFails(scope) then Err(StoreOpenFailed(scope))
    else Select(Get(s, scope), issuers, pl.matches)
  }

  // ------------------------------------------------------------ Link

  /** Link: the selected machine certificate is added to the user store unless
      there is none or the user store's selection has the same serial number.
      A failed key association is reported but changes nothing. */
  function LinkOutcome(pl: Platform, w: WinCertStore, s: Stores): Outcome {
    var m := CertIn(pl, s, MachineMy, w.issuers);
    if m.Err? then Outcome(Err(m.error), s)
    else if m.value.None? then Outcome(Ok(()), s)
    else
      var c := m.value.value;
      var u := CertIn(pl, s, UserMy, w.issuers);
      if u.Err? then Outcome(Err(u.error), s)
      else if u.value.Some? && u.value.value.serial == c.serial then Outcome(Ok(()), s)
      else if pl.contextFails(c.der) then Outcome(Err(ContextCreationFailed), s)
      else if pl.userReopenFails then Outcome(Err(StoreOpenFailed(UserMy)), s)
      else if pl.addFails(UserMy, c) then Outcome(Err(AddFailed(UserMy)), s)
      else Outcome(Ok(()), Put(s, UserMy, s.userMy + [Stored(c)]))
  }

  /** The machine certificate that Link would link has an encoding with a
      first byte. */
  predicate LinkSafe(pl: Platform, w: WinCertStore, s: Stores) {
    var m := CertIn(pl, s, MachineMy, w.issuers);
    m.Ok? && m.value.Some? ==> |m.value.value.der| > 0
  }

  // ------------------------------------------------------------ remove / Remove

  /** wide(s): the UTF-16 string handed to Windows ends at the first NUL. */
  function WideName(s: string): (t: string)
    ensures '\0' !in t && t <= s
    ensures '\0' !in s ==> t == s
    ensures |t| < |s| ==> s[|t|] == '\0'
  {
    if s == [] || s[0] == '\0' then [] else [s[0]] + WideName(s[1..])
  }

  /** One store's part of remove: the first certificate matching the issuer,
      from the start of the enumeration, is deleted; no usage check. */
  function RemoveFrom(pl: Platform, s: Stores, scope: Scope, issuer: string): Outcome {
    if pl.openFails(scope) then Outcome(Err(StoreOpenFailed(scope)), s)
    else
      var entries := Get(s, scope);
      match Find(entries, WideName(issuer), 0, pl.matches)
      case Err(e) => Outcome(Err(e), s)
      case Ok(None) => Outcome(Ok(()), s)
      case Ok(Some(k)) =>
        if pl.deleteFails(scope, entries[k].cert) then Outcome(Err(DeleteFailed(scope)), s)
        else Outcome(Ok(()), Put(s, scope, entries[..k] + entries[k + 1..]))
  }

  /** remove: the user store, then, only when asked to, the machine store. */
  function RemoveOutcome(pl: Platform, s: Stores, issuer: string, removeSystem: bool): Outcome {
    var user := RemoveFrom(pl, s, UserMy, issuer);
    if user.result.Err? || !removeSystem then user
    else RemoveFrom(pl, user.stores, MachineMy, issuer)
  }

  /** Remove: each issuer in turn; the first error ends it. */
  function RemoveAllOutcome(pl: Platform, s: Stores, issuers: seq<string>, removeSystem: bool): Outcome
    decreases |issuers|
  {
    if issuers == [] then Outcome(Ok(()), s)
    else
      var first := RemoveOutcome(pl, s, issuers[0], removeSystem);
      if first.result.Err? then first
      else RemoveAllOutcome(pl, first.stores, issuers[1..], removeSystem)
  }

  // ------------------------------------------------------------ Store

  /** Store: context and key association for the leaf, the leaf into the
      machine MY store, then the intermediate into the machine CA store. A
      failure after the leaf was added leaves it there. */
  function StoreOutcome(pl: Platform, s: Stores, leaf: Certificate, intermediate: Certificate): Outcome {
    if pl.contextFails(leaf.der) then Outcome(Err(ContextCreationFailed), s)
    else if !pl.associates(leaf) then Outcome(Err(AssociationFailed), s)
    else if pl.openFails(MachineMy) then Outcome(Err(StoreOpenFailed(MachineMy)), s)
    else if pl.addFails(MachineMy, leaf) then Outcome(Err(AddFailed(MachineMy)), s)
    else
      var s1 := Put(s, MachineMy, s.machineMy + [Stored(leaf)]);
      if pl.contextFails(intermediate.der) then Outcome(Err(ContextCreationFailed), s1)
      else if pl.openFails(MachineCa) then Outcome(Err(StoreOpenFailed(MachineCa)), s1)
      else if pl.addFails(MachineCa, intermediate) then Outcome(Err(AddFailed(MachineCa)), s1)
      else Outcome(Ok(()), Put(s1, MachineCa, s1.machineCa + [Stored(intermediate)]))
  }

  /** The leaf is added to machine MY: the place where the intermediate's
      encoding is first addressed. */
  predicate LeafAdded(pl: Platform, leaf: Certificate) {
    !pl.contextFails(leaf.der) && pl.associates(leaf) && !pl.openFails(MachineMy) && !pl.addFails(MachineMy, leaf)
  }

  /** Both encodings are addressed at their first byte when they are reached. */
  predicate StoreSafe(pl: Platform, leaf: Certificate, intermediate: Certificate) {
    |leaf.der| > 0 && (LeafAdded(pl, leaf) ==> |intermediate.der| > 0)
  }

  // ------------------------------------------------------------ the stores as state

  class SystemStores {
    const platform: Platform
    var userMy: seq<Entry>
    var machineMy: seq<Entry>
    var machineCa: seq<Entry>
    var machineRoot: seq<Entry>

    function Contents(): Stores
      reads this
    {
      Stores(userMy, machineMy, machineCa, machineRoot)
    }

    constructor (platform: Platform, initial: Stores)
      ensures this.platform == platform && Contents() == initial
    {
      this.platform := platform;
      userMy, machineMy, machineCa, machineRoot := initial.userMy, initial.machineMy, initial.machineCa, initial.machineRoot;
    }

    method SetContents(scope: Scope, entries: seq<Entry>)
      modifies this
      ensures Contents() == Put(old(Contents()), scope, entries)
    {
      match scope
      case UserMy => userMy := entries;
      case MachineMy => machineMy := entries;
      case MachineCa => machineCa := entries;
      case MachineRoot => machineRoot := entries;
    }

    method Lookup(scope: Scope, issuers: seq<string>) returns (r: Result<Option<Certificate>>)
      ensures r == CertIn(platform, Contents(), scope, issuers)
    {
      if platform.openFails(scope) {
        return Err(StoreOpenFailed(scope));
      }
      r := SelectCert(Get(Contents(), scope), issuers, platform.matches);
    }

    /** Cert: the machine MY store, with the store's issuers. */
    method Cert(w: WinCertStore) returns (r: Result<Option<Certificate>>)
      ensures r == CertIn(platform, Contents(), MachineMy, w.issuers)
    {
      r := Lookup(MachineMy, w.issuers);
    }

    /** Intermediate: the user MY store, with the intermediate issuers. */
    method Intermediate(w: WinCertStore) returns (r: Result<Option<Certificate>>)
      ensures r == CertIn(platform, Contents(), UserMy, w.intermediateIssuers)
    {
      r := Lookup(UserMy, w.intermediateIssuers);
    }

    /** Root: the machine ROOT store, with the caller's issuers. */
    method Root(issuers: seq<string>) returns (r: Result<Option<Certificate>>)
      ensures r == CertIn(platform, Contents(), MachineRoot, issuers)
    {
      r := Lookup(MachineRoot, issuers);
    }

    method Link(w: WinCertStore) returns (r: Result<()>)
      requires LinkSafe(platform, w, Contents())
      modifies this
      ensures r == LinkOutcome(platform, w, old(Contents())).result
      ensures Contents() == LinkOutcome(platform, w, old(Contents())).stores
    {
      var m := Lookup(MachineMy, w.issuers);
      if m.Err? {
        return Err(m.error);
      }
      if m.value.None? {
        return Ok(());
      }
      var c := m.value.value;
      var u := Lookup(UserMy, w.issuers);
      if u.Err? {
        return Err(u.error);
      }
      if u.value.Some? && u.value.value.serial == c.serial {
        return Ok(());
      }
      if platform.contextFails(c.der) {
        return Err(ContextCreationFailed);
      }
      if platform.userReopenFails {
        return Err(StoreOpenFailed(UserMy));
      }
      if platform.addFails(UserMy, c) {
        return Err(AddFailed(UserMy));
      }
      SetContents(UserMy, userMy + [Stored(c)]);
      r := Ok(());
    }

    method RemoveFromStore(scope: Scope, issuer: string) returns (r: Result<()>)
      modifies this
      ensures r == RemoveFrom(platform, old(Contents()), scope, issuer).result
      ensures Contents() == RemoveFrom(platform, old(Contents()), scope, issuer).stores
    {
      if platform.openFails(scope) {
        return Err(StoreOpenFailed(scope));
      }
      var entries := Get(Contents(), scope);
      var found := Find(entries, WideName(issuer), 0, platform.matches);
      if found.Err? {
        return Err(found.error);
      }
      if found.value.None? {
        return Ok(());
      }
      var k := found.value.value;
      if platform.deleteFails(scope, entries[k].cert) {
        return Err(DeleteFailed(scope));
      }
      SetContents(scope, entries[..k] + entries[k + 1..]);
      r := Ok(());
    }

    /** remove */
    method RemoveIssuer(issuer: string, removeSystem: bool) returns (r: Result<()>)
      modifies this
      ensures r == RemoveOutcome(platform, old(Contents()), issuer, removeSystem).result
      ensures Contents() == RemoveOutcome(platform, old(Contents()), issuer, removeSystem).stores
    {
      r := RemoveFromStore(UserMy, issuer);
      if r.Err? || !removeSystem {
        return;
      }
      r := RemoveFromStore(MachineMy, issuer);
    }

    /** Remove */
    method Remove(w: WinCertStore, removeSystem: bool) returns (r: Result<()>)
      modifies this
      ensures r == RemoveAllOutcome(platform, old(Contents()), w.issuers, removeSystem).result
      ensures Contents() == RemoveAllOutcome(platform, old(Contents()), w.issuers, removeSystem).stores
    {
      var i := 0;
      while i < |w.issuers|
        invariant 0 <= i <= |w.issuers|
        invariant RemoveAllOutcome(platform, old(Contents()), w.issuers, removeSystem)
               == RemoveAllOutcome(platform, Contents(), w.issuers[i..], removeSystem)
      {
        assert w.issuers[i..][1..] == w.issuers[i + 1..];
        r := RemoveIssuer(w.issuers[i], removeSystem);
        if r.Err? {
          return;
        }
        i := i + 1;
      }
      r := Ok(());
    }

    method Store(leaf: Certificate, intermediate: Certificate) returns (r: Result<()>)
      requires StoreSafe(platform, leaf, intermediate)
      modifies this
      ensures r == StoreOutcome(platform, old(Contents()), leaf, intermediate).result
      ensures Contents() == StoreOutcome(platform, old(Contents()), leaf, intermediate).stores
    {
      if platform.contextFails(leaf.der) {
        return Err(ContextCreationFailed);
      }
      if !platform.associates(leaf) {
        return Err(AssociationFailed);
      }
      if platform.openFails(MachineMy) {
        return Err(StoreOpenFailed(MachineMy));
      }
      if platform.addFails(MachineMy, leaf) {
        return Err(AddFailed(MachineMy));
      }
      SetContents(MachineMy, machineMy + [Stored(leaf)]);
      if platform.contextFails(intermediate.der) {
        return Err(ContextCreationFailed);
      }
      if platform.openFails(MachineCa) {
        return Err(StoreOpenFailed(MachineCa));
      }
      if platform.addFails(MachineCa, intermediate) {
        return Err(AddFailed(MachineCa));
      }
      SetContents(MachineCa, machineCa + [Stored(intermediate)]);
      r := Ok(());
    }
  }

  // ------------------------------------------------------------ properties

  /** Link changes only the user store, and only by appending the machine
      store's selected certificate. */
  lemma LinkAppendsSelection(pl: Platform, w: WinCertStore, s: Stores)
    ensures var o := LinkOutcome(pl, w, s);
            && o.stores.machineMy == s.machineMy && o.stores.machineCa == s.machineCa
            && o.stores.machineRoot == s.machineRoot
            && (o.stores.userMy == s.userMy
                || (o.result.Ok? && CertIn(pl, s, MachineMy, w.issuers).Ok?
                    && CertIn(pl, s, MachineMy, w.issuers).value.Some?
                    && o.stores.userMy == s.userMy + [Stored(CertIn(pl, s, MachineMy, w.issuers).value.value)]))
    ensures LinkOutcome(pl, w, s).result.Err? ==> LinkOutcome(pl, w, s).stores == s
  {
  }

  /** With no machine certificate selected, Link returns early and changes nothing. */
  lemma LinkWithoutMachineCertificate(pl: Platform, w: WinCertStore, s: Stores)
    requires CertIn(pl, s, MachineMy, w.issuers) == Ok(None)
    ensures LinkOutcome(pl, w, s) == Outcome(Ok(()), s)
  {
  }

  /** When the user store's selection has the machine certificate's serial
      number, Link returns early and changes nothing. */
  lemma LinkAlreadyLinked(pl: Platform, w: WinCertStore, s: Stores, c: Certificate, u: Certificate)
    requires CertIn(pl, s, MachineMy, w.issuers) == Ok(Some(c))
    requires CertIn(pl, s, UserMy, w.issuers) == Ok(Some(u)) && u.serial == c.serial
    ensures LinkOutcome(pl, w, s) == Outcome(Ok(()), s)
  {
  }

  /** When the user store selects nothing or a certificate with a different
      serial number and the platform lets every later step succeed, Link
      appends the machine certificate to the user store and nothing else. */
  lemma LinkAppendsWhenMissing(pl: Platform, w: WinCertStore, s: Stores, c: Certificate)
    requires CertIn(pl, s, MachineMy, w.issuers) == Ok(Some(c))
    requires var u := CertIn(pl, s, UserMy, w.issuers);
             u.Ok? && (u.value.None? || u.value.value.serial != c.serial)
    requires !pl.contextFails(c.der) && !pl.userReopenFails && !pl.addFails(UserMy, c)
    ensures LinkOutcome(pl, w, s) == Outcome(Ok(()), Put(s, UserMy, s.userMy + [Stored(c)]))
  {
  }

  /** Each failure after the machine certificate is selected is reported as
      its own error and leaves the stores as they were. */
  lemma LinkFailures(pl: Platform, w: WinCertStore, s: Stores, c: Certificate)
    requires CertIn(pl, s, MachineMy, w.issuers) == Ok(Some(c))
    requires var u := CertIn(pl, s, UserMy, w.issuers);
             u.Ok? && (u.value.None? || u.value.value.serial != c.serial)
    ensures pl.contextFails(c.der) ==> LinkOutcome(pl, w, s) == Outcome(Err(ContextCreationFailed), s)
    ensures !pl.contextFails(c.der) && pl.userReopenFails ==>
      LinkOutcome(pl, w, s) == Outcome(Err(StoreOpenFailed(UserMy)), s)
    ensures !pl.contextFails(c.der) && !pl.userReopenFails && pl.addFails(UserMy, c) ==>
      LinkOutcome(pl, w, s) == Outcome(Err(AddFailed(UserMy)), s)
  {
  }

  /** Whether the key association succeeds plays no part in Link. */
  lemma LinkIgnoresAssociation(pl: Platform, w: WinCertStore, s: Stores, associates: Certificate -> bool)
    ensures LinkOutcome(pl.(associates := associates), w, s) == LinkOutcome(pl, w, s)
  {
    assert forall scope :: CertIn(pl.(associates := associates), s, scope, w.issuers) == CertIn(pl, s, scope, w.issuers);
  }

  /** Linking into an empty user store, then linking again, changes nothing
      the second time: the user store's selection is now the linked
      certificate, with the same serial number. */
  lemma LinkTwiceOnEmptyUserStore(pl: Platform, w: WinCertStore, s: Stores)
    requires s.userMy == [] && LinkOutcome(pl, w, s).result.Ok?
    ensures var once := LinkOutcome(pl, w, s).stores;
            LinkOutcome(pl, w, once) == Outcome(Ok(()), once)
  {
    var once := LinkOutcome(pl, w, s).stores;
    var m := CertIn(pl, s, MachineMy, w.issuers);
    if m.Ok? && m.value.Some? && once != s {
      var c := m.value.value;
      assert once.userMy == [Stored(c)];
      SelectedQualifies(s.machineMy, w.issuers, None, pl.matches);
      SoleCertificateSelected(c, w.issuers, pl.matches);
      assert CertIn(pl, once, MachineMy, w.issuers) == m;
      assert CertIn(pl, once, UserMy, w.issuers) == Ok(Some(c));
    }
  }

  const UserLeafA: Certificate := Certificate("A", 1, 0x80, [0x30], true)
  const MachineLeafA: Certificate := Certificate("A", 2, 0x80, [0x30], true)

  /** Link compares the machine certificate with the user store's selection
      only, not with every certificate the user holds: with an earlier
      qualifying certificate of another serial number in user MY, every Link
      appends the machine certificate again, although the user store already
      holds its serial number after the first one. */
  lemma LinkRepeatsBehindEarlierUserCertificate(pl: Platform)
    requires pl.matches == SameName && !pl.openFails(UserMy) && !pl.openFails(MachineMy)
    requires !pl.contextFails(MachineLeafA.der) && !pl.userReopenFails && !pl.addFails(UserMy, MachineLeafA)
    ensures var w := WinCertStore(0, "", ["A"], [], "");
            var s := Stores([Stored(UserLeafA)], [Stored(MachineLeafA)], [], []);
            var once := LinkOutcome(pl, w, s);
            var twice := LinkOutcome(pl, w, once.stores);
            && once == Outcome(Ok(()), s.(userMy := [Stored(UserLeafA), Stored(MachineLeafA)]))
            && twice == Outcome(Ok(()), s.(userMy := [Stored(UserLeafA), Stored(MachineLeafA), Stored(MachineLeafA)]))
  {
    var w := WinCertStore(0, "", ["A"], [], "");
    var s := Stores([Stored(UserLeafA)], [Stored(MachineLeafA)], [], []);
    assert ["A"][1..] == [];
    assert Find(s.machineMy, WideName("A"), 0, pl.matches) == Ok(Some(0));
    assert CertIn(pl, s, MachineMy, w.issuers) == Ok(Some(MachineLeafA));
    assert Find(s.userMy, WideName("A"), 0, pl.matches) == Ok(Some(0));
    assert CertIn(pl, s, UserMy, w.issuers) == Ok(Some(UserLeafA));
    var once := LinkOutcome(pl, w, s).stores;
    assert once.userMy == [Stored(UserLeafA), Stored(MachineLeafA)];
    assert Find(once.userMy, WideName("A"), 0, pl.matches) == Ok(Some(0));
    assert CertIn(pl, once, UserMy, w.issuers) == Ok(Some(UserLeafA));
    assert CertIn(pl, once, MachineMy, w.issuers) == Ok(Some(MachineLeafA));
  }

  /** One removal deletes at most the first certificate of each store that
      matches the issuer (as Windows sees its name), and only from user MY,
      plus machine MY when the system store is included. */
  lemma RemoveFromDeletesFirstMatch(pl: Platform, s: Stores, scope: Scope, issuer: string)
    ensures var o := RemoveFrom(pl, s, scope, issuer);
            var before, after := Get(s, scope), Get(o.stores, scope);
            && (forall other :: other != scope ==> Get(o.stores, other) == Get(s, other))
            && (after == before
                || exists k :: 0 <= k < |before| && after == before[..k] + before[k + 1..]
                     && before[k].Stored? && pl.matches(WideName(issuer), before[k].cert.issuer)
                     && forall j :: 0 <= j < k ==> before[j].Stored? && !pl.matches(WideName(issuer), before[j].cert.issuer))
  {
  }

  /** Each outcome of one store's removal: an open failure, a failed search, a
      miss and a failed delete change nothing; a found certificate whose delete
      succeeds is taken out of the store and nothing else changes. */
  lemma RemoveFromOutcomes(pl: Platform, s: Stores, scope: Scope, issuer: string)
    ensures pl.openFails(scope) ==> RemoveFrom(pl, s, scope, issuer) == Outcome(Err(StoreOpenFailed(scope)), s)
    ensures var f := Find(Get(s, scope), WideName(issuer), 0, pl.matches);
            !pl.openFails(scope) ==>
              && (f.Err? ==> RemoveFrom(pl, s, scope, issuer) == Outcome(Err(f.error), s))
              && (f == Ok(None) ==> RemoveFrom(pl, s, scope, issuer) == Outcome(Ok(()), s))
              && (f.Ok? && f.value.Some? ==>
                    var k := f.value.value;
                    var before := Get(s, scope);
                    && (pl.deleteFails(scope, before[k].cert) ==>
                          RemoveFrom(pl, s, scope, issuer) == Outcome(Err(DeleteFailed(scope)), s))
                    && (!pl.deleteFails(scope, before[k].cert) ==>
                          RemoveFrom(pl, s, scope, issuer) == Outcome(Ok(()), Put(s, scope, before[..k] + before[k + 1..]))))
  {
  }

  /** Remove without the system store leaves every machine store alone; CA and
      ROOT are never touched; each store keeps a sub-collection of its
      entries, and at most one entry per issuer goes from each. */
  lemma {:induction false} RemoveBounds(pl: Platform, s: Stores, issuers: seq<string>, removeSystem: bool)
    ensures var t := RemoveAllOutcome(pl, s, issuers, removeSystem).stores;
            && t.machineCa == s.machineCa && t.machineRoot == s.machineRoot
            && (!removeSystem ==> t.machineMy == s.machineMy)
            && multiset(t.userMy) <= multiset(s.userMy) && |t.userMy| + |issuers| >= |s.userMy|
            && multiset(t.machineMy) <= multiset(s.machineMy) && |t.machineMy| + |issuers| >= |s.machineMy|
    decreases |issuers|
  {
    if issuers != [] {
      var first := RemoveOutcome(pl, s, issuers[0], removeSystem);
      RemoveOneBounds(pl, s, issuers[0], removeSystem);
      if first.result.Ok? {
        RemoveBounds(pl, first.stores, issuers[1..], removeSystem);
      }
    }
  }

  lemma RemoveOneBounds(pl: Platform, s: Stores, issuer: string, removeSystem: bool)
    ensures var t := RemoveOutcome(pl, s, issuer, removeSystem).stores;
            && t.machineCa == s.machineCa && t.machineRoot == s.machineRoot
            && (!removeSystem ==> t.machineMy == s.machineMy)
            && multiset(t.userMy) <= multiset(s.userMy) && |t.userMy| + 1 >= |s.userMy|
            && multiset(t.machineMy) <= multiset(s.machineMy) && |t.machineMy| + 1 >= |s.machineMy|
  {
    var u := RemoveFrom(pl, s, UserMy, issuer).stores;
    DeleteShrinks(pl, s, UserMy, issuer);
    assert Get(u, MachineMy) == s.machineMy && Get(u, MachineCa) == s.machineCa && Get(u, MachineRoot) == s.machineRoot;
    if RemoveFrom(pl, s, UserMy, issuer).result.Ok? && removeSystem {
      var m := RemoveFrom(pl, u, MachineMy, issuer).stores;
      DeleteShrinks(pl, u, MachineMy, issuer);
      assert Get(m, UserMy) == u.userMy && Get(m, MachineCa) == u.machineCa && Get(m, MachineRoot) == u.machineRoot;
    }
  }

  lemma DeleteShrinks(pl: Platform, s: Stores, scope: Scope, issuer: string)
    ensures var t := RemoveFrom(pl, s, scope, issuer).stores;
            && (forall other :: other != scope ==> Get(t, other) == Get(s, other))
            && multiset(Get(t, scope)) <= multiset(Get(s, scope)) && |Get(t, scope)| + 1 >= |Get(s, scope)|
  {
    var before := Get(s, scope);
    var f := Find(before, WideName(issuer), 0, pl.matches);
    var t := RemoveFrom(pl, s, scope, issuer).stores;
    if !pl.openFails(scope) && f.Ok? && f.value.Some? && !pl.deleteFails(scope, before[f.value.value].cert) {
      var k := f.value.value;
      assert t == Put(s, scope, before[..k] + before[k + 1..]);
      RemoveAtShrinks(before, k);
    } else {
      assert t == s;
    }
  }

  /** Dropping one entry of a sequence leaves a sub-multiset one shorter. */
  lemma RemoveAtShrinks<T>(e: seq<T>, k: nat)
    requires k < |e|
    ensures multiset(e[..k] + e[k + 1..]) <= multiset(e) && |e[..k] + e[k + 1..]| + 1 == |e|
  {
    assert e == e[..k] + [e[k]] + e[k + 1..];
  }

  /** The first failing issuer ends Remove, with that issuer's error. */
  lemma {:induction false} RemoveStopsAtFirstError(pl: Platform, s: Stores, issuers: seq<string>, removeSystem: bool, i: nat)
    requires i < |issuers|
    requires var before := RemoveAllOutcome(pl, s, issuers[..i], removeSystem);
             before.result.Ok? && RemoveOutcome(pl, before.stores, issuers[i], removeSystem).result.Err?
    ensures var before := RemoveAllOutcome(pl, s, issuers[..i], removeSystem);
            RemoveAllOutcome(pl, s, issuers, removeSystem) == RemoveOutcome(pl, before.stores, issuers[i], removeSystem)
    decreases i
  {
    if i == 0 {
      assert issuers[..0] == [];
    } else {
      var first := RemoveOutcome(pl, s, issuers[0], removeSystem);
      assert issuers[..i][0] == issuers[0];
      assert issuers[..i][1..] == issuers[1..][..i - 1];
      assert first.result.Ok?;
      RemoveStopsAtFirstError(pl, first.stores, issuers[1..], removeSystem, i - 1);
    }
  }

  /** Two certificates of the same issuer in the user store: Remove, asked
      to remove what the issuer issued, leaves the second one in place. */
  lemma RemoveLeavesSecondCertificate(pl: Platform, c1: Certificate, c2: Certificate)
    requires pl.matches == SameName && !pl.openFails(UserMy) && !pl.deleteFails(UserMy, c1)
    requires c1.issuer == "A" && c2.issuer == "A"
    ensures var s := Stores([Stored(c1), Stored(c2)], [], [], []);
            var w := WinCertStore(0, "", ["A"], [], "");
            RemoveAllOutcome(pl, s, w.issuers, false) == Outcome(Ok(()), Stores([Stored(c2)], [], [], []))
  {
    var s := Stores([Stored(c1), Stored(c2)], [], [], []);
    assert Find(s.userMy, WideName("A"), 0, pl.matches) == Ok(Some(0));
    assert s.userMy[..0] + s.userMy[1..] == [Stored(c2)];
    assert ["A"][1..] == [];
  }

  /** A failed key association stops Store before anything is added. */
  lemma StoreAssociationAborts(pl: Platform, s: Stores, leaf: Certificate, intermediate: Certificate)
    requires !pl.contextFails(leaf.der) && !pl.associates(leaf)
    ensures StoreOutcome(pl, s, leaf, intermediate) == Outcome(Err(AssociationFailed), s)
  {
  }

  /** Store succeeds exactly when every step does, and then each of the two
      machine stores has gained its certificate at the end; the user and ROOT
      stores are never touched. A failure after the leaf was added keeps the
      leaf and leaves CA as it was. */
  lemma StoreEffect(pl: Platform, s: Stores, leaf: Certificate, intermediate: Certificate)
    ensures var o := StoreOutcome(pl, s, leaf, intermediate);
            && o.stores.userMy == s.userMy && o.stores.machineRoot == s.machineRoot
            && (o.result.Ok? <==>
                  LeafAdded(pl, leaf) && !pl.contextFails(intermediate.der) && !pl.openFails(MachineCa)
                  && !pl.addFails(MachineCa, intermediate))
            && (o.result.Ok? ==> o.stores.machineMy == s.machineMy + [Stored(leaf)]
                                 && o.stores.machineCa == s.machineCa + [Stored(intermediate)])
            && (o.result.Err? && LeafAdded(pl, leaf) ==>
                  o.stores.machineMy == s.machineMy + [Stored(leaf)] && o.stores.machineCa == s.machineCa)
            && (!LeafAdded(pl, leaf) ==> o.stores == s)
  {
  }

  /** After storing into an empty machine MY store, Cert returns the stored
      leaf, provided it qualifies and one of the issuers matches it. */
  lemma StoreThenCert(pl: Platform, s: Stores, w: WinCertStore, leaf: Certificate, intermediate: Certificate)
    requires s.machineMy == [] && StoreOutcome(pl, s, leaf, intermediate).result.Ok?
    requires Qualifies(leaf)
    requires exists j :: 0 <= j < |w.issuers| && pl.matches(w.issuers[j], leaf.issuer)
               && forall i :: 0 <= i <= j ==> '\0' !in w.issuers[i]
    ensures CertIn(pl, StoreOutcome(pl, s, leaf, intermediate).stores, MachineMy, w.issuers) == Ok(Some(leaf))
  {
    StoreEffect(pl, s, leaf, intermediate);
    assert Get(StoreOutcome(pl, s, leaf, intermediate).stores, MachineMy) == [Stored(leaf)];
    SoleCertificateSelected(leaf, w.issuers, pl.matches);
  }

  /** Intermediate reads the user MY store, so it never sees the intermediate
      that Store put into machine CA. */
  lemma StoredIntermediateNotLookedUp(pl: Platform, s: Stores, w: WinCertStore, leaf: Certificate, intermediate: Certificate)
    ensures CertIn(pl, StoreOutcome(pl, s, leaf, intermediate).stores, UserMy, w.intermediateIssuers)
         == CertIn(pl, s, UserMy, w.intermediateIssuers)
  {
  }
}
