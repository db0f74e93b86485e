/** The release ledgers after parsing: which entries a contract admits, and the graph that
    "Changes since" and "Supported upgrade sources" span.
 */
module ReleaseContract {
  import opened Basics

  /** A release version: a core, and for a beta its number. */
  datatype Version = Version(major: nat, minor: nat, patch: nat, beta: Option<nat>)

  datatype Entry = Entry(version: Version, historical: bool, changesSince: Version, sources: seq<Version>,
                         guideAnchor: string)

  const BASELINE := Version(0, 6, 5, None)

  predicate SameCore(a: Version, b: Version) {
    a.major == b.major && a.minor == b.minor && a.patch == b.patch
  }

  /** Precedence as in section 11 of Semantic Versioning 2.0.0, for cores and betas. */
  predicate Precedes(a: Version, b: Version) {
    if a.major != b.major then a.major < b.major
    else if a.minor != b.minor then a.minor < b.minor
    else if a.patch != b.patch then a.patch < b.patch
    else a.beta.Some? && (b.beta.None? || a.beta.value < b.beta.value)
  }

  lemma PrecedesOrder(a: Version, b: Version, c: Version)
    ensures !Precedes(a, a)
    ensures Precedes(a, b) && Precedes(b, c) ==> Precedes(a, c)
    ensures a == b || Precedes(a, b) || Precedes(b, a)
  {
  }

  /** What the precedence compares, in order; a beta comes below its core. */
  function Ranks(v: Version): seq<nat> {
    [v.major, v.minor, v.patch, if v.beta.Some? then 0 else 1, if v.beta.Some? then v.beta.value else 0]
  }

  /** `a` and `b` rank alike up to position `i`, where `a` ranks lower. */
  ghost predicate LowerAt(a: seq<nat>, b: seq<nat>, i: nat) {
    && i < |a| && i < |b| && a[i] < b[i]
    && forall j :: 0 <= j < i ==> a[j] == b[j]
  }

  /** The first difference decides. */
  lemma PrecedesExact(a: Version, b: Version)
    ensures Precedes(a, b) <==> exists i: nat :: LowerAt(Ranks(a), Ranks(b), i)
  {
    var p, q := Ranks(a), Ranks(b);
    if Precedes(a, b) {
      var i := if a.major != b.major then 0 else if a.minor != b.minor then 1 else if a.patch != b.patch then 2
      else if b.beta.None? then 3 else 4;
      assert LowerAt(p, q, i);
    }
    if i: nat :| LowerAt(p, q, i) {
      assert i > 0 ==> p[0] == q[0];
      assert i > 1 ==> p[1] == q[1];
      assert i > 2 ==> p[2] == q[2];
      assert i > 3 ==> p[3] == q[3];
    }
  }

  /** Betas released before the ledgers were governed name their stable base explicitly. */
  predicate NamesBaseline(v: Version) {
    v.major == 0 && v.minor == 7 && v.patch <= 1 && v.beta.Some? && 1 <= v.beta.value <= 4
  }

  // ----- the searches

  function FirstBelow(entries: seq<Entry>, v: Version): Option<Version> {
    if entries == [] then None
    else if Precedes(entries[0].version, v) then Some(entries[0].version)
    else FirstBelow(entries[1..], v)
  }

  predicate Listed(entries: seq<Entry>, v: Version) {
    exists i :: 0 <= i < |entries| && entries[i].version == v
  }

  /** The stable release that a release builds on. */
  function PreviousStable(stable: seq<Entry>, v: Version): Option<Version> {
    if NamesBaseline(v) then (if Listed(stable, BASELINE) then Some(BASELINE) else None)
    else FirstBelow(stable, v)
  }

  function FirstBeta(entries: seq<Entry>, v: Version): Option<Version> {
    if entries == [] then None
    else if SameCore(entries[0].version, v) && Precedes(entries[0].version, v) then Some(entries[0].version)
    else FirstBeta(entries[1..], v)
  }

  // ----- what one entry must declare

  /** Betas after the first build on the beta before them. */
  predicate Continues(v: Version) {
    v.beta.Some? && v.beta.value > 1
  }

  function BetaBefore(v: Version): Version
    requires Continues(v)
  {
    v.(beta := Some(v.beta.value - 1))
  }

  predicate SourceAllowed(s: Version, e: Entry, previous: Version, beta: seq<Entry>) {
    if s.beta.None? then s == previous
    else SameCore(s, e.version) && Listed(beta, s) && Precedes(s, e.version)
  }

  function BetaSources(sources: seq<Version>): seq<Version> {
    if sources == [] then []
    else (if sources[0].beta.Some? then [sources[0]] else []) + BetaSources(sources[1..])
  }

  /** The base and the upgrade sources of one governed entry, in the order they are checked. */
  predicate EntryHolds(e: Entry, stable: seq<Entry>, beta: seq<Entry>) {
    var previous := PreviousStable(stable, e.version);
    previous.Some? &&
    (Continues(e.version) ==> Listed(beta, BetaBefore(e.version))) &&
    var base := if Continues(e.version) then BetaBefore(e.version) else previous.value;
    var latest := if e.version.beta.None? then FirstBeta(beta, e.version) else None;
    && e.changesSince == base
    && base in e.sources
    && (Continues(e.version) ==> previous.value in e.sources)
    && (latest.Some? ==> latest.value in e.sources)
    && (forall s :: s in e.sources ==> SourceAllowed(s, e, previous.value, beta))
    && (e.version.beta.None? ==> |BetaSources(e.sources)| <= 1)
  }

  // ----- the ledgers

  ghost predicate Descending(entries: seq<Entry>) {
    forall i, j :: 0 <= i < j < |entries| ==> Precedes(entries[j].version, entries[i].version)
  }

  ghost predicate StableLedger(stable: seq<Entry>) {
    && stable != []
    && Descending(stable)
    && (forall e :: e in stable ==> e.version.beta.None?)
    && (forall e :: e in stable && e.historical ==> e.version == BASELINE)
  }

  ghost predicate BetaLedger(beta: seq<Entry>) {
    && Descending(beta)
    && (forall e :: e in beta ==> e.version.beta.Some? && e.version.beta.value >= 1 && !e.historical)
  }

  /** A contract that loads. */
  ghost predicate Accepted(stable: seq<Entry>, beta: seq<Entry>) {
    && StableLedger(stable)
    && BetaLedger(beta)
    && (forall e :: e in stable && !e.historical ==> EntryHolds(e, stable, beta))
    && (forall e :: e in beta ==> EntryHolds(e, stable, beta))
  }

  // ----- what the searches find

  lemma {:induction false} FirstBelowFinds(entries: seq<Entry>, v: Version)
    ensures FirstBelow(entries, v).Some? ==>
            Listed(entries, FirstBelow(entries, v).value) && Precedes(FirstBelow(entries, v).value, v)
    ensures FirstBelow(entries, v).None? ==> forall i :: 0 <= i < |entries| ==> !Precedes(entries[i].version, v)
  {
    if entries == [] {
    } else {
      FirstBelowFinds(entries[1..], v);
      if !Precedes(entries[0].version, v) {
        if FirstBelow(entries, v).Some? {
          var i :| 0 <= i < |entries[1..]| && entries[1..][i].version == FirstBelow(entries, v).value;
          assert entries[i + 1].version == FirstBelow(entries, v).value;
        } else {
          assert forall i :: 0 < i < |entries| ==> entries[i] == entries[1..][i - 1];
        }
      } else {
        assert entries[0].version == FirstBelow(entries, v).value;
      }
    }
  }

  /** In a descending ledger the first entry below a version is the greatest below it. */
  lemma {:induction false} FirstBelowIsGreatest(entries: seq<Entry>, v: Version, i: nat)
    requires Descending(entries) && i < |entries|
    requires Precedes(entries[i].version, v)
    ensures FirstBelow(entries, v).Some?
    ensures entries[i].version == FirstBelow(entries, v).value ||
            Precedes(entries[i].version, FirstBelow(entries, v).value)
  {
    if i > 0 && !Precedes(entries[0].version, v) {
      assert entries[1..][i - 1] == entries[i];
      FirstBelowIsGreatest(entries[1..], v, i - 1);
    }
  }

  lemma {:induction false} FirstBetaFinds(entries: seq<Entry>, v: Version)
    ensures FirstBeta(entries, v).Some? ==>
              && Listed(entries, FirstBeta(entries, v).value)
              && SameCore(FirstBeta(entries, v).value, v) && Precedes(FirstBeta(entries, v).value, v)
  {
    if entries == [] {
    } else {
      FirstBetaFinds(entries[1..], v);
      if FirstBeta(entries, v).Some? {
        if SameCore(entries[0].version, v) && Precedes(entries[0].version, v) {
          assert entries[0].version == FirstBeta(entries, v).value;
        } else {
          var i :| 0 <= i < |entries[1..]| && entries[1..][i].version == FirstBeta(entries, v).value;
          assert entries[i + 1].version == FirstBeta(entries, v).value;
        }
      }
    }
  }

  lemma {:induction false} FirstBetaIsLatest(entries: seq<Entry>, v: Version, i: nat)
    requires Descending(entries) && i < |entries|
    requires SameCore(entries[i].version, v) && Precedes(entries[i].version, v)
    ensures FirstBeta(entries, v).Some?
    ensures entries[i].version == FirstBeta(entries, v).value ||
            Precedes(entries[i].version, FirstBeta(entries, v).value)
  {
    if i > 0 && !(SameCore(entries[0].version, v) && Precedes(entries[0].version, v)) {
      assert entries[1..][i - 1] == entries[i];
      FirstBetaIsLatest(entries[1..], v, i - 1);
    }
  }

  // ----- the graph

  /** The governed entries: all but the historical baseline. */
  ghost predicate Governed(e: Entry, stable: seq<Entry>, beta: seq<Entry>) {
    (e in stable && !e.historical) || e in beta
  }

  ghost predicate Known(v: Version, stable: seq<Entry>, beta: seq<Entry>) {
    Listed(stable, v) || Listed(beta, v)
  }

  /** The only stable entry nothing precedes is the historical baseline, so it is present. */
  lemma BaselinePresent(stable: seq<Entry>, beta: seq<Entry>)
    requires Accepted(stable, beta)
    ensures Listed(stable, BASELINE)
    ensures stable[|stable| - 1].version == BASELINE && stable[|stable| - 1].historical
    ensures forall e :: e in stable && e.version == BASELINE ==> e.historical
  {
    var last := stable[|stable| - 1];
    assert last in stable;
    if !last.historical {
      FirstBelowFinds(stable, last.version);
      var v := FirstBelow(stable, last.version).value;
      var i :| 0 <= i < |stable| && stable[i].version == v;
      PrecedesOrder(v, last.version, v);
    }
    forall e | e in stable && e.version == BASELINE
      ensures e.historical
    {
      var i :| 0 <= i < |stable| && stable[i] == e;
      if i < |stable| - 1 {
        PrecedesOrder(BASELINE, BASELINE, BASELINE);
      }
    }
  }

  /** Every stable release other than the baseline lies above it, and no beta lies below. */
  lemma PreviousStableKnown(e: Entry, stable: seq<Entry>, beta: seq<Entry>)
    requires Accepted(stable, beta) && Governed(e, stable, beta)
    ensures var previous := PreviousStable(stable, e.version).value;
            Listed(stable, previous) && Precedes(previous, e.version)
  {
    FirstBelowFinds(stable, e.version);
  }

  /** "Changes since" leads from each governed entry to a known, strictly earlier release. */
  lemma BaseDescends(e: Entry, stable: seq<Entry>, beta: seq<Entry>)
    requires Accepted(stable, beta) && Governed(e, stable, beta)
    ensures Known(e.changesSince, stable, beta)
    ensures Precedes(e.changesSince, e.version)
    ensures e.changesSince in e.sources
  {
    PreviousStableKnown(e, stable, beta);
  }

  /** Upgrade edges lead from known, strictly earlier releases. */
  lemma SourcesDescend(e: Entry, stable: seq<Entry>, beta: seq<Entry>, s: Version)
    requires Accepted(stable, beta) && Governed(e, stable, beta)
    requires s in e.sources
    ensures Known(s, stable, beta)
    ensures Precedes(s, e.version)
  {
    PreviousStableKnown(e, stable, beta);
    assert SourceAllowed(s, e, PreviousStable(stable, e.version).value, beta);
  }

  ghost function Versions(stable: seq<Entry>, beta: seq<Entry>): set<Version> {
    (set e | e in stable :: e.version) + (set e | e in beta :: e.version)
  }

  /** How many known releases precede `v`. */
  ghost function Rank(v: Version, stable: seq<Entry>, beta: seq<Entry>): nat {
    |set u | u in Versions(stable, beta) && Precedes(u, v)|
  }

  lemma RankDescends(u: Version, v: Version, stable: seq<Entry>, beta: seq<Entry>)
    requires Known(u, stable, beta) && Precedes(u, v)
    ensures Rank(u, stable, beta) < Rank(v, stable, beta)
  {
    var all := Versions(stable, beta);
    var below, above := (set x | x in all && Precedes(x, u)), (set x | x in all && Precedes(x, v));
    assert u in all;
    PrecedesOrder(u, u, u);
    forall x | x in below
      ensures x in above
    {
      PrecedesOrder(x, u, v);
    }
    assert u in above && u !in below;
    assert below + {u} <= above;
    SubsetSize(below + {u}, above);
  }

  lemma KnownEntry(v: Version, stable: seq<Entry>, beta: seq<Entry>) returns (e: Entry)
    requires Accepted(stable, beta)
    requires Known(v, stable, beta) && v != BASELINE
    ensures e.version == v && Governed(e, stable, beta)
  {
    if Listed(stable, v) {
      var i :| 0 <= i < |stable| && stable[i].version == v;
      e := stable[i];
    } else {
      var i :| 0 <= i < |beta| && beta[i].version == v;
      e := beta[i];
    }
  }

  /** `v` declares its changes since `u`. */
  ghost predicate IsBase(u: Version, v: Version, stable: seq<Entry>, beta: seq<Entry>) {
    exists e :: Governed(e, stable, beta) && e.version == v && e.changesSince == u
  }

  /** `v` supports being upgraded to from `u`. */
  ghost predicate Edge(u: Version, v: Version, stable: seq<Entry>, beta: seq<Entry>) {
    exists e :: Governed(e, stable, beta) && e.version == v && u in e.sources
  }

  /** `p` is the stable release just before `v`. */
  ghost predicate JustBefore(p: Version, v: Version, stable: seq<Entry>) {
    && Listed(stable, p) && Precedes(p, v)
    && forall q :: Listed(stable, q) && Precedes(q, v) ==> q == p || Precedes(q, p)
  }

  lemma FirstBelowJustBefore(stable: seq<Entry>, v: Version, p: Version)
    requires Descending(stable)
    ensures FirstBelow(stable, v) == Some(p) <==> JustBefore(p, v, stable)
  {
    FirstBelowFinds(stable, v);
    forall q | Listed(stable, q) && Precedes(q, v)
      ensures FirstBelow(stable, v).Some? &&
              (q == FirstBelow(stable, v).value || Precedes(q, FirstBelow(stable, v).value))
    {
      var i :| 0 <= i < |stable| && stable[i].version == q;
      FirstBelowIsGreatest(stable, v, i);
    }
    if JustBefore(p, v, stable) {
      var first := FirstBelow(stable, v).value;
      PrecedesOrder(first, p, first);
    }
  }

  /** Every governed release supports the upgrade from the stable release just before it, later
      betas too, and from no other stable release; the betas that predate the ledgers count from
      the baseline instead. */
  lemma StableUpgrade(e: Entry, stable: seq<Entry>, beta: seq<Entry>, p: Version)
    requires Accepted(stable, beta) && Governed(e, stable, beta) && p.beta.None?
    ensures p in e.sources <==> if NamesBaseline(e.version) then p == BASELINE else JustBefore(p, e.version, stable)
    ensures p in e.sources ==> Edge(p, e.version, stable, beta)
  {
    FirstBelowJustBefore(stable, e.version, p);
    var previous := PreviousStable(stable, e.version).value;
    if p in e.sources {
      assert SourceAllowed(p, e, previous, beta);
    }
  }

  /** A beta after the first supports the upgrade from the beta before it, which is its base. */
  lemma BetaUpgrade(e: Entry, stable: seq<Entry>, beta: seq<Entry>)
    requires Accepted(stable, beta) && Governed(e, stable, beta)
    requires e.version.beta.Some? && e.version.beta.value > 1
    ensures var before := Version(e.version.major, e.version.minor, e.version.patch, Some(e.version.beta.value - 1));
            e.changesSince == before && Edge(before, e.version, stable, beta) && Listed(beta, before)
  {
  }

  /** `p` is the stable release that `v` builds on. */
  ghost predicate BuildsOn(p: Version, v: Version, stable: seq<Entry>) {
    if v.major == 0 && v.minor == 7 && (v.patch == 0 || v.patch == 1) && v.beta.Some? && v.beta.value in {1, 2, 3, 4}
    then p == Version(0, 6, 5, None) && Listed(stable, p)
    else JustBefore(p, v, stable)
  }

  /** `s` is an earlier beta of the release `v` or of the same core. */
  ghost predicate EarlierBeta(s: Version, v: Version, beta: seq<Entry>) {
    && s.beta.Some? && s.major == v.major && s.minor == v.minor && s.patch == v.patch && Listed(beta, s)
    && (v.beta.Some? ==> s.beta.value < v.beta.value)
  }

  ghost predicate LatestBeta(s: Version, v: Version, beta: seq<Entry>) {
    EarlierBeta(s, v, beta) && forall t :: EarlierBeta(t, v, beta) ==> t.beta.value <= s.beta.value
  }

  /** What an entry that builds on `p` declares. */
  ghost predicate Declares(e: Entry, p: Version, beta: seq<Entry>) {
    var v := e.version;
    && (forall s :: s in e.sources ==> s == p || EarlierBeta(s, v, beta))
    && p in e.sources
    && (if v.beta.Some? && v.beta.value > 1 then
          && e.changesSince == Version(v.major, v.minor, v.patch, Some(v.beta.value - 1))
          && Listed(beta, e.changesSince) && e.changesSince in e.sources
        else e.changesSince == p)
    && (v.beta.None? ==>
          && (forall s :: LatestBeta(s, v, beta) ==> s in e.sources)
          && |BetaSources(e.sources)| <= 1)
  }

  lemma PreviousExact(stable: seq<Entry>, v: Version, p: Version)
    requires StableLedger(stable)
    ensures PreviousStable(stable, v) == Some(p) <==> BuildsOn(p, v, stable)
  {
    FirstBelowJustBefore(stable, v, p);
  }

  lemma LatestExact(beta: seq<Entry>, v: Version, s: Version)
    requires Descending(beta) && v.beta.None?
    ensures FirstBeta(beta, v) == Some(s) <==> LatestBeta(s, v, beta)
  {
    FirstBetaFinds(beta, v);
    forall t | EarlierBeta(t, v, beta)
      ensures FirstBeta(beta, v).Some? && t.beta.value <= FirstBeta(beta, v).value.beta.value
    {
      var i :| 0 <= i < |beta| && beta[i].version == t;
      FirstBetaIsLatest(beta, v, i);
    }
  }

  lemma AllowedExact(s: Version, e: Entry, p: Version, beta: seq<Entry>)
    requires p.beta.None?
    ensures SourceAllowed(s, e, p, beta) <==> s == p || EarlierBeta(s, e.version, beta)
  {
  }

  /** What an entry must declare, in terms of the ledgers alone. */
  lemma EntryExact(e: Entry, stable: seq<Entry>, beta: seq<Entry>)
    requires StableLedger(stable) && BetaLedger(beta)
    ensures EntryHolds(e, stable, beta) <==> exists p :: BuildsOn(p, e.version, stable) && Declares(e, p, beta)
  {
    forall p: Version
      ensures PreviousStable(stable, e.version) == Some(p) <==> BuildsOn(p, e.version, stable)
    {
      PreviousExact(stable, e.version, p);
    }
    if PreviousStable(stable, e.version).Some? {
      var p := PreviousStable(stable, e.version).value;
      PreviousIsStable(stable, e.version);
      EntryDeclares(e, p, stable, beta);
      assert BuildsOn(p, e.version, stable);
    }
  }

  lemma PreviousIsStable(stable: seq<Entry>, v: Version)
    requires StableLedger(stable) && PreviousStable(stable, v).Some?
    ensures PreviousStable(stable, v).value.beta.None?
  {
    FirstBelowFinds(stable, v);
    var i :| 0 <= i < |stable| && stable[i].version == PreviousStable(stable, v).value;
    assert stable[i] in stable;
  }

  lemma EntryDeclares(e: Entry, p: Version, stable: seq<Entry>, beta: seq<Entry>)
    requires BetaLedger(beta) && PreviousStable(stable, e.version) == Some(p) && p.beta.None?
    ensures EntryHolds(e, stable, beta) <==> Declares(e, p, beta)
  {
    forall s: Version
      ensures SourceAllowed(s, e, p, beta) <==> s == p || EarlierBeta(s, e.version, beta)
    {
      AllowedExact(s, e, p, beta);
    }
    if e.version.beta.None? {
      forall s: Version
        ensures FirstBeta(beta, e.version) == Some(s) <==> LatestBeta(s, e.version, beta)
      {
        LatestExact(beta, e.version, s);
      }
    }
  }

  /** A non-empty list of releases, each supporting the upgrade from the one before. */
  ghost predicate UpgradePath(path: seq<Version>, stable: seq<Entry>, beta: seq<Entry>) {
    && path != []
    && forall i :: 0 <= i < |path| - 1 ==> Edge(path[i], path[i + 1], stable, beta)
  }

  /** Following "Changes since" from any governed release strictly descends and ends at the
      baseline; read backwards it is a supported upgrade path from the baseline. */
  lemma {:induction false} ChangesSinceEndsAtBaseline(e: Entry, stable: seq<Entry>, beta: seq<Entry>)
    returns (path: seq<Version>)
    requires Accepted(stable, beta) && Governed(e, stable, beta)
    ensures |path| >= 2 && path[0] == BASELINE && path[|path| - 1] == e.version
    ensures forall i :: 0 <= i < |path| - 1 ==>
              IsBase(path[i], path[i + 1], stable, beta) && Precedes(path[i], path[i + 1])
    ensures UpgradePath(path, stable, beta)
    decreases Rank(e.version, stable, beta)
  {
    BaseDescends(e, stable, beta);
    var base := e.changesSince;
    if base == BASELINE {
      path := [BASELINE, e.version];
    } else {
      var earlier := KnownEntry(base, stable, beta);
      RankDescends(base, e.version, stable, beta);
      var start := ChangesSinceEndsAtBaseline(earlier, stable, beta);
      path := start + [e.version];
      forall i | 0 <= i < |path| - 1
        ensures IsBase(path[i], path[i + 1], stable, beta) && Precedes(path[i], path[i + 1])
        ensures Edge(path[i], path[i + 1], stable, beta)
      {
        if i < |start| - 1 {
          assert path[i] == start[i] && path[i + 1] == start[i + 1];
        } else {
          assert path[i] == base && path[i + 1] == e.version;
        }
      }
    }
  }

  lemma EdgeClimbs(u: Version, v: Version, stable: seq<Entry>, beta: seq<Entry>)
    requires Accepted(stable, beta)
    requires Edge(u, v, stable, beta)
    ensures Precedes(u, v)
  {
    var e :| Governed(e, stable, beta) && e.version == v && u in e.sources;
    SourcesDescend(e, stable, beta, u);
  }

  /** Every upgrade path climbs in version order, so no release can be reached from itself. */
  lemma {:induction false} UpgradesAreAcyclic(path: seq<Version>, stable: seq<Entry>, beta: seq<Entry>)
    requires Accepted(stable, beta)
    requires UpgradePath(path, stable, beta) && |path| >= 2
    ensures Precedes(path[0], path[|path| - 1])
    ensures path[0] != path[|path| - 1]
  {
    var last := |path| - 1;
    assert Edge(path[last - 1], path[last - 1 + 1], stable, beta);
    EdgeClimbs(path[last - 1], path[last], stable, beta);
    if last > 1 {
      UpgradesAreAcyclic(path[..last], stable, beta);
      PrecedesOrder(path[0], path[last - 1], path[last]);
    }
    PrecedesOrder(path[0], path[0], path[0]);
  }

  /** Beta numbers of one core are gap-free from 1. */
  lemma {:induction false} BetasAreGapFree(v: Version, k: nat, stable: seq<Entry>, beta: seq<Entry>)
    requires Accepted(stable, beta)
    requires Listed(beta, v)
    requires v.beta.Some? && 1 <= k <= v.beta.value
    ensures Listed(beta, v.(beta := Some(k)))
    decreases v.beta.value
  {
    if k < v.beta.value {
      var i :| 0 <= i < |beta| && beta[i].version == v;
      assert EntryHolds(beta[i], stable, beta);
      BetasAreGapFree(BetaBefore(v), k, stable, beta);
    } else {
      assert v.(beta := Some(k)) == v;
    }
  }

  lemma {:induction false} BetaSourcesMembers(sources: seq<Version>, s: Version)
    ensures s in BetaSources(sources) <==> s in sources && s.beta.Some?
  {
    if sources == [] {
    } else {
      BetaSourcesMembers(sources[1..], s);
      assert sources == [sources[0]] + sources[1..];
    }
  }

  /** A stable release whose core had betas can be upgraded to from exactly one of them: the
      latest. */
  lemma StableTakesLatestBeta(e: Entry, b: Entry, s: Version, stable: seq<Entry>, beta: seq<Entry>)
    requires Accepted(stable, beta)
    requires e in stable && !e.historical
    requires b in beta && SameCore(b.version, e.version)
    ensures FirstBeta(beta, e.version).Some?
    ensures var latest := FirstBeta(beta, e.version).value;
            && Listed(beta, latest) && SameCore(latest, e.version)
            && (b.version == latest || Precedes(b.version, latest))
            && (s in e.sources && s.beta.Some? <==> s == latest)
  {
    var i :| 0 <= i < |beta| && beta[i] == b;
    FirstBetaIsLatest(beta, e.version, i);
    FirstBetaFinds(beta, e.version);
    var latest := FirstBeta(beta, e.version).value;
    assert EntryHolds(e, stable, beta);
    var j :| 0 <= j < |beta| && beta[j].version == latest;
    assert beta[j] in beta;
    BetaSourcesMembers(e.sources, latest);
    BetaSourcesMembers(e.sources, s);
    OneElement(BetaSources(e.sources), latest, s);
  }

  lemma OneElement<T>(xs: seq<T>, a: T, b: T)
    requires |xs| <= 1 && a in xs
    ensures b in xs <==> b == a
  {
  }

  // ----- loading

  lemma DescendingSnoc(entries: seq<Entry>, e: Entry)
    requires Descending(entries)
    requires entries != [] ==> Precedes(e.version, entries[|entries| - 1].version)
    ensures Descending(entries + [e])
  {
    var all := entries + [e];
    forall i, j | 0 <= i < j < |all|
      ensures Precedes(all[j].version, all[i].version)
    {
      if j == |entries| && i < |entries| - 1 {
        PrecedesOrder(e.version, entries[|entries| - 1].version, entries[i].version);
      }
    }
  }

  /** Comparing neighbours is enough. */
  method StrictlyDescending(entries: seq<Entry>) returns (ok: bool)
    ensures ok <==> Descending(entries)
  {
    var i := 0;
    while i < |entries|
      invariant 0 <= i <= |entries|
      invariant Descending(entries[..i])
    {
      if i > 0 && !Precedes(entries[i].version, entries[i - 1].version) {
        return false;
      }
      DescendingSnoc(entries[..i], entries[i]);
      assert entries[..i + 1] == entries[..i] + [entries[i]];
      i := i + 1;
    }
    assert entries[..i] == entries;
    return true;
  }

  /** At most one entry is marked historical, and only the baseline. */
  method HistoricalMarks(stable: seq<Entry>) returns (ok: bool)
    ensures ok ==> forall e :: e in stable && e.historical ==> e.version == BASELINE
    ensures !ok ==> !StableLedger(stable)
  {
    var marked := false;
    for i := 0 to |stable|
      invariant forall k :: 0 <= k < i && stable[k].historical ==> stable[k].version == BASELINE
      invariant marked ==> exists k :: 0 <= k < i && stable[k].version == BASELINE
    {
      assert stable[i] in stable;
      if stable[i].historical {
        if stable[i].version != BASELINE {
          return false;
        }
        if marked {
          var k :| 0 <= k < i && stable[k].version == BASELINE;
          PrecedesOrder(BASELINE, BASELINE, BASELINE);
          assert !Precedes(stable[i].version, stable[k].version);
          return false;
        }
        marked := true;
      }
    }
    return true;
  }

  method EntriesHold(entries: seq<Entry>, stable: seq<Entry>, beta: seq<Entry>) returns (ok: bool)
    ensures ok <==> forall e :: e in entries && !e.historical ==> EntryHolds(e, stable, beta)
  {
    for i := 0 to |entries|
      invariant forall k :: 0 <= k < i && !entries[k].historical ==> EntryHolds(entries[k], stable, beta)
    {
      assert entries[i] in entries;
      if !entries[i].historical && !EntryHolds(entries[i], stable, beta) {
        return false;
      }
    }
    return true;
  }

  /** Every governed entry links to an anchor of the upgrade guide. */
  predicate Guided(entries: seq<Entry>, anchors: set<string>) {
    forall e :: e in entries && !e.historical ==> e.guideAnchor in anchors
  }

  /** Loads the two ledgers and the anchors of the guide: accepted exactly when every rule holds
      and there is no ledger of builds. */
  method LoadContract(stable: seq<Entry>, beta: seq<Entry>, anchors: set<string>, buildLedger: bool) returns (ok: bool)
    ensures ok <==> !buildLedger && Accepted(stable, beta) && Guided(stable + beta, anchors)
  {
    if buildLedger {
      return false;
    }
    if !(forall e :: e in stable ==> e.version.beta.None?) {
      return false;
    }
    ok := HistoricalMarks(stable);
    if !ok {
      return;
    }
    ok := StrictlyDescending(stable);
    if !ok || stable == [] {
      return false;
    }
    if !(forall e :: e in beta ==> e.version.beta.Some? && e.version.beta.value >= 1 && !e.historical) {
      return false;
    }
    ok := StrictlyDescending(beta);
    if !ok {
      return;
    }
    if !Guided(stable + beta, anchors) {
      return false;
    }
    ok := EntriesHold(stable, stable, beta);
    if !ok {
      return;
    }
    ok := EntriesHold(beta, stable, beta);
  }
}
