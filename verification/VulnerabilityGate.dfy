/** The gate as it runs: it files the evidence by subject and attempt, judges each subject on
    its newest evidence while it accumulates report hashes, sizes and exemption coverage, and
    then weighs the exemptions.
 */
module VulnerabilityGate {
  import opened Basics
  import opened GateModel

  type Evidence = map<Subject, map<nat, Bundle>>

  // ----- filing

  /** Everything filed is a bundle of that subject and attempt. */
  ghost predicate Keyed(o: Options, bundles: seq<Bundle>, filed: Evidence) {
    && (forall s :: s in filed ==> filed[s] != map[])
    && (forall s, a :: s in filed && a in filed[s] ==> filed[s][a] in bundles && EvidenceFor(o, filed[s][a], s, a))
  }

  predicate Occupied(filed: Evidence, s: Subject, a: nat) {
    s in filed && a in filed[s]
  }

  predicate Filed(o: Options, filed: Evidence, b: Bundle) {
    && Resolve(o, b).Some?
    && Occupied(filed, Resolve(o, b).value, b.name.value.attempt)
    && filed[Resolve(o, b).value][b.name.value.attempt] == b
  }

  ghost predicate AllFiled(o: Options, bundles: seq<Bundle>, filed: Evidence) {
    forall b :: b in bundles ==> Filed(o, filed, b)
  }

  lemma CleanSnoc(o: Options, bundles: seq<Bundle>, b: Bundle)
    ensures Clean(o, bundles + [b]) <==>
            Clean(o, bundles) && Resolve(o, b).Some? && forall c :: c in bundles ==> !Clash(o, c, b)
  {
    var all := bundles + [b];
    if Clean(o, all) {
      assert all[|bundles|] == b;
      forall c | c in bundles
        ensures Resolve(o, c).Some? && !Clash(o, c, b)
      {
        var i :| 0 <= i < |bundles| && bundles[i] == c;
        assert all[i] == c && !Clash(o, all[i], all[|bundles|]);
      }
      forall i, j | 0 <= i < j < |bundles|
        ensures !Clash(o, bundles[i], bundles[j])
      {
        assert !Clash(o, all[i], all[j]);
      }
    }
  }

  lemma OccupiedMeansClash(o: Options, bundles: seq<Bundle>, filed: Evidence, b: Bundle)
    requires Keyed(o, bundles, filed) && AllFiled(o, bundles, filed)
    requires Resolve(o, b).Some?
    ensures Occupied(filed, Resolve(o, b).value, b.name.value.attempt) <==>
            exists c :: c in bundles && Clash(o, c, b)
  {
    var s, a := Resolve(o, b).value, b.name.value.attempt;
    if Occupied(filed, s, a) {
      assert Clash(o, filed[s][a], b);
    }
  }

  function File(filed: Evidence, s: Subject, a: nat, b: Bundle): Evidence {
    filed[s := (if s in filed then filed[s] else map[])[a := b]]
  }

  lemma FileKeeps(o: Options, bundles: seq<Bundle>, filed: Evidence, b: Bundle, s: Subject, a: nat)
    requires Keyed(o, bundles, filed)
    requires EvidenceFor(o, b, s, a) && !Occupied(filed, s, a)
    ensures Keyed(o, bundles + [b], File(filed, s, a, b))
    ensures AllFiled(o, bundles, filed) ==> AllFiled(o, bundles + [b], File(filed, s, a, b))
  {
    var after := File(filed, s, a, b);
    assert a in after[s];
    forall t, c | t in after && c in after[t]
      ensures after[t][c] in bundles + [b] && EvidenceFor(o, after[t][c], t, c)
    {
      if t != s || c != a {
        assert after[t][c] == filed[t][c];
      }
    }
  }

  lemma KeyedMore(o: Options, bundles: seq<Bundle>, filed: Evidence, b: Bundle)
    requires Keyed(o, bundles, filed)
    ensures Keyed(o, bundles + [b], filed)
  {
  }

  method CollectEvidence(o: Options, bundles: seq<Bundle>) returns (filed: Evidence, errors: nat)
    ensures errors == 0 <==> Clean(o, bundles)
    ensures Keyed(o, bundles, filed)
    ensures errors == 0 ==> AllFiled(o, bundles, filed)
  {
    filed, errors := map[], 0;
    for k := 0 to |bundles|
      invariant errors == 0 <==> Clean(o, bundles[..k])
      invariant Keyed(o, bundles[..k], filed)
      invariant errors == 0 ==> AllFiled(o, bundles[..k], filed)
    {
      var b := bundles[k];
      ghost var seen := bundles[..k];
      assert bundles[..k + 1] == seen + [b];
      CleanSnoc(o, seen, b);
      KeyedMore(o, seen, filed, b);
      var resolved := Resolve(o, b);
      if resolved.None? {
        errors := errors + 1;
      } else {
        if errors == 0 {
          OccupiedMeansClash(o, seen, filed, b);
        }
        var s, a := resolved.value, b.name.value.attempt;
        if Occupied(filed, s, a) {
          errors := errors + 1;
        } else {
          FileKeeps(o, seen, filed, b, s, a);
          filed := File(filed, s, a, b);
        }
      }
    }
    assert bundles[..|bundles|] == bundles;
  }

  predicate IsMax(attempts: map<nat, Bundle>, a: nat) {
    a in attempts && forall c :: c in attempts ==> c <= a
  }

  method MaxAttempt(attempts: map<nat, Bundle>) returns (a: nat)
    requires attempts != map[]
    ensures IsMax(attempts, a)
  {
    a :| a in attempts;
    var rest := attempts.Keys - {a};
    while rest != {}
      invariant a in attempts && rest <= attempts.Keys
      invariant forall c :: c in attempts && c !in rest ==> c <= a
      decreases rest
    {
      var c :| c in rest;
      rest := rest - {c};
      if a < c {
        a := c;
      }
    }
  }

  // ----- scanning one report

  ghost predicate UniqueIds(xs: seq<Exemption>) {
    forall i, j :: 0 <= i < j < |xs| ==> xs[i].id != xs[j].id
  }

  lemma {:induction false} MatchingMembers(xs: seq<Exemption>, f: Finding, s: Subject, channel: Channel)
    ensures forall x :: x in Matching(xs, f, s, channel) ==> x in xs
  {
    if xs == [] {
    } else {
      MatchingMembers(xs[1..], f, s, channel);
    }
  }

  lemma SameId(xs: seq<Exemption>, x: Exemption, y: Exemption)
    requires UniqueIds(xs) && x in xs && y in xs && x.id == y.id
    ensures x == y
  {
    var i :| 0 <= i < |xs| && xs[i] == x;
    var j :| 0 <= j < |xs| && xs[j] == y;
  }

  lemma ExcusesSnoc(o: Options, x: Exemption, fs: seq<Finding>, f: Finding, s: Subject)
    ensures ExcusesOne(o, x, fs + [f], s) <==> ExcusesOne(o, x, fs, s) || ExcusedBy(o, f, s, x)
  {
    assert (fs + [f])[|fs|] == f;
  }

  /** `after` adds `s` to the coverage of exactly the exemptions that excuse one of `fs`. */
  ghost predicate Covered(o: Options, fs: seq<Finding>, s: Subject, before: map<string, set<Subject>>,
                          after: map<string, set<Subject>>)
  {
    forall x :: x in o.policy.exemptions && x.id in before ==>
                  x.id in after && after[x.id] == before[x.id] + (if ExcusesOne(o, x, fs, s) then {s} else {})
  }

  lemma CoveredSnoc(o: Options, fs: seq<Finding>, f: Finding, s: Subject, before: map<string, set<Subject>>,
                    after: map<string, set<Subject>>, m: Exemption)
    requires UniqueIds(o.policy.exemptions)
    requires Covered(o, fs, s, before, after)
    requires ExcusedBy(o, f, s, m) && m.id in after
    ensures Covered(o, fs + [f], s, before, after[m.id := after[m.id] + {s}])
  {
    MatchingMembers(o.policy.exemptions, f, s, o.channel);
    assert m in Matching(o.policy.exemptions, f, s, o.channel);
    forall x | x in o.policy.exemptions && x.id in before
      ensures ExcusesOne(o, x, fs + [f], s) <==> ExcusesOne(o, x, fs, s) || x.id == m.id
    {
      ExcusesSnoc(o, x, fs, f, s);
      if x.id == m.id {
        SameId(o.policy.exemptions, x, m);
      }
    }
  }

  lemma CoveredSkip(o: Options, fs: seq<Finding>, f: Finding, s: Subject, before: map<string, set<Subject>>,
                    after: map<string, set<Subject>>)
    requires Covered(o, fs, s, before, after)
    requires !ShouldBlock(o, f) || !Excused(o, f, s)
    ensures Covered(o, fs + [f], s, before, after)
  {
    forall x | x in o.policy.exemptions && x.id in before
      ensures ExcusesOne(o, x, fs + [f], s) <==> ExcusesOne(o, x, fs, s)
    {
      ExcusesSnoc(o, x, fs, f, s);
    }
  }

  ghost predicate AllExcused(o: Options, fs: seq<Finding>, s: Subject) {
    forall f :: f in fs ==> ShouldBlock(o, f) ==> Excused(o, f, s)
  }

  /** How many findings do not block, block and are excused, and block for want or surplus of an
      exemption. */
  function Reported(o: Options, fs: seq<Finding>): nat {
    if fs == [] then 0 else Reported(o, fs[..|fs| - 1]) + (if ShouldBlock(o, fs[|fs| - 1]) then 0 else 1)
  }

  function Excepted(o: Options, fs: seq<Finding>, s: Subject): nat {
    if fs == [] then 0
    else Excepted(o, fs[..|fs| - 1], s)
         + (if ShouldBlock(o, fs[|fs| - 1]) && Excused(o, fs[|fs| - 1], s) then 1 else 0)
  }

  function Disputed(o: Options, fs: seq<Finding>, s: Subject): nat {
    if fs == [] then 0
    else Disputed(o, fs[..|fs| - 1], s)
         + (if ShouldBlock(o, fs[|fs| - 1]) && |Matching(o.policy.exemptions, fs[|fs| - 1], s, o.channel)| > 1 then 1
            else 0)
  }

  /** The counts of the findings so far. */
  ghost predicate Counted(o: Options, fs: seq<Finding>, s: Subject, excepted: nat, reported: nat, errors: nat) {
    excepted == Excepted(o, fs, s) && reported == Reported(o, fs) && errors == Disputed(o, fs, s)
  }

  lemma CountedSnoc(o: Options, fs: seq<Finding>, f: Finding, s: Subject, excepted: nat, reported: nat, errors: nat)
    requires Counted(o, fs, s, excepted, reported, errors)
    ensures if !ShouldBlock(o, f) then Counted(o, fs + [f], s, excepted, reported + 1, errors)
            else if Excused(o, f, s) then Counted(o, fs + [f], s, excepted + 1, reported, errors)
            else if |Matching(o.policy.exemptions, f, s, o.channel)| > 1
            then Counted(o, fs + [f], s, excepted, reported, errors + 1)
            else Counted(o, fs + [f], s, excepted, reported, errors)
  {
    assert (fs + [f])[..|fs|] == fs;
  }

  method Scan(o: Options, fs: seq<Finding>, s: Subject, before: map<string, set<Subject>>)
    returns (blocking: nat, excepted: nat, reported: nat, errors: nat, after: map<string, set<Subject>>)
    requires UniqueIds(o.policy.exemptions)
    requires forall x :: x in o.policy.exemptions ==> x.id in before
    ensures blocking + excepted + reported == |fs|
    ensures Counted(o, fs, s, excepted, reported, errors)
    ensures blocking == 0 <==> AllExcused(o, fs, s)
    ensures errors <= blocking
    ensures after.Keys == before.Keys && Covered(o, fs, s, before, after)
  {
    blocking, excepted, reported, errors, after := 0, 0, 0, 0, before;
    for k := 0 to |fs|
      invariant blocking + excepted + reported == k
      invariant Counted(o, fs[..k], s, excepted, reported, errors)
      invariant blocking == 0 <==> AllExcused(o, fs[..k], s)
      invariant errors <= blocking
      invariant after.Keys == before.Keys && Covered(o, fs[..k], s, before, after)
    {
      var f := fs[k];
      assert fs[..k + 1] == fs[..k] + [f];
      CountedSnoc(o, fs[..k], f, s, excepted, reported, errors);
      assert AllExcused(o, fs[..k + 1], s) <==> AllExcused(o, fs[..k], s) && (ShouldBlock(o, f) ==> Excused(o, f, s));
      if !ShouldBlock(o, f) {
        reported := reported + 1;
        CoveredSkip(o, fs[..k], f, s, before, after);
      } else {
        var matches := Matching(o.policy.exemptions, f, s, o.channel);
        if |matches| > 1 {
          errors, blocking := errors + 1, blocking + 1;
          CoveredSkip(o, fs[..k], f, s, before, after);
        } else if |matches| == 1 {
          excepted := excepted + 1;
          MatchingMembers(o.policy.exemptions, f, s, o.channel);
          assert matches == [matches[0]];
          CoveredSnoc(o, fs[..k], f, s, before, after, matches[0]);
          after := after[matches[0].id := after[matches[0].id] + {s}];
        } else {
          blocking := blocking + 1;
          CoveredSkip(o, fs[..k], f, s, before, after);
        }
      }
    }
    assert fs[..|fs|] == fs;
  }

  // ----- judging one subject

  /** The running totals. */
  datatype Tally = Tally(used: set<Digest>, bytes: nat, limitReported: bool, coverage: map<string, set<Subject>>)

  /** Adding the report stays within the limit, or the limit was already reported. */
  predicate Fits(t: Tally, report: Report) {
    t.bytes + report.bytes <= MAX_AGGREGATE_BYTES || t.limitReported
  }

  /** `t` with `report` counted and its hash remembered. */
  function Count(t: Tally, report: Report): Tally {
    t.(used := t.used + {report.hash}, bytes := t.bytes + report.bytes,
       limitReported := t.limitReported || t.bytes + report.bytes > MAX_AGGREGATE_BYTES)
  }

  predicate Held(o: Options, coverage: map<string, set<Subject>>) {
    forall x :: x in o.policy.exemptions ==> x.id in coverage
  }

  /** The verdict carries what the evidence says. */
  predicate Records(v: Verdict, b: Bundle) {
    && b.name.Some? && b.contents.Some? && b.contents.value.contract.Some?
    && v.attempt == Some(b.name.value.attempt)
    && v.imageId == Some(b.contents.value.contract.value.imageId)
    && v.manifestDigest == Some(b.contents.value.contract.value.manifestDigest)
    && v.reportHash == Some(b.contents.value.contract.value.reportHash)
  }

  /** Complaints about the contract of `b`, for subject `s` at attempt `a`. */
  method CheckContract(o: Options, contract: Option<Contract>, s: Subject, a: nat) returns (errors: nat)
    ensures errors == 0 <==> contract.Some? && Binds(o, contract.value, s, a)
  {
    errors := 0;
    if contract.None? {
      return 1;
    }
    var c := contract.value;
    if c.subject != s {
      errors := errors + 1;
    }
    if c.channel != o.channel || c.revision != o.revision || c.runId != o.runId || c.attempt != a ||
      c.policyHash != o.policyHash {
      errors := errors + 1;
    }
  }

  method CheckReport(report: Report, contract: Option<Contract>, before: Tally) returns (errors: nat, after: Tally)
    ensures errors == 0 <==>
            Fits(before, report) && report.hash !in before.used &&
              (contract.Some? ==> contract.value.reportHash == report.hash)
    ensures after == Count(before, report)
  {
    errors, after := 0, before.(bytes := before.bytes + report.bytes);
    if after.bytes > MAX_AGGREGATE_BYTES && !after.limitReported {
      errors, after := errors + 1, after.(limitReported := true);
    }
    if contract.Some? && contract.value.reportHash != report.hash {
      errors := errors + 1;
    }
    if report.hash in after.used {
      errors := errors + 1;
    }
    after := after.(used := after.used + {report.hash});
  }

  /** The evidence gets as far as having its findings looked at. */
  predicate Examined(o: Options, b: Bundle, s: Subject, before: Tally) {
    && Sound(o, b, s) && Fits(before, ReportOf(b)) && ReportOf(b).hash !in before.used
    && ReportOf(b).imageId == b.contents.value.contract.value.imageId && ReportOf(b).findings.Some?
  }

  /** The verdict counts the findings: not blocking, excused, and the rest. */
  ghost predicate CountedIn(v: Verdict, o: Options, fs: seq<Finding>, s: Subject) {
    Counted(o, fs, s, v.excepted, v.reported, v.errors) && v.blocking + v.excepted + v.reported == |fs|
  }

  /** One subject on its newest evidence: admitted exactly when that evidence is good, its report
      is new, and the reports so far fit.  Admitted or not, it tells what the findings are, or
      that they were not looked at. */
  method JudgeBundle(o: Options, b: Bundle, s: Subject, a: nat, before: Tally) returns (v: Verdict, after: Tally)
    requires UniqueIds(o.policy.exemptions) && Held(o, before.coverage)
    requires b.name.Some? && b.name.value.attempt == a
    ensures v.subject == s && Held(o, after.coverage)
    ensures v.allowed <==> v.errors == 0 && v.blocking == 0
    ensures v.allowed <==> Good(o, b, s) && ReportOf(b).hash !in before.used && Fits(before, ReportOf(b))
    ensures v.allowed ==> Records(v, b)
    ensures if Examined(o, b, s, before) then CountedIn(v, o, ReportOf(b).findings.value, s)
            else v.blocking == v.excepted == v.reported == 0 && v.errors > 0
    ensures v.allowed ==> after == Count(before, ReportOf(b)).(coverage := after.coverage)
    ensures v.allowed ==> Covered(o, ReportOf(b).findings.value, s, before.coverage, after.coverage)
  {
    var errors := if b.contents.Some? then b.contents.value.complaints else 1;
    var contract := if b.contents.Some? then b.contents.value.contract else None;
    var report := if b.contents.Some? then b.contents.value.report else None;
    var complaints := CheckContract(o, contract, s, a);
    errors, after := errors + complaints, before;
    if report.None? {
      errors := errors + 1;
    } else {
      complaints, after := CheckReport(report.value, contract, before);
      errors := errors + complaints;
    }
    var blocking, excepted, reported := 0, 0, 0;
    if report.Some? && contract.Some? && errors == 0 {
      if report.value.imageId != contract.value.imageId || report.value.findings.None? {
        errors := errors + 1;
      } else {
        var coverage;
        blocking, excepted, reported, complaints, coverage := Scan(o, report.value.findings.value, s, after.coverage);
        errors, after := errors + complaints, after.(coverage := coverage);
      }
    }
    v := Verdict(s, Some(a),
                 if contract.Some? then Some(contract.value.imageId) else None,
                 if contract.Some? then Some(contract.value.manifestDigest) else None,
                 if contract.Some? then Some(contract.value.reportHash)
                   else if report.Some? then Some(report.value.hash) else None,
                 blocking == 0 && errors == 0, blocking, excepted, reported, errors);
  }

  // ----- judging the whole plan

  ghost function Hashes(chosen: seq<Bundle>): set<Digest> {
    set b | b in chosen :: ReportOf(b).hash
  }

  /** The running totals are those of the evidence chosen so far. */
  ghost predicate Sums(o: Options, chosen: seq<Bundle>, t: Tally) {
    && |chosen| <= |o.plan|
    && t.used == Hashes(chosen) && t.bytes == TotalBytes(chosen) && !t.limitReported
    && Held(o, t.coverage)
    && forall x :: x in o.policy.exemptions ==> t.coverage[x.id] == Coverage(o, x, chosen)
  }

  lemma CoverageSnoc(o: Options, x: Exemption, chosen: seq<Bundle>, b: Bundle)
    requires |chosen| < |o.plan|
    ensures Coverage(o, x, chosen + [b]) ==
            Coverage(o, x, chosen) + (if Covers(o, x, b, o.plan[|chosen|]) then {o.plan[|chosen|]} else {})
  {
    var more := chosen + [b];
    assert forall i :: 0 <= i < |chosen| ==> more[i] == chosen[i];
    assert more[|chosen|] == b;
  }

  lemma SumsSnoc(o: Options, chosen: seq<Bundle>, b: Bundle, before: Tally, after: Tally)
    requires Sums(o, chosen, before) && |chosen| < |o.plan|
    requires Fits(before, ReportOf(b)) && ReportOf(b).findings.Some?
    requires after == Count(before, ReportOf(b)).(coverage := after.coverage)
    requires Covered(o, ReportOf(b).findings.value, o.plan[|chosen|], before.coverage, after.coverage)
    ensures Sums(o, chosen + [b], after)
  {
    assert (chosen + [b])[..|chosen|] == chosen;
    forall x | x in o.policy.exemptions
      ensures x.id in after.coverage && after.coverage[x.id] == Coverage(o, x, chosen + [b])
    {
      CoverageSnoc(o, x, chosen, b);
    }
  }

  lemma HashUsed(chosen: seq<Bundle>, h: Digest)
    ensures h in Hashes(chosen) <==> exists i :: 0 <= i < |chosen| && ReportOf(chosen[i]).hash == h
  {
  }

  lemma AdmitsSnoc(o: Options, bundles: seq<Bundle>, chosen: seq<Bundle>, b: Bundle, t: Tally)
    requires Admits(o, bundles, chosen) && Sums(o, chosen, t) && |chosen| < |o.plan|
    requires Newest(o, bundles, o.plan[|chosen|], b)
    ensures Admits(o, bundles, chosen + [b]) <==>
            Good(o, b, o.plan[|chosen|]) && ReportOf(b).hash !in t.used && Fits(t, ReportOf(b))
  {
    var more := chosen + [b];
    assert more[..|chosen|] == chosen && more[|chosen|] == b;
    HashUsed(chosen, ReportOf(b).hash);
    if Admits(o, bundles, more) {
      assert Good(o, more[|chosen|], o.plan[|chosen|]);
      assert forall i :: 0 <= i < |chosen| ==> ReportOf(more[i]).hash != ReportOf(more[|chosen|]).hash;
    }
  }

  /** A complete choice extends every partial one. */
  lemma WayOn(o: Options, bundles: seq<Bundle>, chosen: seq<Bundle>, all: seq<Bundle>)
    requires Clean(o, bundles) && Admits(o, bundles, chosen) && |chosen| < |all| && Admits(o, bundles, all)
    ensures Newest(o, bundles, o.plan[|chosen|], all[|chosen|])
    ensures Admits(o, bundles, chosen + [all[|chosen|]])
  {
    var k := |chosen|;
    AdmitsPrefix(o, bundles, all, k + 1);
    AdmitsUnique(o, bundles, chosen, all);
    assert all[..k + 1] == chosen + [all[k]];
  }

  /** No complete choice of evidence is admitted. */
  ghost predicate Hopeless(o: Options, bundles: seq<Bundle>) {
    forall all: seq<Bundle> :: |all| == |o.plan| ==> !Admits(o, bundles, all)
  }

  lemma StuckIsHopeless(o: Options, bundles: seq<Bundle>, chosen: seq<Bundle>)
    requires Clean(o, bundles) && Admits(o, bundles, chosen) && |chosen| < |o.plan|
    requires forall b :: Newest(o, bundles, o.plan[|chosen|], b) ==> !Admits(o, bundles, chosen + [b])
    ensures Hopeless(o, bundles)
  {
    forall all: seq<Bundle> | |all| == |o.plan|
      ensures !Admits(o, bundles, all)
    {
      if Admits(o, bundles, all) {
        WayOn(o, bundles, chosen, all);
      }
    }
  }

  lemma MissingIsHopeless(o: Options, bundles: seq<Bundle>, filed: Evidence, chosen: seq<Bundle>)
    requires Clean(o, bundles) && Admits(o, bundles, chosen) && |chosen| < |o.plan|
    requires AllFiled(o, bundles, filed) && o.plan[|chosen|] !in filed
    ensures Hopeless(o, bundles)
  {
    StuckIsHopeless(o, bundles, chosen);
  }

  lemma FiledIsNewest(o: Options, bundles: seq<Bundle>, filed: Evidence, s: Subject, a: nat)
    requires Keyed(o, bundles, filed) && AllFiled(o, bundles, filed)
    requires s in filed && IsMax(filed[s], a)
    ensures Newest(o, bundles, s, filed[s][a])
  {
    forall x | x in bundles && Resolve(o, x) == Some(s)
      ensures x.name.value.attempt <= a
    {
      assert Filed(o, filed, x);
    }
  }

  lemma RefusedIsHopeless(o: Options, bundles: seq<Bundle>, chosen: seq<Bundle>, b: Bundle, t: Tally)
    requires Clean(o, bundles) && Admits(o, bundles, chosen) && Sums(o, chosen, t) && |chosen| < |o.plan|
    requires Newest(o, bundles, o.plan[|chosen|], b)
    requires !(Good(o, b, o.plan[|chosen|]) && ReportOf(b).hash !in t.used && Fits(t, ReportOf(b)))
    ensures Hopeless(o, bundles)
  {
    AdmitsSnoc(o, bundles, chosen, b, t);
    forall c | Newest(o, bundles, o.plan[|chosen|], c)
      ensures !Admits(o, bundles, chosen + [c])
    {
      NewestUnique(o, bundles, o.plan[|chosen|], b, c);
    }
    StuckIsHopeless(o, bundles, chosen);
  }

  ghost predicate AllRecorded(verdicts: seq<Verdict>, chosen: seq<Bundle>) {
    |chosen| == |verdicts| && forall i :: 0 <= i < |verdicts| ==> Records(verdicts[i], chosen[i])
  }

  /** How the judging of the first subjects can stand: all admitted on `chosen`, or none can be. */
  ghost predicate Standing(o: Options, bundles: seq<Bundle>, verdicts: seq<Verdict>, chosen: seq<Bundle>, t: Tally) {
    if forall v :: v in verdicts ==> v.allowed then
      Admits(o, bundles, chosen) && Sums(o, chosen, t) && AllRecorded(verdicts, chosen)
    else
      Hopeless(o, bundles)
  }

  ghost predicate InOrder(o: Options, verdicts: seq<Verdict>) {
    && |verdicts| <= |o.plan|
    && (forall i :: 0 <= i < |verdicts| ==> verdicts[i].subject == o.plan[i])
    && (forall v :: v in verdicts ==> (v.allowed <==> v.errors == 0 && v.blocking == 0))
  }

  lemma StandingMissing(o: Options, bundles: seq<Bundle>, filed: Evidence, verdicts: seq<Verdict>, chosen: seq<Bundle>,
                        t: Tally, v: Verdict, after: Tally)
    requires Clean(o, bundles) && AllFiled(o, bundles, filed)
    requires Standing(o, bundles, verdicts, chosen, t) && |verdicts| < |o.plan|
    requires o.plan[|verdicts|] !in filed && !v.allowed
    ensures Standing(o, bundles, verdicts + [v], chosen, after)
  {
    assert (verdicts + [v])[|verdicts|] == v;
    if forall x :: x in verdicts ==> x.allowed {
      MissingIsHopeless(o, bundles, filed, chosen);
    }
  }

  lemma StandingRefused(o: Options, bundles: seq<Bundle>, verdicts: seq<Verdict>, chosen: seq<Bundle>,
                        t: Tally, b: Bundle, v: Verdict, after: Tally)
    requires Clean(o, bundles)
    requires Standing(o, bundles, verdicts, chosen, t) && |verdicts| < |o.plan|
    requires Newest(o, bundles, o.plan[|verdicts|], b) && !v.allowed
    requires !(Good(o, b, o.plan[|verdicts|]) && ReportOf(b).hash !in t.used && Fits(t, ReportOf(b)))
    ensures Standing(o, bundles, verdicts + [v], chosen, after)
  {
    assert (verdicts + [v])[|verdicts|] == v;
    if forall x :: x in verdicts ==> x.allowed {
      RefusedIsHopeless(o, bundles, chosen, b, t);
    }
  }

  lemma AllowedSnoc(verdicts: seq<Verdict>, v: Verdict)
    requires v.allowed
    ensures (forall x :: x in verdicts + [v] ==> x.allowed) <==> forall x :: x in verdicts ==> x.allowed
  {
    forall x | x in verdicts
      ensures x in verdicts + [v]
    {
    }
  }

  lemma StandingAdmitted(o: Options, bundles: seq<Bundle>, verdicts: seq<Verdict>, chosen: seq<Bundle>,
                         t: Tally, b: Bundle, v: Verdict, after: Tally)
    requires Standing(o, bundles, verdicts, chosen, t) && |verdicts| < |o.plan|
    requires Newest(o, bundles, o.plan[|verdicts|], b) && v.allowed && Records(v, b)
    requires Good(o, b, o.plan[|verdicts|]) && ReportOf(b).hash !in t.used && Fits(t, ReportOf(b))
    requires after == Count(t, ReportOf(b)).(coverage := after.coverage)
    requires Covered(o, ReportOf(b).findings.value, o.plan[|verdicts|], t.coverage, after.coverage)
    ensures Standing(o, bundles, verdicts + [v], chosen + [b], after)
  {
    AllowedSnoc(verdicts, v);
    if forall x :: x in verdicts ==> x.allowed {
      AdmitsSnoc(o, bundles, chosen, b, t);
      SumsSnoc(o, chosen, b, t, after);
    }
  }

  /** The verdict on the next subject of the plan. */
  method JudgeNext(o: Options, ghost bundles: seq<Bundle>, filed: Evidence, ghost verdicts: seq<Verdict>, s: Subject,
                   t: Tally, ghost chosen: seq<Bundle>)
    returns (v: Verdict, after: Tally, ghost more: seq<Bundle>)
    requires UniqueIds(o.policy.exemptions) && Held(o, t.coverage) && Keyed(o, bundles, filed)
    requires |verdicts| < |o.plan| && o.plan[|verdicts|] == s
    ensures v.subject == s && Held(o, after.coverage)
    ensures v.allowed <==> v.errors == 0 && v.blocking == 0
    ensures Clean(o, bundles) && AllFiled(o, bundles, filed) && Standing(o, bundles, verdicts, chosen, t)
            ==> Standing(o, bundles, verdicts + [v], more, after)
  {
    ghost var sound := Clean(o, bundles) && AllFiled(o, bundles, filed) && Standing(o, bundles, verdicts, chosen, t);
    v, after, more := Verdict(s, None, None, None, None, false, 0, 0, 0, 1), t, chosen;
    if s !in filed {
      if sound {
        StandingMissing(o, bundles, filed, verdicts, chosen, t, v, after);
      }
    } else {
      var a := MaxAttempt(filed[s]);
      var b := filed[s][a];
      assert EvidenceFor(o, b, s, a);
      v, after := JudgeBundle(o, b, s, a, t);
      if sound {
        FiledIsNewest(o, bundles, filed, s, a);
        if v.allowed {
          StandingAdmitted(o, bundles, verdicts, chosen, t, b, v, after);
          more := chosen + [b];
        } else {
          StandingRefused(o, bundles, verdicts, chosen, t, b, v, after);
        }
      }
    }
  }

  method JudgeAll(o: Options, ghost bundles: seq<Bundle>, filed: Evidence, start: Tally)
    returns (verdicts: seq<Verdict>, errors: nat, t: Tally, ghost chosen: seq<Bundle>)
    requires UniqueIds(o.policy.exemptions) && Sums(o, [], start)
    requires Keyed(o, bundles, filed)
    ensures |verdicts| == |o.plan| && InOrder(o, verdicts) && Held(o, t.coverage)
    ensures (forall v :: v in verdicts ==> v.allowed) ==> errors == 0
    ensures Clean(o, bundles) && AllFiled(o, bundles, filed) ==> Standing(o, bundles, verdicts, chosen, t)
  {
    verdicts, errors, t, chosen := [], 0, start, [];
    for k := 0 to |o.plan|
      invariant |verdicts| == k && InOrder(o, verdicts) && Held(o, t.coverage)
      invariant (forall v :: v in verdicts ==> v.allowed) ==> errors == 0
      invariant Clean(o, bundles) && AllFiled(o, bundles, filed) ==> Standing(o, bundles, verdicts, chosen, t)
    {
      var v, after, more := JudgeNext(o, bundles, filed, verdicts, o.plan[k], t, chosen);
      assert forall x :: x in verdicts + [v] <==> x in verdicts || x == v;
      verdicts, errors, t, chosen := verdicts + [v], errors + v.errors, after, more;
    }
  }

  // ----- weighing the exemptions

  predicate Justified(x: Exemption, covered: set<Subject>) {
    covered != {} && forall r, a :: r in x.roles && a in x.archs ==> Subject(r, a) in covered
  }

  /** Complaints about exemptions that are stale or broader than what they excuse. */
  method WeighExemptions(o: Options, coverage: map<string, set<Subject>>) returns (errors: nat)
    requires Held(o, coverage)
    ensures errors == 0 <==>
            forall x :: x in o.policy.exemptions && o.channel in x.channels ==> Justified(x, coverage[x.id])
  {
    errors := 0;
    var xs := o.policy.exemptions;
    for k := 0 to |xs|
      invariant errors == 0 <==> forall x :: x in xs[..k] && o.channel in x.channels ==> Justified(x, coverage[x.id])
    {
      var x := xs[k];
      assert xs[..k + 1] == xs[..k] + [x];
      if o.channel in x.channels {
        if coverage[x.id] == {} {
          errors := errors + 1;
        } else if exists r | r in x.roles :: exists a | a in x.archs :: Subject(r, a) !in coverage[x.id] {
          errors := errors + 1;
        }
      }
    }
    assert xs[..|xs|] == xs;
  }

  // ----- the gate

  /** The decision `d` on these bundles: its verdicts follow the plan, and it allows the release
      exactly when the release is admissible, recording the newest evidence of every subject. */
  ghost predicate Decides(o: Options, bundles: seq<Bundle>, d: Decision) {
    && d.channel == o.channel && d.revision == o.revision && d.runId == o.runId
    && d.attempt == o.attempt && d.policyHash == o.policyHash
    && |d.subjects| == |o.plan| && InOrder(o, d.subjects)
    && (d.allow <==> Admissible(o, bundles))
    && (d.allow ==> d.errors == 0 && Backed(o, bundles, d.subjects))
  }

  ghost predicate Backed(o: Options, bundles: seq<Bundle>, verdicts: seq<Verdict>) {
    forall v :: v in verdicts ==> v.allowed && exists b :: Newest(o, bundles, v.subject, b) && Records(v, b)
  }

  lemma StandingBacked(o: Options, bundles: seq<Bundle>, verdicts: seq<Verdict>, chosen: seq<Bundle>, t: Tally)
    requires Standing(o, bundles, verdicts, chosen, t) && InOrder(o, verdicts)
    requires forall v :: v in verdicts ==> v.allowed
    ensures Backed(o, bundles, verdicts)
  {
    forall v | v in verdicts
      ensures exists b :: Newest(o, bundles, v.subject, b) && Records(v, b)
    {
      var i :| 0 <= i < |verdicts| && verdicts[i] == v;
      assert Newest(o, bundles, v.subject, chosen[i]) && Records(v, chosen[i]);
    }
  }

  lemma EarnedIsJustified(o: Options, chosen: seq<Bundle>, t: Tally)
    requires Sums(o, chosen, t)
    ensures AllEarned(o, chosen) <==>
            forall x :: x in o.policy.exemptions && o.channel in x.channels ==> Justified(x, t.coverage[x.id])
  {
    forall x | x in o.policy.exemptions
      ensures Earned(o, x, chosen) <==> Justified(x, t.coverage[x.id])
    {
    }
  }

  lemma AdmissibleByChoice(o: Options, bundles: seq<Bundle>, chosen: seq<Bundle>)
    requires Clean(o, bundles) && Admits(o, bundles, chosen) && |chosen| == |o.plan|
    ensures Admissible(o, bundles) <==> AllEarned(o, chosen)
  {
    if Admissible(o, bundles) {
      var other :| AdmittedOn(o, bundles, other);
      AdmitsUnique(o, bundles, chosen, other);
      assert other[..|chosen|] == other;
    }
    if AllEarned(o, chosen) {
      assert AdmittedOn(o, bundles, chosen);
    }
  }

  /** Before any report is scanned no exemption covers anything. */
  method StartTally(o: Options) returns (t: Tally)
    ensures Sums(o, [], t)
  {
    var coverage: map<string, set<Subject>> := map[];
    var xs := o.policy.exemptions;
    for k := 0 to |xs|
      invariant forall x :: x in xs[..k] ==> x.id in coverage
      invariant forall id :: id in coverage ==> coverage[id] == {}
    {
      coverage := coverage[xs[k].id := {}];
    }
    assert xs[..|xs|] == xs;
    t := Tally({}, 0, false, coverage);
  }

  method EvaluateGate(o: Options, bundles: seq<Bundle>) returns (d: Decision)
    requires UniqueIds(o.policy.exemptions) && Complete(o.plan)
    ensures Decides(o, bundles, d)
  {
    var filed, misfiled := CollectEvidence(o, bundles);
    var start := StartTally(o);
    var verdicts, complaints, t, chosen := JudgeAll(o, bundles, filed, start);
    var unjustified := WeighExemptions(o, t.coverage);
    var errors := misfiled + complaints + unjustified;
    var all := forall v | v in verdicts :: v.allowed;
    d := Decision(errors == 0 && |verdicts| == |ROLES| * |ARCHS| && all,
                  o.channel, o.revision, o.runId, o.attempt, o.policyHash, verdicts, errors);
    if misfiled == 0 && all {
      AdmissibleByChoice(o, bundles, chosen);
      EarnedIsJustified(o, chosen, t);
      StandingBacked(o, bundles, verdicts, chosen, t);
    }
  }

  // ----- the later check of one image

  datatype Expectation = Expectation(
    subject: Subject,
    channel: Channel,
    revision: string,
    runId: string,
    attempt: nat,
    policyHash: Digest,
    manifestDigest: Digest)

  /** A verdict that admits its subject on evidence no newer than the run. */
  predicate Admitted(v: Verdict, attempt: nat) {
    && v.attempt.Some? && v.attempt.value <= attempt
    && v.imageId.Some? && v.manifestDigest.Some? && v.reportHash.Some?
    && v.allowed && v.blocking == 0 && v.errors == 0
  }

  predicate SameRun(d: Decision, e: Expectation) {
    && d.channel == e.channel && d.revision == e.revision && d.policyHash == e.policyHash
    && d.runId == e.runId && d.attempt == e.attempt
  }

  /** What it takes for an image to pass. */
  ghost predicate Passes(d: Decision, e: Expectation) {
    && d.allow && SameRun(d, e) && d.errors == 0
    && |d.subjects| == SUBJECT_COUNT
    && OnePerSubject(d.subjects)
    && (forall v :: v in d.subjects ==> Admitted(v, e.attempt))
    && exists v :: v in d.subjects && v.subject == e.subject && v.manifestDigest == Some(e.manifestDigest)
  }

  function Select(vs: seq<Verdict>, s: Subject): seq<Verdict> {
    if vs == [] then [] else (if vs[0].subject == s then [vs[0]] else []) + Select(vs[1..], s)
  }

  ghost predicate OnePerSubject(vs: seq<Verdict>) {
    forall i, j :: 0 <= i < j < |vs| ==> vs[i].subject != vs[j].subject
  }

  lemma {:induction false} SelectMembers(vs: seq<Verdict>, s: Subject)
    ensures forall v :: v in Select(vs, s) <==> v in vs && v.subject == s
  {
    if vs == [] {
    } else {
      SelectMembers(vs[1..], s);
      assert vs == [vs[0]] + vs[1..];
    }
  }

  lemma {:induction false} SelectNone(vs: seq<Verdict>, s: Subject)
    requires forall v :: v in vs ==> v.subject != s
    ensures Select(vs, s) == []
  {
    if vs == [] {
    } else {
      SelectNone(vs[1..], s);
    }
  }

  lemma {:induction false} SelectOne(vs: seq<Verdict>, s: Subject)
    requires OnePerSubject(vs)
    ensures |Select(vs, s)| <= 1
  {
    if vs == [] {
    } else {
      SelectOne(vs[1..], s);
      if vs[0].subject == s {
        SelectNone(vs[1..], s);
      }
    }
  }

  /** The check goes through exactly when every verdict admits its own subject and this image is
      the one recorded. */
  method VerifySubject(d: Decision, e: Expectation) returns (ok: bool)
    ensures ok <==> Passes(d, e)
  {
    if !d.allow || !SameRun(d, e) || d.errors != 0 || |d.subjects| != SUBJECT_COUNT {
      return false;
    }
    var vs := d.subjects;
    var seen: set<Subject> := {};
    for k := 0 to |vs|
      invariant forall s :: s in seen <==> exists i :: 0 <= i < k && vs[i].subject == s
      invariant forall i, j :: 0 <= i < j < k ==> vs[i].subject != vs[j].subject
      invariant forall i :: 0 <= i < k ==> Admitted(vs[i], e.attempt)
    {
      assert vs[k] in vs;
      if vs[k].subject in seen || !Admitted(vs[k], e.attempt) {
        return false;
      }
      seen := seen + {vs[k].subject};
    }
    var matches := Select(vs, e.subject);
    SelectMembers(vs, e.subject);
    SelectOne(vs, e.subject);
    ok := |matches| == 1 && matches[0].manifestDigest == Some(e.manifestDigest);
    if ok {
      assert matches[0] in matches;
    }
  }

  function ManifestOf(b: Bundle): Option<Digest> {
    if b.contents.Some? && b.contents.value.contract.Some? then Some(b.contents.value.contract.value.manifestDigest)
    else None
  }

  lemma AllAdmitted(o: Options, bundles: seq<Bundle>, verdicts: seq<Verdict>)
    requires Complete(o.plan) && |verdicts| == |o.plan| && InOrder(o, verdicts) && Backed(o, bundles, verdicts)
    ensures OnePerSubject(verdicts)
    ensures forall v :: v in verdicts ==> Admitted(v, o.attempt)
  {
    forall v | v in verdicts
      ensures Admitted(v, o.attempt)
    {
      var b :| Newest(o, bundles, v.subject, b) && Records(v, b);
    }
  }

  lemma RecordedDigest(o: Options, bundles: seq<Bundle>, verdicts: seq<Verdict>, s: Subject, digest: Digest)
    requires Clean(o, bundles)
    requires Complete(o.plan) && |verdicts| == |o.plan| && InOrder(o, verdicts) && Backed(o, bundles, verdicts)
    ensures (exists v :: v in verdicts && v.subject == s && v.manifestDigest == Some(digest)) <==>
            exists b :: Newest(o, bundles, s, b) && ManifestOf(b) == Some(digest)
  {
    if v :| v in verdicts && v.subject == s && v.manifestDigest == Some(digest) {
      var b :| Newest(o, bundles, s, b) && Records(v, b);
    }
    if b :| Newest(o, bundles, s, b) && ManifestOf(b) == Some(digest) {
      assert s in o.plan;
      var i :| 0 <= i < |o.plan| && o.plan[i] == s;
      var v := verdicts[i];
      assert v in verdicts;
      var c :| Newest(o, bundles, s, c) && Records(v, c);
      NewestUnique(o, bundles, s, b, c);
    }
  }

  /** From the gate to the check: once a release is allowed, an image passes, for any subject, if
      and only if it is the image in that subject's newest evidence. */
  lemma HandOff(o: Options, bundles: seq<Bundle>, d: Decision, s: Subject, digest: Digest)
    requires Complete(o.plan) && Decides(o, bundles, d) && d.allow
    ensures Passes(d, Expectation(s, o.channel, o.revision, o.runId, o.attempt, o.policyHash, digest)) <==>
            exists b :: Newest(o, bundles, s, b) && ManifestOf(b) == Some(digest)
  {
    AllAdmitted(o, bundles, d.subjects);
    RecordedDigest(o, bundles, d.subjects, s, digest);
  }
}
