/** The image vulnerability gate: from scan evidence for every image of a release to one allow
    or deny decision, and the later check of one image against that decision.

    Messages are not modelled: an error is counted, since only whether there is one decides.
    Parsing is represented by its outcome.
 */
module GateModel {
  import opened Basics
  import opened Arithmetic

  const MAX_AGGREGATE_BYTES: nat := 256 * 1024 * 1024

  datatype Role = Standalone | Dataplane | DataplaneStrict | Controller | Tools | Keysigner
  datatype Arch = Amd64v2 | Amd64 | Amd64v4 | Arm64 | Riscv64
  datatype Channel = Stable | Beta | Build
  datatype Severity = Unknown | Low | Medium | High | Critical

  const ROLES: seq<Role> := [Standalone, Dataplane, DataplaneStrict, Controller, Tools, Keysigner]
  const ARCHS: seq<Arch> := [Amd64v2, Amd64, Amd64v4, Arm64, Riscv64]

  /** Six roles in five architectures. */
  const SUBJECT_COUNT: nat := 30

  datatype Subject = Subject(role: Role, arch: Arch)

  datatype Finding = Finding(
    vulnerabilityId: string,
    packageName: string,
    packagePurl: string,
    packageType: string,
    installedVersion: string,
    fixedVersion: string,
    severity: Severity)

  datatype Exemption = Exemption(id: string, finding: Finding, roles: seq<Role>, channels: seq<Channel>,
                                 archs: seq<Arch>)

  datatype Rules = Rules(block: set<Severity>, blockWhenFixed: set<Severity>)

  /** A validated policy. */
  datatype Policy = Policy(rules: map<Channel, Rules>, exemptions: seq<Exemption>)

  type Digest = string

  datatype Contract = Contract(
    subject: Subject,
    channel: Channel,
    revision: string,
    imageId: Digest,
    manifestDigest: Digest,
    runId: string,
    attempt: nat,
    policyHash: Digest,
    reportHash: Digest)

  /** A report: its size and hash, the image it names, and its findings if it parses. */
  datatype Report = Report(bytes: nat, hash: Digest, imageId: Digest, findings: Option<seq<Finding>>)

  /** A loaded bundle; `contract` is None when missing or invalid. */
  datatype Contents = Contents(complaints: nat, contract: Option<Contract>, report: Option<Report>)

  /** An artifact name, once it matches the general pattern. */
  datatype Name = Name(runId: string, attempt: nat, suffix: string)

  /** Evidence for one subject; `contents` is None when loading fails. */
  datatype Bundle = Bundle(name: Option<Name>, contents: Option<Contents>)

  datatype Options = Options(
    policy: Policy,
    policyHash: Digest,
    channel: Channel,
    revision: string,
    runId: string,
    attempt: nat,
    plan: seq<Subject>,
    suffixes: map<Subject, string>)

  datatype Verdict = Verdict(
    subject: Subject,
    attempt: Option<nat>,
    imageId: Option<Digest>,
    manifestDigest: Option<Digest>,
    reportHash: Option<Digest>,
    allowed: bool,
    blocking: nat,
    excepted: nat,
    reported: nat,
    errors: nat)

  datatype Decision = Decision(
    allow: bool,
    channel: Channel,
    revision: string,
    runId: string,
    attempt: nat,
    policyHash: Digest,
    subjects: seq<Verdict>,
    errors: nat)

  // ----- the subjects of a release

  function Row(role: Role, archs: seq<Arch>): seq<Subject> {
    if archs == [] then [] else [Subject(role, archs[0])] + Row(role, archs[1..])
  }

  function Product(roles: seq<Role>, archs: seq<Arch>): seq<Subject> {
    if roles == [] then [] else Row(roles[0], archs) + Product(roles[1..], archs)
  }

  ghost predicate Distinct<T>(s: seq<T>) {
    forall i, j :: 0 <= i < j < |s| ==> s[i] != s[j]
  }

  lemma {:induction false} RowMembers(role: Role, archs: seq<Arch>)
    ensures |Row(role, archs)| == |archs|
    ensures forall i :: 0 <= i < |archs| ==> Row(role, archs)[i] == Subject(role, archs[i])
    ensures forall s :: s in Row(role, archs) <==> s.role == role && s.arch in archs
  {
    if archs == [] {
    } else {
      RowMembers(role, archs[1..]);
      assert archs == [archs[0]] + archs[1..];
    }
  }

  lemma {:induction false} ProductMembers(roles: seq<Role>, archs: seq<Arch>)
    ensures forall s :: s in Product(roles, archs) <==> s.role in roles && s.arch in archs
  {
    if roles == [] {
    } else {
      RowMembers(roles[0], archs);
      ProductMembers(roles[1..], archs);
      assert roles == [roles[0]] + roles[1..];
    }
  }

  lemma DistinctAppend<T>(s: seq<T>, t: seq<T>)
    requires Distinct(s) && Distinct(t) && forall x :: x in s ==> x !in t
    ensures Distinct(s + t)
  {
    forall i, j | 0 <= i < j < |s + t|
      ensures (s + t)[i] != (s + t)[j]
    {
      if i < |s| <= j {
        assert s[i] in s && t[j - |s|] in t;
      }
    }
  }

  lemma RowDistinct(role: Role, archs: seq<Arch>)
    requires Distinct(archs)
    ensures Distinct(Row(role, archs))
  {
    RowMembers(role, archs);
  }

  lemma {:induction false} ProductDistinct(roles: seq<Role>, archs: seq<Arch>)
    requires Distinct(roles) && Distinct(archs)
    ensures Distinct(Product(roles, archs))
  {
    if roles == [] {
    } else {
      RowMembers(roles[0], archs);
      RowDistinct(roles[0], archs);
      ProductMembers(roles[1..], archs);
      ProductDistinct(roles[1..], archs);
      DistinctAppend(Row(roles[0], archs), Product(roles[1..], archs));
    }
  }

  lemma {:induction false} ProductSize(roles: seq<Role>, archs: seq<Arch>)
    ensures |Product(roles, archs)| == |roles| * |archs|
  {
    if roles == [] {
    } else {
      RowMembers(roles[0], archs);
      ProductSize(roles[1..], archs);
      MulDistributes(|roles[1..]|, 1, |archs|);
    }
  }

  lemma AllListed()
    ensures Distinct(ROLES) && forall r: Role :: r in ROLES
    ensures Distinct(ARCHS) && forall a: Arch :: a in ARCHS
  {
    forall r: Role
      ensures r in ROLES
    {
      match r
      case Standalone => assert ROLES[0] == r;
      case Dataplane => assert ROLES[1] == r;
      case DataplaneStrict => assert ROLES[2] == r;
      case Controller => assert ROLES[3] == r;
      case Tools => assert ROLES[4] == r;
      case Keysigner => assert ROLES[5] == r;
    }
    forall a: Arch
      ensures a in ARCHS
    {
      match a
      case Amd64v2 => assert ARCHS[0] == a;
      case Amd64 => assert ARCHS[1] == a;
      case Amd64v4 => assert ARCHS[2] == a;
      case Arm64 => assert ARCHS[3] == a;
      case Riscv64 => assert ARCHS[4] == a;
    }
  }

  lemma ProductComplete(roles: seq<Role>, archs: seq<Arch>)
    requires Distinct(roles) && forall r: Role :: r in roles
    requires Distinct(archs) && forall a: Arch :: a in archs
    ensures |Product(roles, archs)| == |roles| * |archs|
    ensures Distinct(Product(roles, archs))
    ensures forall s: Subject :: s in Product(roles, archs)
  {
    ProductMembers(roles, archs);
    ProductDistinct(roles, archs);
    ProductSize(roles, archs);
  }

  /** A plan that names every role in every architecture, once. */
  ghost predicate Complete(plan: seq<Subject>) {
    |plan| == SUBJECT_COUNT && Distinct(plan) && forall s: Subject :: s in plan
  }

  lemma MatrixIsComplete()
    ensures Complete(Product(ROLES, ARCHS))
  {
    AllListed();
    ProductComplete(ROLES, ARCHS);
  }

  // ----- findings

  predicate ShouldBlock(o: Options, f: Finding) {
    o.channel in o.policy.rules &&
    var rules := o.policy.rules[o.channel];
    f.severity in rules.block || (f.fixedVersion != "" && f.severity in rules.blockWhenFixed)
  }

  predicate Matches(x: Exemption, f: Finding, s: Subject, channel: Channel) {
    channel in x.channels && s.role in x.roles && s.arch in x.archs && x.finding == f
  }

  function Matching(exemptions: seq<Exemption>, f: Finding, s: Subject, channel: Channel): seq<Exemption> {
    if exemptions == [] then []
    else (if Matches(exemptions[0], f, s, channel) then [exemptions[0]] else [])
         + Matching(exemptions[1..], f, s, channel)
  }

  /** A blocking finding is excused by exactly one exemption. */
  predicate Excused(o: Options, f: Finding, s: Subject) {
    |Matching(o.policy.exemptions, f, s, o.channel)| == 1
  }

  // ----- evidence

  predicate Names(o: Options, name: Name, s: Subject) {
    s in o.suffixes && o.suffixes[s] == name.suffix
  }

  function Candidates(o: Options, subjects: seq<Subject>, name: Name): seq<Subject> {
    if subjects == [] then []
    else (if Names(o, name, subjects[0]) then [subjects[0]] else []) + Candidates(o, subjects[1..], name)
  }

  /** The subject a bundle is evidence for, if its name is one of this run's. */
  function Resolve(o: Options, b: Bundle): Option<Subject> {
    if b.name.None? || b.name.value.runId != o.runId || b.name.value.attempt > o.attempt then None
    else
      var found := Candidates(o, o.plan, b.name.value);
      if |found| == 1 then Some(found[0]) else None
  }

  /** Bundle `b` is evidence for `s` from attempt `a`. */
  predicate EvidenceFor(o: Options, b: Bundle, s: Subject, a: nat) {
    Resolve(o, b) == Some(s) && b.name.value.attempt == a
  }

  // ----- what an allow decision means

  /** `b` is the newest evidence for `s`. */
  ghost predicate Newest(o: Options, bundles: seq<Bundle>, s: Subject, b: Bundle) {
    && b in bundles
    && Resolve(o, b) == Some(s)
    && forall x :: x in bundles && Resolve(o, x) == Some(s) ==> x.name.value.attempt <= b.name.value.attempt
  }

  /** The contract binds this subject, channel, revision, run, attempt and policy. */
  predicate Binds(o: Options, c: Contract, s: Subject, attempt: nat) {
    && c.subject == s && c.channel == o.channel && c.revision == o.revision
    && c.runId == o.runId && c.attempt == attempt && c.policyHash == o.policyHash
  }

  /** The evidence is complete, undisputed, and bound to the subject and to its report. */
  predicate Sound(o: Options, b: Bundle, s: Subject) {
    && b.name.Some?
    && b.contents.Some? && b.contents.value.complaints == 0
    && b.contents.value.contract.Some? && Binds(o, b.contents.value.contract.value, s, b.name.value.attempt)
    && b.contents.value.report.Some?
    && b.contents.value.contract.value.reportHash == b.contents.value.report.value.hash
  }

  /** The report is about the bound image and every blocking finding in it is excused. */
  predicate Cleared(o: Options, b: Bundle, s: Subject)
    requires Sound(o, b, s)
  {
    var report := b.contents.value.report.value;
    && report.imageId == b.contents.value.contract.value.imageId
    && report.findings.Some?
    && forall f :: f in report.findings.value ==> ShouldBlock(o, f) ==> Excused(o, f, s)
  }

  predicate Good(o: Options, b: Bundle, s: Subject) {
    Sound(o, b, s) && Cleared(o, b, s)
  }

  function ReportOf(b: Bundle): Report {
    if b.contents.Some? && b.contents.value.report.Some? then b.contents.value.report.value
    else Report(0, "", "", None)
  }

  function TotalBytes(chosen: seq<Bundle>): nat {
    if chosen == [] then 0 else TotalBytes(chosen[..|chosen| - 1]) + ReportOf(chosen[|chosen| - 1]).bytes
  }

  /** `f` is a blocking finding that `x` alone excuses. */
  predicate ExcusedBy(o: Options, f: Finding, s: Subject, x: Exemption) {
    ShouldBlock(o, f) && Matching(o.policy.exemptions, f, s, o.channel) == [x]
  }

  ghost predicate ExcusesOne(o: Options, x: Exemption, fs: seq<Finding>, s: Subject) {
    exists f :: f in fs && ExcusedBy(o, f, s, x)
  }

  /** `x` excuses a blocking finding in the evidence `b` for `s`. */
  ghost predicate Covers(o: Options, x: Exemption, b: Bundle, s: Subject) {
    ReportOf(b).findings.Some? && ExcusesOne(o, x, ReportOf(b).findings.value, s)
  }

  /** The subjects in whose chosen evidence `x` excuses a finding. */
  ghost function Coverage(o: Options, x: Exemption, chosen: seq<Bundle>): set<Subject>
    requires |chosen| <= |o.plan|
  {
    set i | 0 <= i < |chosen| && Covers(o, x, chosen[i], o.plan[i]) :: o.plan[i]
  }

  /** Every bundle belongs to this run, and no two to the same subject and attempt. */
  ghost predicate Clean(o: Options, bundles: seq<Bundle>) {
    && (forall b :: b in bundles ==> Resolve(o, b).Some?)
    && (forall i, j :: 0 <= i < j < |bundles| ==> !Clash(o, bundles[i], bundles[j]))
  }

  predicate Clash(o: Options, b: Bundle, c: Bundle) {
    Resolve(o, b).Some? && Resolve(o, b) == Resolve(o, c) && b.name.value.attempt == c.name.value.attempt
  }

  /** `chosen` is good newest evidence for the first subjects of the plan, no report is used
      twice, and the reports are within the limit. */
  ghost predicate Admits(o: Options, bundles: seq<Bundle>, chosen: seq<Bundle>) {
    && |chosen| <= |o.plan|
    && (forall i :: 0 <= i < |chosen| ==> Newest(o, bundles, o.plan[i], chosen[i]) && Good(o, chosen[i], o.plan[i]))
    && (forall i, j :: 0 <= i < j < |chosen| ==> ReportOf(chosen[i]).hash != ReportOf(chosen[j]).hash)
    && TotalBytes(chosen) <= MAX_AGGREGATE_BYTES
  }

  /** `x` is needed, by every subject it is granted for. */
  ghost predicate Earned(o: Options, x: Exemption, chosen: seq<Bundle>)
    requires |chosen| <= |o.plan|
  {
    && Coverage(o, x, chosen) != {}
    && forall r, a :: r in x.roles && a in x.archs ==> Subject(r, a) in Coverage(o, x, chosen)
  }

  ghost predicate AllEarned(o: Options, chosen: seq<Bundle>)
    requires |chosen| <= |o.plan|
  {
    forall x :: x in o.policy.exemptions && o.channel in x.channels ==> Earned(o, x, chosen)
  }

  /** What it takes for a release to be allowed. */
  ghost predicate Admissible(o: Options, bundles: seq<Bundle>) {
    Clean(o, bundles) && exists chosen :: AdmittedOn(o, bundles, chosen)
  }

  ghost predicate AdmittedOn(o: Options, bundles: seq<Bundle>, chosen: seq<Bundle>) {
    |chosen| == |o.plan| && Admits(o, bundles, chosen) && AllEarned(o, chosen)
  }

  // ----- what the searches find

  /** Blocking by severity, and by a fix that is to be had. */
  lemma BlocksExactly(o: Options, f: Finding)
    requires o.channel in o.policy.rules
    ensures var rules := o.policy.rules[o.channel];
            if f.fixedVersion == "" then ShouldBlock(o, f) <==> f.severity in rules.block
            else ShouldBlock(o, f) <==> f.severity in rules.block + rules.blockWhenFixed
  {
  }

  /** `x` is granted for this finding, word by word, in this subject and channel. */
  ghost predicate Granted(x: Exemption, f: Finding, s: Subject, channel: Channel) {
    && (exists i :: 0 <= i < |x.channels| && x.channels[i] == channel)
    && (exists i :: 0 <= i < |x.roles| && x.roles[i] == s.role)
    && (exists i :: 0 <= i < |x.archs| && x.archs[i] == s.arch)
    && x.finding.vulnerabilityId == f.vulnerabilityId && x.finding.packageName == f.packageName
    && x.finding.packagePurl == f.packagePurl && x.finding.packageType == f.packageType
    && x.finding.installedVersion == f.installedVersion && x.finding.fixedVersion == f.fixedVersion
    && x.finding.severity == f.severity
  }

  /** The `i`th exemption matches and no other does. */
  ghost predicate OneMatch(xs: seq<Exemption>, f: Finding, s: Subject, channel: Channel, i: int) {
    && 0 <= i < |xs| && Matches(xs[i], f, s, channel)
    && forall j :: 0 <= j < |xs| && j != i ==> !Matches(xs[j], f, s, channel)
  }

  ghost predicate NoMatch(xs: seq<Exemption>, f: Finding, s: Subject, channel: Channel) {
    forall j :: 0 <= j < |xs| ==> !Matches(xs[j], f, s, channel)
  }

  lemma {:induction false} MatchingNone(xs: seq<Exemption>, f: Finding, s: Subject, channel: Channel)
    ensures Matching(xs, f, s, channel) == [] <==> NoMatch(xs, f, s, channel)
  {
    if xs == [] {
    } else {
      MatchingNone(xs[1..], f, s, channel);
      assert forall j :: 0 < j < |xs| ==> xs[j] == xs[1..][j - 1];
      assert forall j :: 0 <= j < |xs| - 1 ==> xs[1..][j] == xs[j + 1];
    }
  }

  /** A match at the head is the only one, or no match at the head changes nothing. */
  lemma OneMatchCons(xs: seq<Exemption>, f: Finding, s: Subject, channel: Channel, i: int)
    requires xs != []
    ensures Matches(xs[0], f, s, channel) ==>
              (OneMatch(xs, f, s, channel, i) <==> i == 0 && NoMatch(xs[1..], f, s, channel))
    ensures !Matches(xs[0], f, s, channel) ==>
              (OneMatch(xs, f, s, channel, i) <==> OneMatch(xs[1..], f, s, channel, i - 1))
  {
    assert forall j :: 0 < j < |xs| ==> xs[j] == xs[1..][j - 1];
    assert forall j :: 0 <= j < |xs| - 1 ==> xs[1..][j] == xs[j + 1];
  }

  lemma {:induction false} MatchingOne(xs: seq<Exemption>, f: Finding, s: Subject, channel: Channel)
    ensures |Matching(xs, f, s, channel)| == 1 <==> exists i :: OneMatch(xs, f, s, channel, i)
  {
    if xs == [] {
    } else {
      MatchingOne(xs[1..], f, s, channel);
      MatchingNone(xs[1..], f, s, channel);
      OneMatchCons(xs, f, s, channel, 0);
      if i :| OneMatch(xs, f, s, channel, i) {
        OneMatchCons(xs, f, s, channel, i);
      }
      if i :| OneMatch(xs[1..], f, s, channel, i) {
        OneMatchCons(xs, f, s, channel, i + 1);
      }
    }
  }

  /** The `i`th exemption is granted for this finding, and no other is. */
  ghost predicate OneGrant(xs: seq<Exemption>, f: Finding, s: Subject, channel: Channel, i: int) {
    && 0 <= i < |xs| && Granted(xs[i], f, s, channel)
    && forall j :: 0 <= j < |xs| && j != i ==> !Granted(xs[j], f, s, channel)
  }

  lemma OneGrantMatches(xs: seq<Exemption>, f: Finding, s: Subject, channel: Channel, i: int)
    ensures OneGrant(xs, f, s, channel, i) <==> OneMatch(xs, f, s, channel, i)
  {
    forall j | 0 <= j < |xs|
      ensures Granted(xs[j], f, s, channel) <==> Matches(xs[j], f, s, channel)
    {
      GrantedMatches(xs[j], f, s, channel);
    }
  }

  /** A blocking finding is excused exactly when one exemption of the list, and no other, is
      granted for it. */
  lemma ExcusedExactly(o: Options, f: Finding, s: Subject)
    ensures Excused(o, f, s) <==> exists i :: OneGrant(o.policy.exemptions, f, s, o.channel, i)
  {
    var xs := o.policy.exemptions;
    MatchingOne(xs, f, s, o.channel);
    if i :| OneMatch(xs, f, s, o.channel, i) {
      OneGrantMatches(xs, f, s, o.channel, i);
    }
    if i :| OneGrant(xs, f, s, o.channel, i) {
      OneGrantMatches(xs, f, s, o.channel, i);
    }
  }

  lemma GrantedMatches(x: Exemption, f: Finding, s: Subject, channel: Channel)
    ensures Granted(x, f, s, channel) <==> Matches(x, f, s, channel)
  {
  }

  lemma {:induction false} CandidatesOne(o: Options, subjects: seq<Subject>, name: Name, s: Subject)
    requires Distinct(subjects)
    ensures Candidates(o, subjects, name) == [s] <==>
            s in subjects && Names(o, name, s) && forall t :: t in subjects && t != s ==> !Names(o, name, t)
  {
    if subjects == [] {
    } else {
      var head, rest := subjects[0], subjects[1..];
      assert subjects == [head] + rest;
      assert head !in rest;
      CandidatesOne(o, rest, name, s);
      CandidatesNone(o, rest, name);
      if Names(o, name, head) {
        JustOne(head, Candidates(o, rest, name), s);
      } else {
        assert Candidates(o, subjects, name) == Candidates(o, rest, name);
      }
    }
  }

  lemma JustOne(head: Subject, rest: seq<Subject>, s: Subject)
    ensures [head] + rest == [s] <==> rest == [] && head == s
  {
    if [head] + rest == [s] {
      assert |[head] + rest| == 1 && ([head] + rest)[0] == head;
    }
  }

  lemma {:induction false} CandidatesNone(o: Options, subjects: seq<Subject>, name: Name)
    ensures Candidates(o, subjects, name) == [] <==> forall t :: t in subjects ==> !Names(o, name, t)
  {
    if subjects == [] {
    } else {
      CandidatesNone(o, subjects[1..], name);
      assert subjects == [subjects[0]] + subjects[1..];
    }
  }

  /** A bundle is evidence for `s` exactly when its name is of this run, of no later attempt, and
      its suffix is that of `s` and of no other subject of the plan. */
  lemma ResolveExactly(o: Options, b: Bundle, s: Subject)
    requires Distinct(o.plan)
    ensures Resolve(o, b) == Some(s) <==>
            && b.name.Some? && b.name.value.runId == o.runId && b.name.value.attempt <= o.attempt
            && s in o.plan && s in o.suffixes && o.suffixes[s] == b.name.value.suffix
            && forall t :: t in o.plan && t != s && t in o.suffixes ==> o.suffixes[t] != b.name.value.suffix
  {
    if b.name.Some? {
      var found := Candidates(o, o.plan, b.name.value);
      CandidatesOne(o, o.plan, b.name.value, s);
      if |found| == 1 {
        assert found == [found[0]];
      }
      assert forall t :: Names(o, b.name.value, t) <==> t in o.suffixes && o.suffixes[t] == b.name.value.suffix;
    }
  }

  // ----- facts about admission

  lemma NewestUnique(o: Options, bundles: seq<Bundle>, s: Subject, b: Bundle, c: Bundle)
    requires Clean(o, bundles)
    requires Newest(o, bundles, s, b) && Newest(o, bundles, s, c)
    ensures b == c
  {
    if b != c {
      NoClash(o, bundles, b, c);
    }
  }

  lemma {:induction false} TotalBytesPrefix(chosen: seq<Bundle>, k: nat)
    requires k <= |chosen|
    ensures TotalBytes(chosen[..k]) <= TotalBytes(chosen)
  {
    if k < |chosen| {
      TotalBytesPrefix(chosen[..|chosen| - 1], k);
      assert chosen[..|chosen| - 1][..k] == chosen[..k];
    } else {
      assert chosen[..k] == chosen;
    }
  }

  lemma AdmitsPrefix(o: Options, bundles: seq<Bundle>, chosen: seq<Bundle>, k: nat)
    requires Admits(o, bundles, chosen) && k <= |chosen|
    ensures Admits(o, bundles, chosen[..k])
  {
    TotalBytesPrefix(chosen, k);
    forall i | 0 <= i < k
      ensures Newest(o, bundles, o.plan[i], chosen[..k][i]) && Good(o, chosen[..k][i], o.plan[i])
    {
      assert chosen[..k][i] == chosen[i];
    }
  }

  /** Which evidence admits a subject is forced. */
  lemma AdmitsUnique(o: Options, bundles: seq<Bundle>, chosen: seq<Bundle>, other: seq<Bundle>)
    requires Clean(o, bundles)
    requires Admits(o, bundles, chosen) && Admits(o, bundles, other) && |chosen| <= |other|
    ensures chosen == other[..|chosen|]
  {
    forall i | 0 <= i < |chosen|
      ensures chosen[i] == other[i]
    {
      NewestUnique(o, bundles, o.plan[i], chosen[i], other[i]);
    }
  }

  /** Nothing of the decision depends on the order of the bundles. */
  lemma OrderIrrelevant(o: Options, bundles: seq<Bundle>, shuffled: seq<Bundle>)
    requires multiset(bundles) == multiset(shuffled)
    ensures Admissible(o, bundles) <==> Admissible(o, shuffled)
  {
    if Admissible(o, bundles) {
      Reorder(o, bundles, shuffled);
    }
    if Admissible(o, shuffled) {
      Reorder(o, shuffled, bundles);
    }
  }

  lemma Reorder(o: Options, bundles: seq<Bundle>, shuffled: seq<Bundle>)
    requires multiset(bundles) == multiset(shuffled)
    requires Admissible(o, bundles)
    ensures Admissible(o, shuffled)
  {
    SameMembers(bundles, shuffled);
    CleanReorder(o, bundles, shuffled);
    var chosen :| AdmittedOn(o, bundles, chosen);
    AdmitsSame(o, bundles, shuffled, chosen);
    assert AdmittedOn(o, shuffled, chosen);
  }

  lemma SameMembers<T>(a: seq<T>, b: seq<T>)
    requires multiset(a) == multiset(b)
    ensures forall x :: x in a <==> x in b
  {
    forall x
      ensures x in a <==> x in b
    {
      assert x in a <==> x in multiset(a);
      assert x in b <==> x in multiset(b);
    }
  }

  lemma {:induction false} DistinctCount<T>(a: seq<T>, x: T)
    requires Distinct(a)
    ensures multiset(a)[x] <= 1
  {
    if a == [] {
    } else {
      DistinctCount(a[1..], x);
      assert a == [a[0]] + a[1..];
      assert a[0] !in a[1..];
    }
  }

  lemma DistinctReorder<T>(a: seq<T>, b: seq<T>)
    requires Distinct(a) && multiset(a) == multiset(b)
    ensures Distinct(b)
  {
    forall i, j | 0 <= i < j < |b|
      ensures b[i] != b[j]
    {
      DistinctCount(a, b[i]);
      assert b == b[..j] + b[j..];
      assert b[..j][i] in multiset(b[..j]);
      assert b[j..][0] in multiset(b[j..]);
    }
  }

  lemma CleanDistinct(o: Options, bundles: seq<Bundle>)
    requires Clean(o, bundles)
    ensures Distinct(bundles)
  {
    forall i, j | 0 <= i < j < |bundles|
      ensures bundles[i] != bundles[j]
    {
      assert !Clash(o, bundles[i], bundles[j]);
      assert Resolve(o, bundles[i]).Some?;
    }
  }

  lemma NoClash(o: Options, bundles: seq<Bundle>, b: Bundle, c: Bundle)
    requires Clean(o, bundles) && b in bundles && c in bundles && b != c
    ensures !Clash(o, b, c)
  {
    var i :| 0 <= i < |bundles| && bundles[i] == b;
    var j :| 0 <= j < |bundles| && bundles[j] == c;
    if i < j {
      assert !Clash(o, bundles[i], bundles[j]);
    } else {
      assert !Clash(o, bundles[j], bundles[i]);
    }
  }

  lemma CleanReorder(o: Options, bundles: seq<Bundle>, shuffled: seq<Bundle>)
    requires Clean(o, bundles) && multiset(bundles) == multiset(shuffled)
    ensures Clean(o, shuffled)
  {
    SameMembers(bundles, shuffled);
    CleanDistinct(o, bundles);
    DistinctReorder(bundles, shuffled);
    forall i, j | 0 <= i < j < |shuffled|
      ensures !Clash(o, shuffled[i], shuffled[j])
    {
      NoClash(o, bundles, shuffled[i], shuffled[j]);
    }
  }

  lemma AdmitsSame(o: Options, bundles: seq<Bundle>, others: seq<Bundle>, chosen: seq<Bundle>)
    requires forall b :: b in bundles <==> b in others
    requires Admits(o, bundles, chosen)
    ensures Admits(o, others, chosen)
  {
    forall i | 0 <= i < |chosen|
      ensures Newest(o, others, o.plan[i], chosen[i])
    {
      assert Newest(o, bundles, o.plan[i], chosen[i]);
    }
  }

  // ----- superseded evidence

  /** `late` is of this run, clashes with nothing, and is older than other evidence for its subject. */
  ghost predicate Superseded(o: Options, bundles: seq<Bundle>, late: Bundle) {
    && Resolve(o, late).Some?
    && (forall b :: b in bundles ==> !Clash(o, b, late))
    && exists b :: b in bundles && Resolve(o, b) == Resolve(o, late) && late.name.value.attempt < b.name.value.attempt
  }

  lemma NewestIgnoresOlder(o: Options, bundles: seq<Bundle>, late: Bundle, s: Subject, b: Bundle)
    requires Superseded(o, bundles, late)
    ensures Newest(o, bundles, s, b) <==> Newest(o, bundles + [late], s, b)
  {
    var newer :| newer in bundles && Resolve(o, newer) == Resolve(o, late) &&
      late.name.value.attempt < newer.name.value.attempt;
    assert forall x :: x in bundles + [late] <==> x in bundles || x == late;
  }

  lemma CleanWith(o: Options, bundles: seq<Bundle>, late: Bundle)
    requires Superseded(o, bundles, late)
    ensures Clean(o, bundles) <==> Clean(o, bundles + [late])
  {
    var all := bundles + [late];
    if Clean(o, bundles) {
      forall i, j | 0 <= i < j < |all|
        ensures !Clash(o, all[i], all[j])
      {
        if j < |bundles| {
          assert !Clash(o, bundles[i], bundles[j]);
        }
      }
    }
    if Clean(o, all) {
      forall i, j | 0 <= i < j < |bundles|
        ensures !Clash(o, bundles[i], bundles[j])
      {
        assert !Clash(o, all[i], all[j]);
      }
      forall b | b in bundles
        ensures Resolve(o, b).Some?
      {
        assert b in all;
      }
    }
  }

  lemma AdmitsIgnoresOlder(o: Options, bundles: seq<Bundle>, late: Bundle, chosen: seq<Bundle>)
    requires Superseded(o, bundles, late)
    ensures Admits(o, bundles, chosen) <==> Admits(o, bundles + [late], chosen)
  {
    forall i | 0 <= i < |chosen| <= |o.plan| {
      NewestIgnoresOlder(o, bundles, late, o.plan[i], chosen[i]);
    }
  }

  /** Evidence from an attempt that a later one replaced changes nothing, whatever it holds. */
  lemma OlderIrrelevant(o: Options, bundles: seq<Bundle>, late: Bundle)
    requires Superseded(o, bundles, late)
    ensures Admissible(o, bundles) <==> Admissible(o, bundles + [late])
  {
    CleanWith(o, bundles, late);
    forall chosen
      ensures AdmittedOn(o, bundles, chosen) <==> AdmittedOn(o, bundles + [late], chosen)
    {
      AdmitsIgnoresOlder(o, bundles, late, chosen);
    }
  }
}
