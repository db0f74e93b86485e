/** When a release may go out, written down field by field and without the searches of the gate,
    and that this is what the gate admits; likewise for the check of one image. */
module GateMeaning {
  import opened Basics
  import opened GateModel
  import opened VulnerabilityGate

  // ----- evidence

  /** The bundle is named for this run, an attempt so far, and this subject alone. */
  ghost predicate Belongs(o: Options, b: Bundle, s: Subject) {
    && b.name.Some? && b.name.value.runId == o.runId && b.name.value.attempt <= o.attempt
    && s in o.plan && s in o.suffixes && o.suffixes[s] == b.name.value.suffix
    && forall t :: t in o.plan && t != s && t in o.suffixes ==> o.suffixes[t] != b.name.value.suffix
  }

  ghost predicate Latest(o: Options, bundles: seq<Bundle>, s: Subject, b: Bundle) {
    && b in bundles && Belongs(o, b, s)
    && forall x :: x in bundles && Belongs(o, x, s) ==> x.name.value.attempt <= b.name.value.attempt
  }

  ghost predicate Serious(o: Options, f: Finding) {
    && o.channel in o.policy.rules
    && (|| f.severity in o.policy.rules[o.channel].block
        || (f.severity in o.policy.rules[o.channel].blockWhenFixed && |f.fixedVersion| > 0))
  }

  /** The only exemption granted for the finding is `x`. */
  ghost predicate OnlyFor(o: Options, f: Finding, s: Subject, x: Exemption) {
    exists i :: OneGrant(o.policy.exemptions, f, s, o.channel, i) && o.policy.exemptions[i] == x
  }

  /** What the contract must say. */
  ghost predicate Signed(o: Options, c: Contract, s: Subject, attempt: nat) {
    && c.subject.role == s.role && c.subject.arch == s.arch
    && c.channel == o.channel && c.revision == o.revision && c.policyHash == o.policyHash
    && c.runId == o.runId && c.attempt == attempt
  }

  /** Loaded without complaint, signed for this subject, and its report untampered, about that
      image, and clear of serious findings but for exempted ones. */
  ghost predicate Clear(o: Options, b: Bundle, s: Subject) {
    && b.name.Some? && b.contents.Some? && b.contents.value.complaints == 0
    && b.contents.value.contract.Some? && b.contents.value.report.Some?
    && var c, r := b.contents.value.contract.value, b.contents.value.report.value;
    && Signed(o, c, s, b.name.value.attempt)
    && r.hash == c.reportHash && r.imageId == c.imageId && r.findings.Some?
    && forall f :: f in r.findings.value && Serious(o, f) ==>
         exists i :: OneGrant(o.policy.exemptions, f, s, o.channel, i)
  }

  lemma SeriousBlocks(o: Options, f: Finding)
    ensures Serious(o, f) <==> ShouldBlock(o, f)
  {
  }

  lemma ClearIsGood(o: Options, b: Bundle, s: Subject)
    ensures Clear(o, b, s) <==> Good(o, b, s)
  {
    forall f: Finding
      ensures Serious(o, f) <==> ShouldBlock(o, f)
      ensures Excused(o, f, s) <==> exists i :: OneGrant(o.policy.exemptions, f, s, o.channel, i)
    {
      SeriousBlocks(o, f);
      ExcusedExactly(o, f, s);
    }
  }

  lemma BelongsResolves(o: Options, b: Bundle, s: Subject)
    requires Distinct(o.plan)
    ensures Belongs(o, b, s) <==> Resolve(o, b) == Some(s)
  {
    ResolveExactly(o, b, s);
  }

  lemma LatestIsNewest(o: Options, bundles: seq<Bundle>, s: Subject, b: Bundle)
    requires Distinct(o.plan)
    ensures Latest(o, bundles, s, b) <==> Newest(o, bundles, s, b)
  {
    forall x: Bundle
      ensures Belongs(o, x, s) <==> Resolve(o, x) == Some(s)
    {
      BelongsResolves(o, x, s);
    }
  }

  // ----- exemptions

  lemma OnlyForMatches(o: Options, f: Finding, s: Subject, x: Exemption)
    ensures Serious(o, f) && OnlyFor(o, f, s, x) <==> ExcusedBy(o, f, s, x)
  {
    var xs := o.policy.exemptions;
    SeriousBlocks(o, f);
    MatchingIs(xs, f, s, o.channel, x);
    if i :| OneGrant(xs, f, s, o.channel, i) && xs[i] == x {
      OneGrantMatches(xs, f, s, o.channel, i);
    }
    if i :| OneMatch(xs, f, s, o.channel, i) && xs[i] == x {
      OneGrantMatches(xs, f, s, o.channel, i);
    }
  }

  lemma {:induction false} MatchingIs(xs: seq<Exemption>, f: Finding, s: Subject, channel: Channel, x: Exemption)
    ensures Matching(xs, f, s, channel) == [x] <==> exists i :: OneMatch(xs, f, s, channel, i) && xs[i] == x
  {
    if xs == [] {
    } else {
      var rest := xs[1..];
      MatchingIs(rest, f, s, channel, x);
      MatchingNone(rest, f, s, channel);
      OneMatchCons(xs, f, s, channel, 0);
      MatchingCons(xs, f, s, channel, x);
      if i :| OneMatch(xs, f, s, channel, i) && xs[i] == x {
        OneMatchCons(xs, f, s, channel, i);
      }
      if i :| OneMatch(rest, f, s, channel, i) && rest[i] == x {
        OneMatchCons(xs, f, s, channel, i + 1);
        assert xs[i + 1] == x;
      }
    }
  }

  lemma MatchingCons(xs: seq<Exemption>, f: Finding, s: Subject, channel: Channel, x: Exemption)
    requires xs != []
    ensures Matches(xs[0], f, s, channel) ==>
              (Matching(xs, f, s, channel) == [x] <==> xs[0] == x && Matching(xs[1..], f, s, channel) == [])
    ensures !Matches(xs[0], f, s, channel) ==> Matching(xs, f, s, channel) == Matching(xs[1..], f, s, channel)
  {
    var rest := Matching(xs[1..], f, s, channel);
    if Matches(xs[0], f, s, channel) {
      assert ([xs[0]] + rest)[0] == xs[0] && |[xs[0]] + rest| == 1 + |rest|;
      assert rest == [] ==> [xs[0]] + rest == [xs[0]];
    }
  }

  /** `x` is what excuses a serious finding in the evidence for the `i`th subject. */
  ghost predicate Used(o: Options, x: Exemption, chosen: seq<Bundle>, i: int) {
    && 0 <= i < |chosen| && i < |o.plan|
    && chosen[i].contents.Some? && chosen[i].contents.value.report.Some?
    && chosen[i].contents.value.report.value.findings.Some?
    && exists f :: f in chosen[i].contents.value.report.value.findings.value
                   && Serious(o, f) && OnlyFor(o, f, o.plan[i], x)
  }

  lemma UsedCovers(o: Options, x: Exemption, chosen: seq<Bundle>, i: int)
    requires 0 <= i < |chosen| <= |o.plan|
    ensures Used(o, x, chosen, i) <==> Covers(o, x, chosen[i], o.plan[i])
  {
    forall f: Finding
      ensures Serious(o, f) && OnlyFor(o, f, o.plan[i], x) <==> ExcusedBy(o, f, o.plan[i], x)
    {
      OnlyForMatches(o, f, o.plan[i], x);
    }
  }

  /** Every exemption of the channel is used, and by every subject it names. */
  ghost predicate NoneIdle(o: Options, chosen: seq<Bundle>) {
    forall x :: x in o.policy.exemptions && o.channel in x.channels ==>
      && (exists i :: Used(o, x, chosen, i))
      && forall r, a :: r in x.roles && a in x.archs ==> exists i :: Used(o, x, chosen, i) && o.plan[i] == Subject(r, a)
  }

  lemma EarnedMeans(o: Options, x: Exemption, chosen: seq<Bundle>)
    requires |chosen| <= |o.plan|
    ensures Earned(o, x, chosen) <==>
            && (exists i :: Used(o, x, chosen, i))
            && forall r, a :: r in x.roles && a in x.archs ==>
                 exists i :: Used(o, x, chosen, i) && o.plan[i] == Subject(r, a)
  {
    forall i | 0 <= i < |chosen|
      ensures Used(o, x, chosen, i) <==> Covers(o, x, chosen[i], o.plan[i])
    {
      UsedCovers(o, x, chosen, i);
    }
    forall s: Subject
      ensures s in Coverage(o, x, chosen) <==> exists i :: Used(o, x, chosen, i) && o.plan[i] == s
    {
      if i :| 0 <= i < |chosen| && Covers(o, x, chosen[i], o.plan[i]) && o.plan[i] == s {
        assert Used(o, x, chosen, i);
      }
    }
    if i :| Used(o, x, chosen, i) {
      assert o.plan[i] in Coverage(o, x, chosen);
    }
  }

  // ----- the release

  ghost predicate Placed(o: Options, b: Bundle) {
    exists s :: Belongs(o, b, s)
  }

  /** Not two bundles of one subject and attempt. */
  ghost predicate Apart(o: Options, b: Bundle, c: Bundle) {
    forall s :: Belongs(o, b, s) && Belongs(o, c, s) ==> b.name.value.attempt != c.name.value.attempt
  }

  /** Every bundle belongs to a subject, and no two to one subject and attempt. */
  ghost predicate Orderly(o: Options, bundles: seq<Bundle>) {
    && (forall i :: 0 <= i < |bundles| ==> Placed(o, bundles[i]))
    && (forall i, j :: 0 <= i < j < |bundles| ==> Apart(o, bundles[i], bundles[j]))
  }

  lemma ApartMeans(o: Options, b: Bundle, c: Bundle)
    requires Distinct(o.plan)
    ensures Apart(o, b, c) <==> !Clash(o, b, c)
  {
    forall s: Subject
      ensures Belongs(o, b, s) <==> Resolve(o, b) == Some(s)
      ensures Belongs(o, c, s) <==> Resolve(o, c) == Some(s)
    {
      BelongsResolves(o, b, s);
      BelongsResolves(o, c, s);
    }
    if Resolve(o, b).Some? {
      assert Belongs(o, b, Resolve(o, b).value);
    }
  }

  lemma OrderlyMeansClean(o: Options, bundles: seq<Bundle>)
    requires Distinct(o.plan) && Orderly(o, bundles)
    ensures Clean(o, bundles)
  {
    forall i | 0 <= i < |bundles|
      ensures Resolve(o, bundles[i]).Some?
    {
      assert Placed(o, bundles[i]);
      var s :| Belongs(o, bundles[i], s);
      BelongsResolves(o, bundles[i], s);
    }
    forall i, j | 0 <= i < j < |bundles|
      ensures !Clash(o, bundles[i], bundles[j])
    {
      ApartMeans(o, bundles[i], bundles[j]);
    }
  }

  lemma CleanMeansOrderly(o: Options, bundles: seq<Bundle>)
    requires Distinct(o.plan) && Clean(o, bundles)
    ensures Orderly(o, bundles)
  {
    forall i | 0 <= i < |bundles|
      ensures Placed(o, bundles[i])
    {
      assert bundles[i] in bundles;
      BelongsResolves(o, bundles[i], Resolve(o, bundles[i]).value);
    }
    forall i, j | 0 <= i < j < |bundles|
      ensures Apart(o, bundles[i], bundles[j])
    {
      ApartMeans(o, bundles[i], bundles[j]);
    }
  }

  ghost function ReportBytes(b: Bundle): nat {
    if b.contents.Some? && b.contents.value.report.Some? then b.contents.value.report.value.bytes else 0
  }

  ghost function AllBytes(chosen: seq<Bundle>): nat {
    if chosen == [] then 0 else ReportBytes(chosen[0]) + AllBytes(chosen[1..])
  }

  lemma {:induction false} AllBytesSnoc(chosen: seq<Bundle>, b: Bundle)
    ensures AllBytes(chosen + [b]) == AllBytes(chosen) + ReportBytes(b)
  {
    if chosen == [] {
      assert chosen + [b] == [b];
    } else {
      assert (chosen + [b])[1..] == chosen[1..] + [b];
      AllBytesSnoc(chosen[1..], b);
    }
  }

  lemma {:induction false} AllBytesTotal(chosen: seq<Bundle>)
    ensures AllBytes(chosen) == TotalBytes(chosen)
  {
    if chosen == [] {
    } else {
      var front, last := chosen[..|chosen| - 1], chosen[|chosen| - 1];
      AllBytesTotal(front);
      AllBytesSnoc(front, last);
      assert chosen == front + [last];
    }
  }

  /** One bundle per subject, the latest and clear, with different reports of at most 256 MiB in
      all, and no exemption without use. */
  ghost predicate ReleasedOn(o: Options, bundles: seq<Bundle>, chosen: seq<Bundle>) {
    && |chosen| == |o.plan|
    && (forall i :: 0 <= i < |chosen| ==> Latest(o, bundles, o.plan[i], chosen[i]) && Clear(o, chosen[i], o.plan[i]))
    && (forall i, j :: 0 <= i < j < |chosen| ==>
          chosen[i].contents.value.report.value.hash != chosen[j].contents.value.report.value.hash)
    && AllBytes(chosen) <= 268435456
    && NoneIdle(o, chosen)
  }

  lemma ReleasedIsAdmitted(o: Options, bundles: seq<Bundle>, chosen: seq<Bundle>)
    requires Distinct(o.plan)
    ensures ReleasedOn(o, bundles, chosen) <==> AdmittedOn(o, bundles, chosen)
  {
    if |chosen| == |o.plan| {
      forall i | 0 <= i < |chosen|
        ensures Latest(o, bundles, o.plan[i], chosen[i]) <==> Newest(o, bundles, o.plan[i], chosen[i])
        ensures Clear(o, chosen[i], o.plan[i]) <==> Good(o, chosen[i], o.plan[i])
      {
        LatestIsNewest(o, bundles, o.plan[i], chosen[i]);
        ClearIsGood(o, chosen[i], o.plan[i]);
      }
      AllBytesTotal(chosen);
      NoneIdleMeans(o, chosen);
    }
  }

  lemma NoneIdleMeans(o: Options, chosen: seq<Bundle>)
    requires |chosen| <= |o.plan|
    ensures NoneIdle(o, chosen) <==> AllEarned(o, chosen)
  {
    forall x | x in o.policy.exemptions && o.channel in x.channels
      ensures Earned(o, x, chosen) <==>
              && (exists i :: Used(o, x, chosen, i))
              && forall r, a :: r in x.roles && a in x.archs ==>
                   exists i :: Used(o, x, chosen, i) && o.plan[i] == Subject(r, a)
    {
      EarnedMeans(o, x, chosen);
    }
  }

  /** The gate allows exactly the releases described here. */
  lemma AllowedExactly(o: Options, bundles: seq<Bundle>, d: Decision)
    requires Complete(o.plan) && Decides(o, bundles, d)
    ensures d.allow <==> Orderly(o, bundles) && exists chosen :: ReleasedOn(o, bundles, chosen)
  {
    if Orderly(o, bundles) {
      OrderlyMeansClean(o, bundles);
    }
    if Clean(o, bundles) {
      CleanMeansOrderly(o, bundles);
    }
    if chosen :| ReleasedOn(o, bundles, chosen) {
      ReleasedIsAdmitted(o, bundles, chosen);
    }
    if chosen :| AdmittedOn(o, bundles, chosen) {
      ReleasedIsAdmitted(o, bundles, chosen);
    }
  }

  // ----- one image

  /** The decision allows the release of this run, has admitted each of the thirty subjects once on
      evidence of an attempt so far, and names this digest for this subject. */
  ghost predicate Vouches(d: Decision, e: Expectation) {
    && d.allow && d.errors == 0
    && d.channel == e.channel && d.revision == e.revision && d.policyHash == e.policyHash
    && d.runId == e.runId && d.attempt == e.attempt
    && |d.subjects| == 30
    && (forall i, j :: 0 <= i < j < |d.subjects| ==> d.subjects[i].subject != d.subjects[j].subject)
    && (forall i :: 0 <= i < |d.subjects| ==>
          var v := d.subjects[i];
          && v.allowed && v.blocking == 0 && v.errors == 0
          && v.imageId.Some? && v.manifestDigest.Some? && v.reportHash.Some?
          && v.attempt.Some? && v.attempt.value <= e.attempt)
    && exists i :: 0 <= i < |d.subjects| && d.subjects[i].subject == e.subject
                   && d.subjects[i].manifestDigest == Some(e.manifestDigest)
  }

  lemma PassesExactly(d: Decision, e: Expectation)
    ensures Passes(d, e) <==> Vouches(d, e)
  {
    if Vouches(d, e) {
      assert forall v :: v in d.subjects ==> Admitted(v, e.attempt);
      var i :| 0 <= i < |d.subjects| && d.subjects[i].subject == e.subject
               && d.subjects[i].manifestDigest == Some(e.manifestDigest);
      assert d.subjects[i] in d.subjects;
    }
    if Passes(d, e) {
      assert forall i :: 0 <= i < |d.subjects| ==> d.subjects[i] in d.subjects;
      var v :| v in d.subjects && v.subject == e.subject && v.manifestDigest == Some(e.manifestDigest);
      var i :| 0 <= i < |d.subjects| && d.subjects[i] == v;
    }
  }
}
