/** Folding detections into alerts (backend/app/detection/correlation.py). */
module Correlation {
  import opened Text
  import opened Events

  const MAX_EVIDENCE: nat := 25
  const MAX_INVOLVED: nat := 50

  /** One row of the alerts table. */
  datatype AlertRow = AlertRow(
    alertId: nat,
    ruleId: string,
    title: string,
    description: seq<string>,
    severity: Severity,
    confidence: real,
    status: AlertStatus,
    firstSeen: int,
    lastSeen: int,
    sourceIp: Option<string>,
    affectedHost: Option<string>,
    eventCount: int,
    involvedUsers: seq<string>,
    involvedHosts: seq<string>,
    evidence: seq<Evidence>,
    correlationKey: string,
    anomalyScore: Option<real>,
    metadata: map<string, MetaValue>)

  function MaxInt(x: int, y: int): int {
    if x >= y then x else y
  }

  function MaxReal(x: real, y: real): real {
    if x >= y then x else y
  }

  /** The alert a first detection creates. */
  function Create(id: nat, d: Detection): AlertRow {
    AlertRow(
      id, d.ruleId, d.title, d.description, d.severity, d.confidence, Open,
      d.triggeredAt, d.triggeredAt, d.sourceIp, d.affectedHost,
      MaxInt(1, d.eventCountHint),
      Take(d.involvedUsers, MAX_INVOLVED), Take(d.involvedHosts, MAX_INVOLVED),
      Take(d.evidence, MAX_EVIDENCE),
      d.correlationKey, d.anomalyScore, d.metadata)
  }

  /** The list's items that are not empty. */
  function NonEmpty(hosts: seq<string>): seq<string> {
    if hosts == [] then []
    else if hosts[0] == "" then NonEmpty(hosts[1..])
    else [hosts[0]] + NonEmpty(hosts[1..])
  }

  /** Each item appended unless it is already there. */
  function Collect(evidence: seq<Evidence>, items: seq<Evidence>): seq<Evidence> {
    if items == [] then evidence
    else
      var before, item := Collect(evidence, items[..|items| - 1]), items[|items| - 1];
      if item in before then before else before + [item]
  }

  function FoldScore(kept: Option<real>, score: Option<real>): Option<real> {
    if score.None? then kept
    else Some(MaxReal(if kept.Some? then kept.value else 0.0, score.value))
  }

  /** A later detection folded into an existing alert. */
  function Fold(a: AlertRow, d: Detection): AlertRow {
    var worse := d.severity.Rank() > a.severity.Rank();
    AlertRow(
      a.alertId, a.ruleId,
      if worse then d.title else a.title,
      if worse then d.description else a.description,
      if worse then d.severity else a.severity,
      MaxReal(a.confidence, d.confidence),
      a.status, a.firstSeen, d.triggeredAt, a.sourceIp, a.affectedHost,
      MaxInt(a.eventCount + 1, d.eventCountHint),
      Take(SortDistinct(a.involvedUsers + d.involvedUsers), MAX_INVOLVED),
      Take(SortDistinct(a.involvedHosts + NonEmpty(d.involvedHosts)), MAX_INVOLVED),
      Last(Collect(a.evidence, d.evidence), MAX_EVIDENCE),
      a.correlationKey,
      FoldScore(a.anomalyScore, d.anomalyScore),
      a.metadata + d.metadata)
  }

  /** A whole series of detections that end up in one alert. */
  function FoldAll(id: nat, ds: seq<Detection>): AlertRow
    requires ds != []
  {
    if |ds| == 1 then Create(id, ds[0])
    else Fold(FoldAll(id, ds[..|ds| - 1]), ds[|ds| - 1])
  }

  /** An alert object the session hands out, its columns updated in place. */
  class Alert {
    const alertId: nat
    const ruleId: string
    const correlationKey: string
    const firstSeen: int
    const sourceIp: Option<string>
    const affectedHost: Option<string>
    var title: string
    var description: seq<string>
    var severity: Severity
    var confidence: real
    var status: AlertStatus
    var lastSeen: int
    var eventCount: int
    var involvedUsers: seq<string>
    var involvedHosts: seq<string>
    var evidence: seq<Evidence>
    var anomalyScore: Option<real>
    var metadata: map<string, MetaValue>

    constructor (id: nat, d: Detection)
      ensures Row() == Create(id, d)
    {
      alertId, ruleId, correlationKey := id, d.ruleId, d.correlationKey;
      title, description, severity, confidence := d.title, d.description, d.severity, d.confidence;
      status := Open;
      firstSeen, lastSeen := d.triggeredAt, d.triggeredAt;
      sourceIp, affectedHost := d.sourceIp, d.affectedHost;
      eventCount := MaxInt(1, d.eventCountHint);
      involvedUsers := Take(d.involvedUsers, MAX_INVOLVED);
      involvedHosts := Take(d.involvedHosts, MAX_INVOLVED);
      evidence := Take(d.evidence, MAX_EVIDENCE);
      anomalyScore := d.anomalyScore;
      metadata := d.metadata;
    }

    function Row(): AlertRow
      reads this
    {
      AlertRow(alertId, ruleId, title, description, severity, confidence, status, firstSeen, lastSeen,
               sourceIp, affectedHost, eventCount, involvedUsers, involvedHosts, evidence,
               correlationKey, anomalyScore, metadata)
    }

    method FoldIn(d: Detection)
      modifies this
      ensures Row() == Fold(old(Row()), d)
    {
      Count(d);
      Escalate(d);
      MergeInvolved(d);
      metadata := metadata + d.metadata;
      anomalyScore := FoldScore(anomalyScore, d.anomalyScore);
    }

    method Count(d: Detection)
      modifies this`lastSeen, this`eventCount, this`confidence
      ensures Row() == old(Row()).(
        lastSeen := Fold(old(Row()), d).lastSeen,
        eventCount := Fold(old(Row()), d).eventCount,
        confidence := Fold(old(Row()), d).confidence)
    {
      lastSeen := d.triggeredAt;
      eventCount := MaxInt(eventCount + 1, d.eventCountHint);
      confidence := MaxReal(confidence, d.confidence);
    }

    method Escalate(d: Detection)
      modifies this`severity, this`title, this`description
      ensures Row() == old(Row()).(
        severity := Fold(old(Row()), d).severity,
        title := Fold(old(Row()), d).title,
        description := Fold(old(Row()), d).description)
    {
      if d.severity.Rank() > severity.Rank() {
        severity, title, description := d.severity, d.title, d.description;
      }
    }

    method MergeInvolved(d: Detection)
      modifies this`involvedUsers, this`involvedHosts, this`evidence
      ensures Row() == old(Row()).(
        involvedUsers := Fold(old(Row()), d).involvedUsers,
        involvedHosts := Fold(old(Row()), d).involvedHosts,
        evidence := Fold(old(Row()), d).evidence)
    {
      involvedUsers := Take(SortDistinct(involvedUsers + d.involvedUsers), MAX_INVOLVED);
      involvedHosts := Take(SortDistinct(involvedHosts + NonEmpty(d.involvedHosts)), MAX_INVOLVED);
      evidence := AddEvidence(evidence, d.evidence);
    }

    static method AddEvidence(existing: seq<Evidence>, items: seq<Evidence>) returns (evidence: seq<Evidence>)
      ensures evidence == Last(Collect(existing, items), MAX_EVIDENCE)
    {
      evidence := existing;
      for i := 0 to |items|
        invariant evidence == Collect(existing, items[..i])
      {
        assert items[..i + 1][..i] == items[..i];
        if items[i] !in evidence {
          evidence := evidence + [items[i]];
        }
      }
      assert items[..|items|] == items;
      evidence := Last(evidence, MAX_EVIDENCE);
    }
  }

  // ---------------------------------------------------------------- event count

  /** What detection i alone accounts for at the end of the series: its own hint, and one for each
      detection after it. The first counts at least one. */
  function Claim(ds: seq<Detection>, i: nat): int
    requires i < |ds|
  {
    (if i == 0 then MaxInt(1, ds[i].eventCountHint) else ds[i].eventCountHint) + |ds| - 1 - i
  }

  /** The event count is the largest claim of any detection in the series, so it is at least their
      number. */
  lemma {:induction false} EventCountIsLargestClaim(id: nat, ds: seq<Detection>)
    requires ds != []
    ensures forall i :: 0 <= i < |ds| ==> Claim(ds, i) <= FoldAll(id, ds).eventCount
    ensures exists i :: 0 <= i < |ds| && Claim(ds, i) == FoldAll(id, ds).eventCount
    ensures FoldAll(id, ds).eventCount >= |ds|
  {
    if |ds| == 1 {
      assert Claim(ds, 0) == FoldAll(id, ds).eventCount;
    } else {
      var front := ds[..|ds| - 1];
      EventCountIsLargestClaim(id, front);
      forall i | 0 <= i < |front| ensures Claim(ds, i) == Claim(front, i) + 1 {
        assert front[i] == ds[i];
      }
      var i :| 0 <= i < |front| && Claim(front, i) == FoldAll(id, front).eventCount;
      assert Claim(ds, i) == FoldAll(id, front).eventCount + 1;
      assert Claim(ds, |ds| - 1) == ds[|ds| - 1].eventCountHint;
    }
  }

  /** Every fold raises the event count and lowers no score. */
  lemma {:induction false} FoldGrows(a: AlertRow, d: Detection)
    ensures var b := Fold(a, d);
      && b.eventCount > a.eventCount
      && b.confidence >= a.confidence && b.confidence >= d.confidence
      && b.severity.Rank() >= a.severity.Rank() && b.severity.Rank() >= d.severity.Rank()
      && (a.anomalyScore.Some? ==> b.anomalyScore.Some? && b.anomalyScore.value >= a.anomalyScore.value)
      && (d.anomalyScore.Some? ==> b.anomalyScore.Some? && b.anomalyScore.value >= d.anomalyScore.value)
      && b.alertId == a.alertId && b.ruleId == a.ruleId && b.correlationKey == a.correlationKey
      && b.status == a.status && b.firstSeen == a.firstSeen
      && b.sourceIp == a.sourceIp && b.affectedHost == a.affectedHost
  {
  }

  /** The alert dates from the first detection to the last and keeps the first one's origin. */
  lemma {:induction false} FirstAndLast(id: nat, ds: seq<Detection>)
    requires ds != []
    ensures var a, first, last := FoldAll(id, ds), ds[0], ds[|ds| - 1];
      (a.firstSeen, a.lastSeen, a.alertId, a.ruleId, a.correlationKey, a.sourceIp, a.affectedHost, a.status) ==
      (first.triggeredAt, last.triggeredAt, id, first.ruleId, first.correlationKey, first.sourceIp, first.affectedHost, Open)
  {
    if |ds| > 1 { FirstAndLast(id, ds[..|ds| - 1]); }
  }

  /** The greatest of a series of claims, none of them being none. */
  ghost predicate Greatest(x: Option<real>, claims: seq<Option<real>>) {
    || (x == None && forall c :: c in claims ==> c == None)
    || (x.Some? && (exists c :: c in claims && c != None) && (x == Some(0.0) || x in claims)
        && forall c :: c in claims && c.Some? ==> c.value <= x.value)
  }

  function Confidences(ds: seq<Detection>): set<real> {
    if ds == [] then {} else Confidences(ds[..|ds| - 1]) + {ds[|ds| - 1].confidence}
  }

  function Scores(ds: seq<Detection>): (r: seq<Option<real>>)
    ensures |r| == |ds|
  {
    if ds == [] then [] else Scores(ds[..|ds| - 1]) + [ds[|ds| - 1].anomalyScore]
  }

  /** Confidence is the greatest ever reported. */
  lemma {:induction false} ConfidenceIsGreatest(id: nat, ds: seq<Detection>)
    requires ds != []
    ensures FoldAll(id, ds).confidence in Confidences(ds)
    ensures forall c :: c in Confidences(ds) ==> c <= FoldAll(id, ds).confidence
  {
    if |ds| > 1 { ConfidenceIsGreatest(id, ds[..|ds| - 1]); }
  }

  lemma {:induction false} GreatestOfOne(claim: Option<real>)
    ensures Greatest(claim, [claim])
  {
    assert claim in [claim];
    assert forall c :: c in [claim] ==> c == claim;
  }

  lemma {:induction false} GreatestOfMore(kept: Option<real>, claims: seq<Option<real>>, score: Option<real>)
    requires Greatest(kept, claims)
    ensures Greatest(FoldScore(kept, score), claims + [score])
  {
    var x, more := FoldScore(kept, score), claims + [score];
    assert forall c :: c in more <==> c in claims || c == score;
    if x == None {
      assert forall c :: c in more ==> c == None;
    } else if score.Some? {
      assert score in more && score != None;
    } else {
      var c :| c in claims && c != None;
      assert c in more;
    }
  }

  /** So is the anomaly score, if any was reported, with zero for a floor once scores are compared. */
  lemma {:induction false} ScoreIsGreatest(id: nat, ds: seq<Detection>)
    requires ds != []
    ensures Greatest(FoldAll(id, ds).anomalyScore, Scores(ds))
  {
    if |ds| == 1 {
      assert Scores(ds) == [ds[0].anomalyScore];
      GreatestOfOne(ds[0].anomalyScore);
    } else {
      var front := ds[..|ds| - 1];
      ScoreIsGreatest(id, front);
      GreatestOfMore(FoldAll(id, front).anomalyScore, Scores(front), ds[|ds| - 1].anomalyScore);
    }
  }

  /** The i-th detection is the last to have this metadata key. */
  ghost predicate LastToHave(ds: seq<Detection>, k: string, i: nat) {
    i < |ds| && k in ds[i].metadata && forall j :: i < j < |ds| ==> k !in ds[j].metadata
  }

  /** Each metadata key carries the value of the last detection that had it. */
  lemma {:induction false} MetadataIsLatest(id: nat, ds: seq<Detection>, k: string, i: nat)
    requires LastToHave(ds, k, i)
    ensures (k, ds[i].metadata[k]) in FoldAll(id, ds).metadata.Items
  {
    if i < |ds| - 1 { MetadataIsLatest(id, ds[..|ds| - 1], k, i); }
  }

  lemma {:induction false} NoOtherMetadata(id: nat, ds: seq<Detection>, k: string)
    requires ds != [] && forall i :: 0 <= i < |ds| ==> k !in ds[i].metadata
    ensures k !in FoldAll(id, ds).metadata
  {
    if |ds| > 1 { NoOtherMetadata(id, ds[..|ds| - 1], k); }
  }

  // ---------------------------------------------------------------- severity and its text

  /** The first detection of the worst severity in a series. */
  function Worst(ds: seq<Detection>): (m: nat)
    requires ds != []
    ensures m < |ds|
  {
    if |ds| == 1 then 0
    else
      var m := Worst(ds[..|ds| - 1]);
      if ds[|ds| - 1].severity.Rank() > ds[m].severity.Rank() then |ds| - 1 else m
  }

  lemma {:induction false} WorstIsWorst(ds: seq<Detection>)
    requires ds != []
    ensures forall i :: 0 <= i < |ds| ==> var worst := ds[Worst(ds)].severity.Rank();
      if i < Worst(ds) then ds[i].severity.Rank() < worst else ds[i].severity.Rank() <= worst
  {
    if |ds| > 1 {
      var front := ds[..|ds| - 1];
      WorstIsWorst(front);
      assert forall i :: 0 <= i < |front| ==> front[i] == ds[i];
    }
  }

  lemma {:induction false} TextIsWorst(id: nat, ds: seq<Detection>)
    requires ds != []
    ensures var a, d := FoldAll(id, ds), ds[Worst(ds)];
      (a.severity, a.title, a.description) == (d.severity, d.title, d.description)
  {
    if |ds| > 1 { TextIsWorst(id, ds[..|ds| - 1]); }
  }

  /** The alert's severity is the worst ever reported, with the text of the first detection that
      reported it. */
  lemma {:induction false} WorstAndFirst(id: nat, ds: seq<Detection>) returns (m: nat)
    requires ds != []
    ensures m < |ds|
    ensures forall i :: 0 <= i < |ds| ==> ds[i].severity.Rank() <= ds[m].severity.Rank()
    ensures forall i :: 0 <= i < m ==> ds[i].severity.Rank() < ds[m].severity.Rank()
    ensures var a := FoldAll(id, ds);
      a.severity == ds[m].severity && a.title == ds[m].title && a.description == ds[m].description
  {
    m := Worst(ds);
    WorstIsWorst(ds);
    TextIsWorst(id, ds);
  }

  // ---------------------------------------------------------------- involved users

  /** Every user ever reported. */
  function AllUsers(ds: seq<Detection>): set<string> {
    if ds == [] then {} else AllUsers(ds[..|ds| - 1]) + Elements(ds[|ds| - 1].involvedUsers)
  }

  /** Capping at every fold loses nothing against capping once: the list holds, in order, the 50
      smallest of all users ever reported. */
  lemma {:induction false} UsersAreSmallest(id: nat, ds: seq<Detection>)
    requires ds != [] && Ascending(ds[0].involvedUsers)
    ensures KSmallest(FoldAll(id, ds).involvedUsers, AllUsers(ds), 50)
  {
    var front, d := ds[..|ds| - 1], ds[|ds| - 1];
    if |ds| == 1 {
      KSmallestOfSorted(d.involvedUsers, MAX_INVOLVED);
      assert AllUsers(ds) == Elements(d.involvedUsers) by { assert AllUsers(front) == {}; }
    } else {
      UsersAreSmallest(id, front);
      KSmallestMerge(FoldAll(id, front).involvedUsers, AllUsers(front), d.involvedUsers, MAX_INVOLVED);
    }
  }

  /** Every host reported; later detections' empty names do not count. */
  function AllHosts(ds: seq<Detection>): set<string>
    requires ds != []
  {
    if |ds| == 1 then Elements(ds[0].involvedHosts)
    else AllHosts(ds[..|ds| - 1]) + (Elements(ds[|ds| - 1].involvedHosts) - {""})
  }

  lemma {:induction false} NonEmptyMembers(hosts: seq<string>)
    ensures Elements(NonEmpty(hosts)) == Elements(hosts) - {""}
  {
    if hosts != [] {
      NonEmptyMembers(hosts[1..]);
      ElementsCons(hosts[0], hosts[1..]);
      ElementsCons(hosts[0], NonEmpty(hosts[1..]));
      assert hosts == [hosts[0]] + hosts[1..];
    }
  }

  /** The same for hosts. */
  lemma {:induction false} HostsAreSmallest(id: nat, ds: seq<Detection>)
    requires ds != [] && Ascending(ds[0].involvedHosts)
    ensures KSmallest(FoldAll(id, ds).involvedHosts, AllHosts(ds), 50)
  {
    var front, d := ds[..|ds| - 1], ds[|ds| - 1];
    if |ds| == 1 {
      KSmallestOfSorted(d.involvedHosts, MAX_INVOLVED);
    } else {
      HostsAreSmallest(id, front);
      NonEmptyMembers(d.involvedHosts);
      KSmallestMerge(FoldAll(id, front).involvedHosts, AllHosts(front), NonEmpty(d.involvedHosts), MAX_INVOLVED);
    }
  }

  /** Two series that report the same users end with the same list, whatever their order. */
  lemma {:induction false} UsersOrderIndependent(id: nat, ds: seq<Detection>, id': nat, ds': seq<Detection>)
    requires ds != [] && ds' != [] && Ascending(ds[0].involvedUsers) && Ascending(ds'[0].involvedUsers)
    requires AllUsers(ds) == AllUsers(ds')
    ensures FoldAll(id, ds).involvedUsers == FoldAll(id', ds').involvedUsers
  {
    UsersAreSmallest(id, ds);
    UsersAreSmallest(id', ds');
    KSmallestUnique(FoldAll(id, ds).involvedUsers, FoldAll(id', ds').involvedUsers, AllUsers(ds), MAX_INVOLVED);
  }

  // ---------------------------------------------------------------- evidence

  predicate Distinct<T(==)>(s: seq<T>) {
    forall i, j :: 0 <= i < j < |s| ==> s[i] != s[j]
  }

  /** The evidence reported by a series, one item each. */
  function Reported(ds: seq<Detection>): seq<Evidence>
    requires forall d :: d in ds ==> |d.evidence| == 1
  {
    if ds == [] then [] else Reported(ds[..|ds| - 1]) + ds[|ds| - 1].evidence
  }

  /** The evidence column alone. */
  function Kept(ds: seq<Detection>): seq<Evidence>
    requires ds != []
  {
    if |ds| == 1 then Take(ds[0].evidence, MAX_EVIDENCE)
    else Last(Collect(Kept(ds[..|ds| - 1]), ds[|ds| - 1].evidence), MAX_EVIDENCE)
  }

  lemma {:induction false} EvidenceIsKept(id: nat, ds: seq<Detection>)
    requires ds != []
    ensures FoldAll(id, ds).evidence == Kept(ds)
  {
    if |ds| > 1 { EvidenceIsKept(id, ds[..|ds| - 1]); }
  }

  lemma {:induction false} CollectOne(kept: seq<Evidence>, items: seq<Evidence>)
    requires |items| == 1
    ensures Collect(kept, items) == if items[0] in kept then kept else kept + items
  {
    assert items[..0] == [] && Collect(kept, []) == kept && [items[0]] == items;
  }

  /** From single-item detections the kept evidence is duplicate-free and at most 25 long, and all of
      it was reported. */
  lemma {:induction false} EvidenceBounded(id: nat, ds: seq<Detection>)
    requires ds != [] && forall d :: d in ds ==> |d.evidence| == 1
    ensures var evidence := FoldAll(id, ds).evidence;
      && Distinct(evidence) && |evidence| <= 25
      && forall x :: x in evidence ==> x in Reported(ds)
  {
    EvidenceIsKept(id, ds);
    KeptBounded(ds);
  }

  lemma {:induction false} KeptBounded(ds: seq<Detection>)
    requires ds != [] && forall d :: d in ds ==> |d.evidence| == 1
    ensures Distinct(Kept(ds)) && forall x :: x in Kept(ds) ==> x in Reported(ds)
  {
    var front, d := ds[..|ds| - 1], ds[|ds| - 1];
    assert d in ds;
    assert Reported(ds) == Reported(front) + d.evidence;
    if |ds| > 1 {
      KeptBounded(front);
      CollectOne(Kept(front), d.evidence);
    }
  }

  /** When all the items reported are different, the evidence is exactly the last 25 of them. */
  lemma {:induction false} EvidenceIsLast(id: nat, ds: seq<Detection>)
    requires ds != [] && forall d :: d in ds ==> |d.evidence| == 1
    requires Distinct(Reported(ds))
    ensures FoldAll(id, ds).evidence == Last(Reported(ds), 25)
  {
    EvidenceIsKept(id, ds);
    KeptIsLast(ds);
  }

  lemma {:induction false} KeptIsLast(ds: seq<Detection>)
    requires ds != [] && forall d :: d in ds ==> |d.evidence| == 1
    requires Distinct(Reported(ds))
    ensures Kept(ds) == Last(Reported(ds), MAX_EVIDENCE)
  {
    var front, d := ds[..|ds| - 1], ds[|ds| - 1];
    assert d in ds;
    var all, before := Reported(ds), Reported(front);
    assert all == before + d.evidence;
    if |ds| == 1 {
      assert before == [];
    } else {
      assert d.evidence == [d.evidence[0]];
      DistinctFront(before, d.evidence[0]);
      KeptIsLast(front);
      CollectOne(Kept(front), d.evidence);
      LastAppend(before, d.evidence[0], MAX_EVIDENCE);
      LastMembers(before, MAX_EVIDENCE);
    }
  }

  lemma {:induction false} LastMembers<T(!new)>(s: seq<T>, k: nat)
    ensures forall x :: x in Last(s, k) ==> x in s
  {
  }

  lemma {:induction false} DistinctFront<T>(front: seq<T>, last: T)
    requires Distinct(front + [last])
    ensures Distinct(front) && last !in front
  {
    var all := front + [last];
    assert forall i :: 0 <= i < |front| ==> all[i] == front[i];
    assert all[|front|] == last;
  }
}
