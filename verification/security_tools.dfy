/**
 * The MCP server's mock tools: lookups, filters and aggregations over the
 * organizations, cases and signals tables. A tool's `{"error": ...}` reply
 * is a `Failure` carrying the message.
 */
module SecurityTools {
  import opened Wrappers
  import opened Text
  import opened Seqs
  import opened SecurityData

  // ---------------------------------------------------------------------------
  // Organizations
  // ---------------------------------------------------------------------------

  /** `list_organizations`: the dict's keys, in insertion order. */
  function ListOrganizations(orgs: seq<Organization>): (names: seq<string>)
    ensures |names| == |orgs|
    ensures forall i :: 0 <= i < |orgs| ==> names[i] == orgs[i].name
  {
    seq(|orgs|, i requires 0 <= i < |orgs| => orgs[i].name)
  }

  /** `ORGANIZATIONS[name]` when the key is present. */
  function FindOrganization(orgs: seq<Organization>, name: string): (r: Option<Organization>)
    ensures r.None? <==> forall i :: 0 <= i < |orgs| ==> orgs[i].name != name
    ensures r.Some? ==> r.value in orgs && r.value.name == name
    decreases |orgs|
  {
    if |orgs| == 0 then None
    else if orgs[0].name == name then Some(orgs[0])
    else
      var r := FindOrganization(orgs[1..], name);
      assert forall i :: 1 <= i < |orgs| ==> orgs[i] == orgs[1..][i - 1];
      r
  }

  /** In a well-formed table the entry found is the one entry with that name. */
  lemma FindOrganizationIsUnique(orgs: seq<Organization>, name: string, i: nat)
    requires UniqueNames(orgs)
    requires i < |orgs| && orgs[i].name == name
    ensures FindOrganization(orgs, name) == Some(orgs[i])
  {
    var o := FindOrganization(orgs, name).value;
    var j :| 0 <= j < |orgs| && orgs[j] == o;
    assert j == i;
  }

  function CaseOfOrg(name: string): SecurityCase -> bool {
    (c: SecurityCase) => c.org == name
  }

  function ActiveCase(): SecurityCase -> bool {
    (c: SecurityCase) => c.status == "active"
  }

  function SignalOfOrg(name: string): Signal -> bool {
    (s: Signal) => s.org == name
  }

  /** `[s["timestamp"] for s in signals]`. */
  function Timestamps(signals: seq<Signal>): (ts: seq<string>)
    ensures |ts| == |signals|
    ensures forall i :: 0 <= i < |signals| ==> ts[i] == signals[i].timestamp
  {
    seq(|signals|, i requires 0 <= i < |signals| => signals[i].timestamp)
  }

  /** The reply of `get_organization_details` for a known organization: its own fields and name, plus activity figures. */
  datatype OrganizationDetails = OrganizationDetails(
    org: Organization,
    activeCases: nat,
    totalCases: nat,
    recentSignals: nat,
    lastActivity: string)

  function OrganizationNotFound(name: string): string {
    "Organization '" + name + "' not found"
  }

  /**
   * `get_organization_details`: an error for an unknown name; otherwise the
   * organization's entry with the number of its cases, of its active
   * cases, of its signals, and its latest signal timestamp (`"N/A"` when
   * it has none).
   */
  function GetOrganizationDetails(orgs: seq<Organization>, cases: seq<SecurityCase>, signals: seq<Signal>, name: string)
    : (r: Result<OrganizationDetails, string>)
    ensures r.Failure? <==> forall i :: 0 <= i < |orgs| ==> orgs[i].name != name
    ensures r.Failure? ==> r.error == OrganizationNotFound(name)
    ensures r.Success? ==> var d := r.value;
      && d.org in orgs && d.org.name == name
      && d.totalCases == Count(cases, CaseOfOrg(name))
      && d.activeCases == Count(Filter(cases, CaseOfOrg(name)), ActiveCase())
      && d.activeCases <= d.totalCases
      && d.recentSignals == Count(signals, SignalOfOrg(name))
      && (d.recentSignals == 0 ==> d.lastActivity == "N/A")
      && (d.recentSignals > 0 ==>
            && (exists s :: s in signals && s.org == name && s.timestamp == d.lastActivity)
            && (forall s :: s in signals && s.org == name ==> LexLe(s.timestamp, d.lastActivity)))
  {
    match FindOrganization(orgs, name)
    case None => Failure(OrganizationNotFound(name))
    case Some(org) =>
      var related := Filter(cases, CaseOfOrg(name));
      var active := Filter(related, ActiveCase());
      var relatedSignals := Filter(signals, SignalOfOrg(name));
      var stamps := Timestamps(relatedSignals);
      FilterLength(cases, CaseOfOrg(name));
      FilterLength(related, ActiveCase());
      FilterLength(signals, SignalOfOrg(name));
      LatestStamp(relatedSignals, stamps);
      Success(OrganizationDetails(org, |active|, |related|, |relatedSignals|, MaxStringOr(stamps, "N/A")))
  }

  /** The greatest timestamp of a list of signals is the timestamp of one of them and no smaller than any. */
  lemma LatestStamp(signals: seq<Signal>, stamps: seq<string>)
    requires stamps == Timestamps(signals)
    ensures |signals| > 0 ==>
      && (exists s :: s in signals && s.timestamp == MaxStringOr(stamps, "N/A"))
      && (forall s :: s in signals ==> LexLe(s.timestamp, MaxStringOr(stamps, "N/A")))
  {
    if |signals| > 0 {
      var m := MaxStringOr(stamps, "N/A");
      var k :| 0 <= k < |stamps| && stamps[k] == m;
      assert signals[k] in signals;
      forall s | s in signals
        ensures LexLe(s.timestamp, m)
      {
        var i :| 0 <= i < |signals| && signals[i] == s;
        assert stamps[i] in stamps;
      }
    }
  }

  /**
   * `filter_organizations_by_type`: in table order, exactly the entries
   * whose type equals the requested one ignoring case, each as often as
   * the table holds it.
   */
  function FilterOrganizationsByType(orgs: seq<Organization>, orgType: string): (r: seq<Organization>)
    ensures IsSubseq(r, orgs)
    ensures forall o :: o in r <==> o in orgs && Lower(o.orgType) == Lower(orgType)
    ensures forall o :: multiset(r)[o] == if Lower(o.orgType) == Lower(orgType) then multiset(orgs)[o] else 0
  {
    FilterKeepsOrderAndCount(orgs, OfType(orgType));
    Filter(orgs, OfType(orgType))
  }

  function OfType(orgType: string): Organization -> bool {
    (o: Organization) => Lower(o.orgType) == Lower(orgType)
  }

  // ---------------------------------------------------------------------------
  // Cases
  // ---------------------------------------------------------------------------

  /** The default of `list_cases`' `status` parameter, which disables the filter. */
  const AllStatuses := "all"

  function HasStatus(status: string): SecurityCase -> bool {
    (c: SecurityCase) => c.status == status
  }

  /**
   * `list_cases`: every case for `"all"`; otherwise, in table order,
   * exactly the cases whose status equals the given one (case-sensitive).
   */
  function ListCases(cases: seq<SecurityCase>, status: string): (r: seq<SecurityCase>)
    ensures status == AllStatuses ==> r == cases
    ensures IsSubseq(r, cases)
    ensures status != AllStatuses ==>
      && (forall c :: c in r <==> c in cases && c.status == status)
      && (forall c :: multiset(r)[c] == if c.status == status then multiset(cases)[c] else 0)
  {
    if status == AllStatuses then
      IsSubseqReflexive(cases);
      cases
    else
      FilterKeepsOrderAndCount(cases, HasStatus(status));
      Filter(cases, HasStatus(status))
  }

  /** The first case with the given id, if any (`next(..., None)`). */
  function FindCase(cases: seq<SecurityCase>, caseId: string): (r: Option<nat>)
    ensures r.None? <==> forall i :: 0 <= i < |cases| ==> cases[i].id != caseId
    ensures r.Some? ==> r.value < |cases| && cases[r.value].id == caseId
    ensures r.Some? ==> forall j :: 0 <= j < r.value ==> cases[j].id != caseId
    decreases |cases|
  {
    if |cases| == 0 then None
    else if cases[0].id == caseId then Some(0)
    else
      var r := FindCase(cases[1..], caseId);
      assert forall i :: 1 <= i < |cases| ==> cases[i] == cases[1..][i - 1];
      match r
      case None => None
      case Some(k) => Some(k + 1)
  }

  /** A signal relates to a case when it comes from the same organization and its upper-cased type occurs in the case's upper-cased type. */
  function RelatedTo(c: SecurityCase): Signal -> bool {
    (s: Signal) => s.org == c.org && Contains(Upper(c.caseType), Upper(s.signalType))
  }

  /** How many related signals are quoted in full. */
  const RecentLimit: nat := 3

  /** The reply of `get_case_details` for a known case. */
  datatype CaseDetails = CaseDetails(secCase: SecurityCase, relatedSignals: nat, recentSignals: seq<Signal>)

  function CaseNotFound(caseId: string): string {
    "Case '" + caseId + "' not found"
  }

  /**
   * `get_case_details`: an error for an unknown id; otherwise the first
   * case with that id, how many signals relate to it, and the first three
   * of them in table order.
   */
  function GetCaseDetails(cases: seq<SecurityCase>, signals: seq<Signal>, caseId: string): (r: Result<CaseDetails, string>)
    ensures r.Failure? <==> forall i :: 0 <= i < |cases| ==> cases[i].id != caseId
    ensures r.Failure? ==> r.error == CaseNotFound(caseId)
    ensures r.Success? ==> var d := r.value;
      && (exists i :: 0 <= i < |cases| && cases[i] == d.secCase && forall j :: 0 <= j < i ==> cases[j].id != caseId)
      && d.secCase.id == caseId
      && d.relatedSignals == Count(signals, RelatedTo(d.secCase))
      && |d.recentSignals| == (if d.relatedSignals < RecentLimit then d.relatedSignals else RecentLimit)
      && d.recentSignals <= Filter(signals, RelatedTo(d.secCase))
      && (forall s :: s in d.recentSignals ==> s in signals && RelatedTo(d.secCase)(s))
  {
    match FindCase(cases, caseId)
    case None => Failure(CaseNotFound(caseId))
    case Some(i) =>
      var c := cases[i];
      var related := Filter(signals, RelatedTo(c));
      FilterLength(signals, RelatedTo(c));
      var n := if |related| < RecentLimit then |related| else RecentLimit;
      assert forall s :: s in related[..n] ==> s in related;
      Success(CaseDetails(c, |related|, related[..n]))
  }

  // ---------------------------------------------------------------------------
  // Signals
  // ---------------------------------------------------------------------------

  /** The default of both `list_signals` parameters, which disables that filter. */
  const AnySignal := "all"

  /** A signal passes `list_signals`' filters: exact organization, type ignoring case, each skipped for `"all"`. */
  predicate PassesFilters(s: Signal, orgName: string, signalType: string) {
    && (orgName == AnySignal || s.org == orgName)
    && TypeMatches(s, signalType)
  }

  function FromOrg(orgName: string): Signal -> bool {
    (s: Signal) => s.org == orgName
  }

  function OfSignalType(signalType: string): Signal -> bool {
    (s: Signal) => Lower(s.signalType) == Lower(signalType)
  }

  /** The organization filter of `list_signals`, skipped for `"all"`. */
  function ByOrg(signals: seq<Signal>, orgName: string): (r: seq<Signal>)
    ensures IsSubseq(r, signals)
    ensures forall s :: multiset(r)[s] == if orgName == AnySignal || s.org == orgName then multiset(signals)[s] else 0
  {
    if orgName == AnySignal then
      IsSubseqReflexive(signals);
      signals
    else
      FilterKeepsOrderAndCount(signals, FromOrg(orgName));
      Filter(signals, FromOrg(orgName))
  }

  predicate TypeMatches(s: Signal, signalType: string) {
    signalType == AnySignal || Lower(s.signalType) == Lower(signalType)
  }

  /** The type filter of `list_signals`, skipped for `"all"`. */
  function ByType(signals: seq<Signal>, signalType: string): (r: seq<Signal>)
    ensures IsSubseq(r, signals)
    ensures forall s :: multiset(r)[s] == if TypeMatches(s, signalType) then multiset(signals)[s] else 0
  {
    if signalType == AnySignal then
      IsSubseqReflexive(signals);
      signals
    else
      FilterKeepsOrderAndCount(signals, OfSignalType(signalType));
      Filter(signals, OfSignalType(signalType))
  }

  /**
   * `list_signals`: in table order, exactly the signals that pass both
   * filters, each as often as the table holds it; with both filters at
   * `"all"`, every signal.
   */
  function ListSignals(signals: seq<Signal>, orgName: string, signalType: string): (r: seq<Signal>)
    ensures orgName == AnySignal && signalType == AnySignal ==> r == signals
    ensures IsSubseq(r, signals)
    ensures forall s :: multiset(r)[s] == if PassesFilters(s, orgName, signalType) then multiset(signals)[s] else 0
    ensures forall s :: s in r <==> s in signals && PassesFilters(s, orgName, signalType)
  {
    var byOrg := ByOrg(signals, orgName);
    var r := ByType(byOrg, signalType);
    IsSubseqTransitive(r, byOrg, signals);
    r
  }

  // ---------------------------------------------------------------------------
  // The summary
  // ---------------------------------------------------------------------------

  /** `[o["risk_level"] for o in ORGANIZATIONS.values()]`. */
  function RiskLevels(orgs: seq<Organization>): (ks: seq<string>)
    ensures |ks| == |orgs|
    ensures forall i :: 0 <= i < |orgs| ==> ks[i] == orgs[i].riskLevel
  {
    seq(|orgs|, i requires 0 <= i < |orgs| => orgs[i].riskLevel)
  }

  /** `[c["status"] for c in SECURITY_CASES]`. */
  function Statuses(cases: seq<SecurityCase>): (ks: seq<string>)
    ensures |ks| == |cases|
    ensures forall i :: 0 <= i < |cases| ==> ks[i] == cases[i].status
  {
    seq(|cases|, i requires 0 <= i < |cases| => cases[i].status)
  }

  function HasRisk(level: string): Organization -> bool {
    (o: Organization) => o.riskLevel == level
  }

  function HasSeverity(severity: string): SecurityCase -> bool {
    (c: SecurityCase) => c.severity == severity
  }

  /** `risk_distribution`: one entry per risk level that occurs, in order of first occurrence, counting its organizations. */
  function RiskDistribution(orgs: seq<Organization>): (t: Tally)
    ensures DistinctKeys(t)
    ensures Total(t) == |orgs|
    ensures forall k :: HasKey(t, k) <==> exists o :: o in orgs && o.riskLevel == k
    ensures forall k :: CountOf(t, k) == Count(orgs, HasRisk(k))
  {
    var t := TallyOf(RiskLevels(orgs));
    LevelsOccur(orgs);
    forall k
      ensures CountOf(t, k) == Count(orgs, HasRisk(k))
    {
      RiskCount(orgs, k);
    }
    t
  }

  /** `case_status_distribution`: one entry per status that occurs, in order of first occurrence, counting its cases. */
  function StatusDistribution(cases: seq<SecurityCase>): (t: Tally)
    ensures DistinctKeys(t)
    ensures Total(t) == |cases|
    ensures forall k :: HasKey(t, k) <==> exists c :: c in cases && c.status == k
    ensures forall k :: CountOf(t, k) == Count(cases, HasStatus(k))
  {
    var t := TallyOf(Statuses(cases));
    StatusesOccur(cases);
    forall k
      ensures CountOf(t, k) == Count(cases, HasStatus(k))
    {
      StatusCount(cases, k);
    }
    t
  }

  /** The risk levels come in the order of the first organization that has each. */
  lemma RiskDistributionInFirstOccurrenceOrder(orgs: seq<Organization>)
    ensures InFirstOccurrenceOrder(RiskDistribution(orgs), RiskLevels(orgs))
  {
    TallyInFirstOccurrenceOrder(RiskLevels(orgs));
  }

  /** The statuses come in the order of the first case that has each. */
  lemma StatusDistributionInFirstOccurrenceOrder(cases: seq<SecurityCase>)
    ensures InFirstOccurrenceOrder(StatusDistribution(cases), Statuses(cases))
  {
    TallyInFirstOccurrenceOrder(Statuses(cases));
  }

  /** The counts and distributions of `get_security_summary` (its clock reading and fixed top list are not modelled). */
  datatype Summary = Summary(
    totalOrganizations: nat,
    highRiskOrganizations: nat,
    activeCases: nat,
    criticalCases: nat,
    recentSignals: nat,
    riskDistribution: Tally,
    caseStatusDistribution: Tally)

  /**
   * `get_security_summary`: the distributions count every organization and
   * every case once, and the high-risk and active figures agree with the
   * buckets of the same name (0 when the bucket is absent).
   */
  function SecuritySummary(orgs: seq<Organization>, cases: seq<SecurityCase>, signals: seq<Signal>): (r: Summary)
    ensures r.totalOrganizations == |orgs|
    ensures r.recentSignals == |signals|
    ensures Total(r.riskDistribution) == r.totalOrganizations
    ensures Total(r.caseStatusDistribution) == |cases|
    ensures r.highRiskOrganizations == CountOf(r.riskDistribution, "high")
    ensures r.activeCases == CountOf(r.caseStatusDistribution, "active")
    ensures r.activeCases <= |cases| && r.criticalCases <= |cases|
    ensures r.criticalCases == Count(cases, HasSeverity("critical"))
    ensures r.riskDistribution == RiskDistribution(orgs) && r.caseStatusDistribution == StatusDistribution(cases)
  {
    var highRisk := Filter(orgs, HasRisk("high"));
    var active := Filter(cases, HasStatus("active"));
    var critical := Filter(cases, HasSeverity("critical"));
    FilterLength(orgs, HasRisk("high"));
    FilterLength(cases, HasStatus("active"));
    FilterLength(cases, HasSeverity("critical"));
    var risk := RiskDistribution(orgs);
    var status := StatusDistribution(cases);
    assert CountOf(risk, "high") == Count(orgs, HasRisk("high"));
    assert CountOf(status, "active") == Count(cases, HasStatus("active"));
    Summary(|orgs|, |highRisk|, |active|, |critical|, |signals|, risk, status)
  }

  /** Counting organizations at a risk level is counting that level among the levels. */
  lemma {:induction false} RiskCount(orgs: seq<Organization>, level: string)
    ensures Count(orgs, HasRisk(level)) == multiset(RiskLevels(orgs))[level]
    decreases |orgs|
  {
    if |orgs| > 0 {
      RiskCount(orgs[1..], level);
      assert RiskLevels(orgs) == [orgs[0].riskLevel] + RiskLevels(orgs[1..]);
    }
  }

  lemma {:induction false} StatusCount(cases: seq<SecurityCase>, status: string)
    ensures Count(cases, HasStatus(status)) == multiset(Statuses(cases))[status]
    decreases |cases|
  {
    if |cases| > 0 {
      StatusCount(cases[1..], status);
      assert Statuses(cases) == [cases[0].status] + Statuses(cases[1..]);
    }
  }

  lemma LevelsOccur(orgs: seq<Organization>)
    ensures forall k :: k in RiskLevels(orgs) <==> exists o :: o in orgs && o.riskLevel == k
  {
    var ks := RiskLevels(orgs);
    forall k | k in ks
      ensures exists o :: o in orgs && o.riskLevel == k
    {
      var i :| 0 <= i < |ks| && ks[i] == k;
      assert orgs[i] in orgs;
    }
    forall o | o in orgs
      ensures o.riskLevel in ks
    {
      var i :| 0 <= i < |orgs| && orgs[i] == o;
      assert ks[i] == o.riskLevel;
    }
  }

  lemma StatusesOccur(cases: seq<SecurityCase>)
    ensures forall k :: k in Statuses(cases) <==> exists c :: c in cases && c.status == k
  {
    var ks := Statuses(cases);
    forall k | k in ks
      ensures exists c :: c in cases && c.status == k
    {
      var i :| 0 <= i < |ks| && ks[i] == k;
      assert cases[i] in cases;
    }
    forall c | c in cases
      ensures c.status in ks
    {
      var i :| 0 <= i < |cases| && cases[i] == c;
      assert ks[i] == c.status;
    }
  }

  // ---------------------------------------------------------------------------
  // Properties across tools
  // ---------------------------------------------------------------------------

  /** Every name `list_organizations` returns can be looked up, and the details describe that organization. */
  lemma ListedOrganizationsResolve(orgs: seq<Organization>, cases: seq<SecurityCase>, signals: seq<Signal>, i: nat)
    requires UniqueNames(orgs)
    requires i < |orgs|
    ensures var name := ListOrganizations(orgs)[i];
      var r := GetOrganizationDetails(orgs, cases, signals, name);
      r.Success? && r.value.org == orgs[i]
  {
    FindOrganizationIsUnique(orgs, orgs[i].name, i);
  }

  /** An organization's active cases are among the cases `list_cases("active")` returns. */
  lemma ActiveCasesAreListed(orgs: seq<Organization>, cases: seq<SecurityCase>, signals: seq<Signal>, name: string)
    requires GetOrganizationDetails(orgs, cases, signals, name).Success?
    ensures GetOrganizationDetails(orgs, cases, signals, name).value.activeCases
      <= |ListCases(cases, "active")|
  {
    var related := Filter(cases, CaseOfOrg(name));
    var active := Filter(related, ActiveCase());
    FilterKeepsOrderAndCount(related, ActiveCase());
    FilterKeepsOrderAndCount(cases, CaseOfOrg(name));
    FilterKeepsOrderAndCount(cases, HasStatus("active"));
    SubMultiset(active, ListCases(cases, "active"), related, cases, name);
  }

  lemma SubMultiset(active: seq<SecurityCase>, listed: seq<SecurityCase>, related: seq<SecurityCase>, cases: seq<SecurityCase>, name: string)
    requires forall c :: multiset(active)[c] == if c.status == "active" then multiset(related)[c] else 0
    requires forall c :: multiset(related)[c] == if c.org == name then multiset(cases)[c] else 0
    requires forall c :: multiset(listed)[c] == if c.status == "active" then multiset(cases)[c] else 0
    ensures |active| <= |listed|
  {
    var extra := multiset(listed) - multiset(active);
    assert multiset(listed) == multiset(active) + extra;
    assert |multiset(listed)| == |multiset(active)| + |extra|;
  }
}
