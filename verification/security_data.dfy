/**
 * The MCP server's three in-memory tables: organizations (a dict keyed by
 * name), security cases and security signals, with the demonstration data
 * the server ships. Every tool takes the tables as parameters, so its
 * properties hold for any data; the constants below are the shipped rows.
 */
module SecurityData {

  /** One entry of `ORGANIZATIONS`: the dict key and its `type`, `employees` and `risk_level`. */
  datatype Organization = Organization(name: string, orgType: string, employees: nat, riskLevel: string)

  /** One entry of `SECURITY_CASES`. */
  datatype SecurityCase = SecurityCase(
    id: string,
    caseType: string,
    severity: string,
    status: string,
    org: string,
    createdAt: string,
    updatedAt: string)

  /**
   * One entry of `SECURITY_SIGNALS`. Each signal carries one extra field
   * whose name varies (`source_ip`, `affected_host`, `sender`); it is kept
   * as a name/value pair.
   */
  datatype Signal = Signal(
    id: string,
    timestamp: string,
    signalType: string,
    severity: string,
    message: string,
    org: string,
    detail: (string, string))

  /** Organization names are dict keys, so no two entries share one. */
  predicate UniqueNames(orgs: seq<Organization>) {
    forall i, j :: 0 <= i < j < |orgs| ==> orgs[i].name != orgs[j].name
  }

  const Organizations: seq<Organization> := [
    Organization("OrgA", "technology", 1500, "medium"),
    Organization("OrgB", "finance", 800, "high"),
    Organization("OrgC", "healthcare", 2200, "low"),
    Organization("OrgD", "technology", 3500, "medium"),
    Organization("OrgE", "retail", 1200, "low")
  ]

  const Cases: seq<SecurityCase> := [
    SecurityCase("CASE001", "intrusion", "high", "active", "OrgB", "2024-01-10T14:30:00Z", "2024-01-15T09:00:00Z"),
    SecurityCase("CASE002", "phishing", "medium", "investigating", "OrgA", "2024-01-12T11:15:00Z", "2024-01-14T16:45:00Z"),
    SecurityCase("CASE003", "malware", "low", "resolved", "OrgC", "2024-01-08T08:20:00Z", "2024-01-13T14:30:00Z"),
    SecurityCase("CASE004", "data_breach", "critical", "active", "OrgB", "2024-01-14T22:15:00Z", "2024-01-15T10:30:00Z"),
    SecurityCase("CASE005", "ddos", "medium", "mitigating", "OrgD", "2024-01-13T19:45:00Z", "2024-01-15T08:00:00Z")
  ]

  const Signals: seq<Signal> := [
    Signal("SIG001", "2024-01-15T10:30:00Z", "IDS_ALERT", "high",
      "SQL Injection attempt detected on web server", "OrgB", ("source_ip", "192.168.1.50")),
    Signal("SIG002", "2024-01-15T11:15:00Z", "MALWARE", "medium",
      "Malware hash 0x4f3a2b detected on endpoint", "OrgA", ("affected_host", "workstation-42")),
    Signal("SIG003", "2024-01-15T12:00:00Z", "NETWORK", "medium",
      "Unusual traffic pattern detected", "OrgD", ("source_ip", "10.0.1.100")),
    Signal("SIG004", "2024-01-15T12:30:00Z", "EMAIL", "low",
      "Phishing email blocked by security filter", "OrgC", ("sender", "suspicious@external-domain.com"))
  ]

  /** The shipped organizations table is a well-formed dict. */
  lemma ShippedNamesUnique()
    ensures UniqueNames(Organizations)
  {
    forall i, j | 0 <= i < j < |Organizations|
      ensures Organizations[i].name != Organizations[j].name
    {
      assert Organizations[i].name[3] != Organizations[j].name[3];
    }
  }
}
