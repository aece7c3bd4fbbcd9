/**
 * The keyword table the LLM client falls back on when it cannot (or fails
 * to) ask the language model: every group of keywords that occurs in the
 * lower-cased query contributes one ready-made `tool:` command, in table
 * order. A group may refine its command by a second, nested keyword table
 * whose first matching row wins, with an optional default.
 */
module Suggestions {
  import opened Wrappers
  import opened Text

  /** One row of a nested table: its keywords and the command it suggests. */
  datatype SubRule = SubRule(keywords: seq<string>, suggestion: string)

  /** What a matching top-level group contributes. */
  datatype Action =
    | Direct(suggestion: string)
    | Nested(rules: seq<SubRule>, fallback: Option<string>)

  /** One top-level row: a keyword group and its action. */
  datatype Entry = Entry(keywords: seq<string>, action: Action)

  /** `any(word in q for word in keywords)`: some keyword occurs in `q` as a substring. */
  predicate AnyIn(q: string, keywords: seq<string>) {
    exists k :: k in keywords && Contains(q, k)
  }

  /** Row `i` is the first row of `rules` whose keywords occur in `q`. */
  predicate FirstHit(rules: seq<SubRule>, q: string, i: int) {
    && 0 <= i < |rules|
    && AnyIn(q, rules[i].keywords)
    && forall j :: 0 <= j < i ==> !AnyIn(q, rules[j].keywords)
  }

  /**
   * The nested loop with its `break` and `for ... else`: the command of the
   * first row that matches, or the default when no row matches.
   */
  function FirstMatch(rules: seq<SubRule>, q: string, fallback: Option<string>): (r: Option<string>)
    ensures (forall i :: 0 <= i < |rules| ==> !AnyIn(q, rules[i].keywords)) ==> r == fallback
    ensures forall i :: FirstHit(rules, q, i) ==> r == Some(rules[i].suggestion)
    decreases |rules|
  {
    if |rules| == 0 then fallback
    else if AnyIn(q, rules[0].keywords) then Some(rules[0].suggestion)
    else
      var r := FirstMatch(rules[1..], q, fallback);
      assert forall i :: FirstHit(rules, q, i) ==> FirstHit(rules[1..], q, i - 1) by {
        forall i | FirstHit(rules, q, i)
          ensures FirstHit(rules[1..], q, i - 1)
        {
          assert i != 0;
          forall j | 0 <= j < i - 1
            ensures !AnyIn(q, rules[1..][j].keywords)
          {
            assert rules[1..][j] == rules[j + 1];
          }
        }
      }
      r
  }

  /** The command one top-level row contributes to the query, if any. */
  function EntrySuggestion(e: Entry, q: string): Option<string> {
    if !AnyIn(q, e.keywords) then None
    else
      match e.action
      case Direct(s) => Some(s)
      case Nested(rules, fallback) => FirstMatch(rules, q, fallback)
  }

  /** The values of the present options, in order, each as often as it is present. */
  function Present(os: seq<Option<string>>): (r: seq<string>)
    ensures |r| <= |os|
    ensures forall s :: multiset(r)[s] == multiset(os)[Some(s)]
    ensures forall s :: s in r <==> Some(s) in os
    decreases |os|
  {
    if |os| == 0 then []
    else
      var rest := Present(os[1..]);
      assert os == [os[0]] + os[1..];
      assert multiset(os) == multiset([os[0]]) + multiset(os[1..]);
      match os[0]
      case Some(s) =>
        assert multiset([s] + rest) == multiset([s]) + multiset(rest);
        [s] + rest
      case None => rest
  }

  /** What each row of the table contributes, row by row. */
  function RowSuggestions(table: seq<Entry>, q: string): (os: seq<Option<string>>)
    ensures |os| == |table|
    ensures forall i :: 0 <= i < |table| ==> os[i] == EntrySuggestion(table[i], q)
  {
    seq(|table|, i requires 0 <= i < |table| => EntrySuggestion(table[i], q))
  }

  /** The list of suggestions: one per row that contributes, in table order. */
  function SuggestFrom(table: seq<Entry>, q: string): (r: seq<string>)
    ensures |r| <= |table|
    ensures forall s :: s in r <==> exists i :: 0 <= i < |table| && EntrySuggestion(table[i], q) == Some(s)
    ensures forall s :: multiset(r)[s] == multiset(RowSuggestions(table, q))[Some(s)]
  {
    var os := RowSuggestions(table, q);
    assert forall s :: Some(s) in os <==> exists i :: 0 <= i < |os| && os[i] == Some(s);
    Present(os)
  }

  /** A table none of whose rows contributes suggests nothing. */
  lemma SilentTable(table: seq<Entry>, q: string)
    requires forall i :: 0 <= i < |table| ==> !AnyIn(q, table[i].keywords)
    ensures SuggestFrom(table, q) == []
  {
    NonePresent(RowSuggestions(table, q));
  }

  lemma {:induction false} NonePresent(os: seq<Option<string>>)
    requires forall i :: 0 <= i < |os| ==> os[i].None?
    ensures Present(os) == []
    decreases |os|
  {
    if |os| > 0 {
      NonePresent(os[1..]);
    }
  }

  /** `x` is listed strictly before `y`. */
  predicate Before(r: seq<string>, x: string, y: string) {
    exists a, b :: 0 <= a < b < |r| && r[a] == x && r[b] == y
  }

  /** Suggestions appear in the order of the rows that produced them. */
  lemma SuggestionsInTableOrder(table: seq<Entry>, q: string, i: nat, j: nat, x: string, y: string)
    requires i < j < |table|
    requires EntrySuggestion(table[i], q) == Some(x)
    requires EntrySuggestion(table[j], q) == Some(y)
    ensures Before(SuggestFrom(table, q), x, y)
  {
    PresentInOrder(RowSuggestions(table, q), i, j, x, y);
  }

  /** Present values keep the order of their positions. */
  lemma {:induction false} PresentInOrder(os: seq<Option<string>>, i: nat, j: nat, x: string, y: string)
    requires i < j < |os|
    requires os[i] == Some(x) && os[j] == Some(y)
    ensures Before(Present(os), x, y)
    decreases |os|
  {
    var rest := Present(os[1..]);
    assert os[1..][j - 1] == os[j];
    if i == 0 {
      assert Present(os) == [x] + rest;
      BeforeOfCons(x, rest, y);
    } else {
      assert os[1..][i - 1] == os[i];
      PresentInOrder(os[1..], i - 1, j - 1, x, y);
      BeforeOfConcat(Present(os)[..|Present(os)| - |rest|], rest, x, y);
      assert Present(os) == Present(os)[..|Present(os)| - |rest|] + rest;
    }
  }

  lemma BeforeOfCons(x: string, rest: seq<string>, y: string)
    requires y in rest
    ensures Before([x] + rest, x, y)
  {
    var r := [x] + rest;
    var b :| 0 <= b < |rest| && rest[b] == y;
    assert r[0] == x && r[b + 1] == y;
  }

  lemma BeforeOfConcat(h: seq<string>, rest: seq<string>, x: string, y: string)
    requires Before(rest, x, y)
    ensures Before(h + rest, x, y)
  {
    var a, b :| 0 <= a < b < |rest| && rest[a] == x && rest[b] == y;
    var r := h + rest;
    assert r[|h| + a] == x && r[|h| + b] == y;
  }

  // ---------------------------------------------------------------------------
  // The client's table
  // ---------------------------------------------------------------------------

  const SummaryCall := "tool: get_security_summary"
  const ListOrganizationsCall := "tool: list_organizations"
  const OrganizationDetailsCall := "tool: get_organization_details org_name=OrgA"
  const ActiveCasesCall := "tool: list_cases status=active"
  const CaseDetailsCall := "tool: get_case_details case_id=CASE001"
  const ListCasesCall := "tool: list_cases"
  const ListSignalsCall := "tool: list_signals"
  const HealthCall := "tool: health"

  const SummaryKeywords: seq<string> := ["summary", "overview", "status", "metrics"]
  const OrganizationKeywords: seq<string> := ["organization", "org", "company"]
  const CaseKeywords: seq<string> := ["case", "incident", "security case"]
  const SignalKeywords: seq<string> := ["signal", "alert", "detection"]
  const HealthKeywords: seq<string> := ["health", "check", "status"]

  const OrganizationRules: seq<SubRule> := [
    SubRule(["list", "all"], ListOrganizationsCall),
    SubRule(["details", "info", "about"], OrganizationDetailsCall)
  ]

  const CaseRules: seq<SubRule> := [
    SubRule(["active"], ActiveCasesCall),
    SubRule(["details", "info"], CaseDetailsCall)
  ]

  /** The five groups, in the order the client's dict lists them. */
  const Table: seq<Entry> := [
    Entry(SummaryKeywords, Direct(SummaryCall)),
    Entry(OrganizationKeywords, Nested(OrganizationRules, None)),
    Entry(CaseKeywords, Nested(CaseRules, Some(ListCasesCall))),
    Entry(SignalKeywords, Direct(ListSignalsCall)),
    Entry(HealthKeywords, Direct(HealthCall))
  ]

  /** `_get_tool_suggestions`: the table applied to the lower-cased query. */
  function ToolSuggestions(query: string): (r: seq<string>)
    ensures |r| <= |Table|
    ensures forall s :: s in r <==> exists i :: 0 <= i < |Table| && EntrySuggestion(Table[i], Lower(query)) == Some(s)
    ensures forall s :: multiset(r)[s] == multiset(RowSuggestions(Table, Lower(query)))[Some(s)]
  {
    SuggestFrom(Table, Lower(query))
  }

  /** A query none of whose words touch any group gets no suggestion at all. */
  lemma NoKeywordNoSuggestion(query: string)
    requires forall i :: 0 <= i < |Table| ==> !AnyIn(Lower(query), Table[i].keywords)
    ensures ToolSuggestions(query) == []
  {
    SilentTable(Table, Lower(query));
  }

  /** "status" sits in two groups: it suggests the summary and then the health check. */
  lemma StatusSuggestsSummaryThenHealth(query: string)
    requires Contains(Lower(query), "status")
    ensures Before(ToolSuggestions(query), SummaryCall, HealthCall)
  {
    var q := Lower(query);
    assert SummaryKeywords[2] == "status";
    assert HealthKeywords[2] == "status";
    assert EntrySuggestion(Table[0], q) == Some(SummaryCall);
    assert EntrySuggestion(Table[4], q) == Some(HealthCall);
    SuggestionsInTableOrder(Table, q, 0, 4, SummaryCall, HealthCall);
  }

  /** A case query that names none of the refinements falls back to listing all cases. */
  lemma CaseQueryDefaultsToListCases(query: string)
    requires AnyIn(Lower(query), CaseKeywords)
    requires !Contains(Lower(query), "active")
    requires !Contains(Lower(query), "details") && !Contains(Lower(query), "info")
    ensures ListCasesCall in ToolSuggestions(query)
  {
    var q := Lower(query);
    assert !AnyIn(q, CaseRules[0].keywords);
    assert !AnyIn(q, CaseRules[1].keywords);
    assert EntrySuggestion(Table[2], q) == Some(ListCasesCall);
  }

  /** In the case group, "active" is checked first and stops the search. */
  lemma ActiveCasesWinOverDetails(query: string)
    requires AnyIn(Lower(query), CaseKeywords)
    requires Contains(Lower(query), "active")
    ensures EntrySuggestion(Table[2], Lower(query)) == Some(ActiveCasesCall)
    ensures ActiveCasesCall in ToolSuggestions(query)
  {
    var q := Lower(query);
    assert CaseRules[0].keywords[0] == "active";
    assert FirstHit(CaseRules, q, 0);
  }

  /** The organization group has no default: naming an organization alone adds nothing for that group. */
  lemma OrganizationGroupWithoutRefinement(query: string)
    requires forall k :: k in OrganizationRules[0].keywords + OrganizationRules[1].keywords ==> !Contains(Lower(query), k)
    ensures EntrySuggestion(Table[1], Lower(query)) == None
  {
    var q := Lower(query);
    assert !AnyIn(q, OrganizationRules[0].keywords);
    assert !AnyIn(q, OrganizationRules[1].keywords);
  }

  // ---------------------------------------------------------------------------
  // The fallback message
  // ---------------------------------------------------------------------------

  const SuggestionHeader := "\n\nTry these direct tool calls:\n"
  const Bullet := "\U{2022} "

  /** `f"• {s}"` for every suggestion. */
  function Bullets(ss: seq<string>): (bs: seq<string>)
    ensures |bs| == |ss|
    ensures forall i :: 0 <= i < |ss| ==> bs[i] == Bullet + ss[i]
  {
    seq(|ss|, i requires 0 <= i < |ss| => Bullet + ss[i])
  }

  /**
   * The error message with the suggestions appended, one bulleted line
   * each, when there are any; the bare message otherwise.
   */
  function WithSuggestions(msg: string, ss: seq<string>): (r: string)
    ensures |ss| == 0 ==> r == msg
    ensures |ss| > 0 ==> StartsWith(r, msg + SuggestionHeader)
  {
    if |ss| == 0 then msg
    else
      var r := msg + SuggestionHeader + Join("\n", Bullets(ss));
      assert r[..|msg + SuggestionHeader|] == msg + SuggestionHeader;
      r
  }

  /**
   * Every suggestion appears in the message as its own bulleted line, at the
   * place its position dictates: a newline comes right before the bullet,
   * and right after the suggestion comes a newline, or the end of the
   * message for the last one.
   */
  lemma SuggestionListed(msg: string, ss: seq<string>, i: nat)
    requires i < |ss|
    ensures OccursAt(WithSuggestions(msg, ss), Bullet + ss[i], |msg| + |SuggestionHeader| + JoinOffset("\n", Bullets(ss), i))
    ensures OccursAt(WithSuggestions(msg, ss), "\n", |msg| + |SuggestionHeader| + JoinOffset("\n", Bullets(ss), i) - 1)
    ensures i + 1 < |ss| ==>
      OccursAt(WithSuggestions(msg, ss), "\n", |msg| + |SuggestionHeader| + JoinOffset("\n", Bullets(ss), i) + |Bullet + ss[i]|)
    ensures i + 1 == |ss| ==>
      |WithSuggestions(msg, ss)| == |msg| + |SuggestionHeader| + JoinOffset("\n", Bullets(ss), i) + |Bullet + ss[i]|
  {
    BulletLineStarts(msg, ss, i);
    BulletLineEnds(msg, ss, i);
  }

  /** A bullet sits at its offset in the message, right after a newline. */
  lemma BulletLineStarts(msg: string, ss: seq<string>, i: nat)
    requires i < |ss|
    ensures OccursAt(WithSuggestions(msg, ss), Bullet + ss[i], |msg| + |SuggestionHeader| + JoinOffset("\n", Bullets(ss), i))
    ensures OccursAt(WithSuggestions(msg, ss), "\n", |msg| + |SuggestionHeader| + JoinOffset("\n", Bullets(ss), i) - 1)
  {
    var bs := Bullets(ss);
    assert bs[i] == Bullet + ss[i];
    MessageFrame(msg, ss);
    JoinInFrame(msg + SuggestionHeader, "\n", bs, "", i);
    NewlineBeforeBullet(msg, ss, i);
  }

  /** The header ends with a newline, and every later bullet follows a separating newline. */
  lemma NewlineBeforeBullet(msg: string, ss: seq<string>, i: nat)
    requires i < |ss|
    ensures OccursAt(WithSuggestions(msg, ss), "\n", |msg| + |SuggestionHeader| + JoinOffset("\n", Bullets(ss), i) - 1)
  {
    var pre := msg + SuggestionHeader;
    MessageFrame(msg, ss);
    assert pre[|pre| - 1..] == "\n";
    JoinPieceFollowsSeparator(pre, "\n", Bullets(ss), "", i);
  }


  /** Right after a suggestion comes a newline, or the end of the message after the last one. */
  lemma BulletLineEnds(msg: string, ss: seq<string>, i: nat)
    requires i < |ss|
    ensures i + 1 < |ss| ==>
      OccursAt(WithSuggestions(msg, ss), "\n", |msg| + |SuggestionHeader| + JoinOffset("\n", Bullets(ss), i) + |Bullet + ss[i]|)
    ensures i + 1 == |ss| ==>
      |WithSuggestions(msg, ss)| == |msg| + |SuggestionHeader| + JoinOffset("\n", Bullets(ss), i) + |Bullet + ss[i]|
  {
    MessageFrame(msg, ss);
    JoinInFrame(msg + SuggestionHeader, "\n", Bullets(ss), "", i);
  }


  /** A non-empty suggestion list turns the message into the header line followed by the joined bullets. */
  lemma MessageFrame(msg: string, ss: seq<string>)
    requires |ss| > 0
    ensures WithSuggestions(msg, ss) == (msg + SuggestionHeader) + Join("\n", Bullets(ss)) + ""
    ensures |msg + SuggestionHeader| == |msg| + |SuggestionHeader|
    ensures |msg + SuggestionHeader| > 0 && (msg + SuggestionHeader)[|msg + SuggestionHeader| - 1] == '\n'
  {
    assert SuggestionHeader[|SuggestionHeader| - 1] == '\n';
  }

}
