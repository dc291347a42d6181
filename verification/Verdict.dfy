/**
 Judging a verifier's submission. A verdict is given only when the submission binds every acceptance
 criterion exactly once to receipts the run earned; everything else makes verification unavailable.
 */
module Verdict {
  import opened Wrappers
  import opened VerifierRecord

  datatype Criterion = Criterion(id: string, text: string)

  datatype Assertion = Assertion(status: string, criterionId: string, evidence: string, refs: seq<string>)

  datatype Verification = Verification(assertion: Assertion, criterion: string, references: seq<string>)

  datatype Cause =
    | NotOneSubmission
    | NotAnObject
    | SaidUnavailable
    | UnknownStatus
    | NoReason
    | NotBound
    | CriterionUnavailable
    | AcceptedTooMuch
    | RejectedNothing
    | NoConsistency
    | NoVisiblePairs
    | NoExactCount
    | NoCurrentSource
    | CurrentSourceNotCited
    | SourceNotFetched

  datatype Judgement =
    | Accepted(verifications: seq<Verification>)
    | Rejected(feedback: string, verifications: seq<Verification>)
    | Unavailable(cause: Cause)

  /** What the acceptance criteria and the work contract ask for besides, and what was observed of it. */
  datatype Demands = Demands(
    consistency: bool, consistencyObserved: bool,
    visiblePairs: bool, visiblePairsObserved: bool,
    exactCount: Option<nat>, counts: set<nat>,
    currentSource: bool, currentTools: set<string>,
    urls: set<string>, fetched: set<string>)

  // ---- criteria -------------------------------------------------------------------------------

  function Decimal(n: nat): (digits: string)
    ensures digits != ""
  {
    if n < 10 then ["0123456789"[n]] else Decimal(n / 10) + ["0123456789"[n % 10]]
  }

  lemma {:induction false} DecimalInjective(m: nat, n: nat)
    requires Decimal(m) == Decimal(n)
    ensures m == n
    decreases m + n
  {
    var last := |Decimal(m)| - 1;
    assert Decimal(m)[last] == Decimal(n)[last];
    if m >= 10 && n >= 10 {
      assert Decimal(m)[..last] == Decimal(m / 10) && Decimal(n)[..last] == Decimal(n / 10);
      DecimalInjective(m / 10, n / 10);
    }
  }

  const DEFAULT_CRITERION: string := "Observable outcome is satisfied"

  /** Numbering the criteria, at most fifty of them; `lines` are the trimmed lines that are not empty. */
  function Definitions(lines: seq<string>): (criteria: seq<Criterion>)
    ensures 1 <= |criteria| <= 50
  {
    var items := if lines == [] then [DEFAULT_CRITERION] else lines;
    var count := if |items| > 50 then 50 else |items|;
    seq(count, i requires 0 <= i < count =>
      Criterion("C" + Decimal(i + 1), if |items[i]| > 2000 then items[i][..2000] else items[i]))
  }

  /** The number some decimal digits write. */
  ghost function Value(digits: string): nat {
    if digits == "" then 0
    else
      var last := digits[|digits| - 1];
      10 * Value(digits[..|digits| - 1]) + if '0' <= last <= '9' then last as nat - '0' as nat else 0
  }

  lemma {:induction false} DecimalWrites(n: nat)
    ensures Value(Decimal(n)) == n
    ensures forall i | 0 <= i < |Decimal(n)| :: '0' <= Decimal(n)[i] <= '9'
    ensures n > 0 ==> Decimal(n)[0] != '0'
  {
    if n >= 10 {
      DecimalWrites(n / 10);
      assert Decimal(n)[..|Decimal(n)| - 1] == Decimal(n / 10);
    }
  }

  /** The criteria are the first fifty lines in order, numbered from C1 and cut at two thousand characters. */
  lemma CriteriaAreNumbered(lines: seq<string>)
    ensures
      var criteria := Definitions(lines);
      && |criteria| == (if |lines| == 0 then 1 else if |lines| < 50 then |lines| else 50)
      && (lines == [] ==> criteria[0].text == "Observable outcome is satisfied")
      && forall i | 0 <= i < |criteria| ::
           && criteria[i].id != "" && criteria[i].id[0] == 'C' && Value(criteria[i].id[1..]) == i + 1
           && (lines != [] ==> criteria[i].text == if |lines[i]| > 2000 then lines[i][..2000] else lines[i])
  {
    var criteria := Definitions(lines);
    forall i | 0 <= i < |criteria|
      ensures criteria[i].id[1..] == Decimal(i + 1) && Value(criteria[i].id[1..]) == i + 1
    {
      DecimalWrites(i + 1);
    }
  }

  ghost predicate DistinctIds(criteria: seq<Criterion>) {
    forall i, j | 0 <= i < j < |criteria| :: criteria[i].id != criteria[j].id
  }

  /** The numbering never repeats. */
  lemma CriteriaAreDistinct(lines: seq<string>)
    ensures DistinctIds(Definitions(lines))
  {
    var criteria := Definitions(lines);
    forall i, j | 0 <= i < j < |criteria|
      ensures criteria[i].id != criteria[j].id
    {
      if criteria[i].id == criteria[j].id {
        assert criteria[i].id[1..] == Decimal(i + 1) && criteria[j].id[1..] == Decimal(j + 1);
        DecimalInjective(i + 1, j + 1);
      }
    }
  }

  // ---- evidence references --------------------------------------------------------------------

  predicate HasPrefix(s: string, prefix: string) {
    prefix <= s
  }

  predicate Known(receipts: seq<Receipt>, callId: string) {
    Find(receipts, callId) < |receipts|
  }

  function RefTo(receipt: Receipt): string {
    CALL + receipt.callId
  }

  /** The references to the receipts of one tool, in the order they were first earned. */
  function RefsOfTool(receipts: seq<Receipt>, tool: string): seq<string> {
    if receipts == [] then []
    else (if receipts[0].tool == tool then [RefTo(receipts[0])] else []) + RefsOfTool(receipts[1..], tool)
  }

  /** normalizeVerifierEvidenceRefs. */
  function Normalized(value: string, receipts: seq<Receipt>): seq<string> {
    var trimmed := Trim(value);
    if HasPrefix(trimmed, CALL) && Known(receipts, trimmed[|CALL|..]) then [trimmed]
    else RefsOfTool(receipts, if HasPrefix(trimmed, "tool:") then trimmed[|"tool:"|..] else trimmed)
  }

  /** A reference whose call has a receipt, so that looking it up is defined. */
  predicate Resolves(ref: string, receipts: seq<Receipt>) {
    HasPrefix(ref, CALL) && Known(receipts, ref[|CALL|..])
  }

  function Filtered(refs: seq<string>, receipts: seq<Receipt>): seq<string> {
    if refs == [] then []
    else (if Resolves(refs[0], receipts) then [refs[0]] else []) + Filtered(refs[1..], receipts)
  }

  function ResolvedRef(ref: Option<string>, receipts: seq<Receipt>): seq<string> {
    if ref.Some? then Filtered(Normalized(ref.value, receipts), receipts) else []
  }

  /** All the references together, or nothing at all if one of them resolves to none. */
  function ResolvedRefs(refs: seq<Option<string>>, receipts: seq<Receipt>): Option<seq<string>> {
    if refs == [] then Some([])
    else
      var first := ResolvedRef(refs[0], receipts);
      var rest := ResolvedRefs(refs[1..], receipts);
      if first == [] || rest.None? then None else Some(first + rest.value)
  }

  function Unique(refs: seq<string>): (unique: seq<string>)
    ensures forall ref :: ref in unique <==> ref in refs
  {
    if refs == [] then []
    else
      var last, before := refs[|refs| - 1], refs[..|refs| - 1];
      assert refs == before + [last];
      if last in before then Unique(before) else Unique(before) + [last]
  }

  lemma {:induction false} FilteredResolve(refs: seq<string>, receipts: seq<Receipt>)
    ensures forall ref :: ref in Filtered(refs, receipts) <==> ref in refs && Resolves(ref, receipts)
  {
    if refs != [] {
      FilteredResolve(refs[1..], receipts);
      assert refs == [refs[0]] + refs[1..];
    }
  }

  lemma {:induction false} ToolRefsResolve(receipts: seq<Receipt>, tool: string)
    ensures forall ref :: ref in RefsOfTool(receipts, tool) <==>
              exists i :: 0 <= i < |receipts| && receipts[i].tool == tool && ref == RefTo(receipts[i])
  {
    if receipts != [] {
      ToolRefsResolve(receipts[1..], tool);
      assert receipts == [receipts[0]] + receipts[1..];
      forall i | 0 < i < |receipts| ensures receipts[i] == receipts[1..][i - 1] {
      }
    }
  }

  predicate IsExact(value: string, receipts: seq<Receipt>) {
    Resolves(Trim(value), receipts)
  }

  function ToolName(value: string): string {
    var trimmed := Trim(value);
    if HasPrefix(trimmed, "tool:") then trimmed[|"tool:"|..] else trimmed
  }

  /**
   An exact receipt id stands for itself alone; anything else stands for every receipt of the tool it
   names. Either way what comes out always resolves, so the filter behind it drops nothing.
   */
  lemma NormalizedExactly(value: string, receipts: seq<Receipt>)
    ensures IsExact(value, receipts) ==> Normalized(value, receipts) == [Trim(value)]
    ensures !IsExact(value, receipts) ==> forall ref :: ref in Normalized(value, receipts) <==>
              exists i :: 0 <= i < |receipts| && receipts[i].tool == ToolName(value) && ref == RefTo(receipts[i])
    ensures Filtered(Normalized(value, receipts), receipts) == Normalized(value, receipts)
  {
    var tool := ToolName(value);
    ToolRefsResolve(receipts, tool);
    if !IsExact(value, receipts) {
      forall ref | ref in Normalized(value, receipts)
        ensures Resolves(ref, receipts)
      {
        var i :| 0 <= i < |receipts| && receipts[i].tool == tool && ref == RefTo(receipts[i]);
        assert ref[|CALL|..] == receipts[i].callId;
        assert Has(receipts, receipts[i].callId);
      }
    }
    NothingDropped(Normalized(value, receipts), receipts);
  }

  lemma {:induction false} NothingDropped(refs: seq<string>, receipts: seq<Receipt>)
    requires forall ref | ref in refs :: Resolves(ref, receipts)
    ensures Filtered(refs, receipts) == refs
  {
    if refs != [] {
      NothingDropped(refs[1..], receipts);
      assert refs == [refs[0]] + refs[1..];
    }
  }

  lemma {:induction false} RefsResolve(refs: seq<Option<string>>, receipts: seq<Receipt>)
    requires ResolvedRefs(refs, receipts).Some?
    ensures forall ref | ref in ResolvedRefs(refs, receipts).value :: Resolves(ref, receipts)
  {
    if refs != [] {
      RefsResolve(refs[1..], receipts);
      if refs[0].Some? {
        FilteredResolve(Normalized(refs[0].value, receipts), receipts);
      }
    }
  }

  // ---- assertions -----------------------------------------------------------------------------

  predicate IsStatus(status: Option<string>) {
    status == Some("accepted") || status == Some("rejected") || status == Some("unavailable")
  }

  /** The assertion an item makes, if it is well formed and every reference of it resolves. */
  function Bound(item: Item, receipts: seq<Receipt>): Option<Assertion> {
    if item.NotAnItem? || !IsStatus(item.status) || item.criterionId.None? || item.evidence.None? then None
    else if Trim(item.evidence.value) == "" || item.refs.None? then None
    else
      var resolved := ResolvedRefs(item.refs.value, receipts);
      if resolved.None? || resolved.value == [] then None
      else Some(Assertion(item.status.value, item.criterionId.value, Trim(item.evidence.value), Unique(resolved.value)))
  }

  function Assertions(items: seq<Item>, receipts: seq<Receipt>): seq<Assertion> {
    if items == [] then []
    else
      var first := Bound(items[0], receipts);
      (if first.Some? then [first.value] else []) + Assertions(items[1..], receipts)
  }

  /** Well formed: a known status, evidence in words, and at least one reference, all of which resolve. */
  ghost predicate WellBound(assertion: Assertion, receipts: seq<Receipt>) {
    && IsStatus(Some(assertion.status))
    && assertion.evidence != ""
    && assertion.refs != []
    && forall ref | ref in assertion.refs :: Resolves(ref, receipts)
  }

  lemma {:induction false} AssertionsAreBound(items: seq<Item>, receipts: seq<Receipt>)
    ensures forall assertion | assertion in Assertions(items, receipts) :: WellBound(assertion, receipts)
  {
    if items != [] {
      AssertionsAreBound(items[1..], receipts);
      if Bound(items[0], receipts).Some? {
        var refs := ResolvedRefs(items[0].refs.value, receipts).value;
        RefsResolve(items[0].refs.value, receipts);
        assert refs[0] in Unique(refs);
      }
    }
  }

  function IdsOf(assertions: seq<Assertion>): set<string> {
    set i | 0 <= i < |assertions| :: assertions[i].criterionId
  }

  /** The place of a criterion, or the number of criteria when there is none of that id. */
  function FindCriterion(criteria: seq<Criterion>, id: string): (i: nat)
    ensures i <= |criteria|
    ensures i < |criteria| ==> criteria[i].id == id
    ensures forall k | 0 <= k < i :: criteria[k].id != id
  {
    if criteria == [] || criteria[0].id == id then 0
    else
      var i := FindCriterion(criteria[1..], id);
      assert forall k | 0 < k <= i :: criteria[k] == criteria[1..][k - 1] || k == |criteria|;
      1 + i
  }

  /** The check that rejects a submission whose assertions do not fit the criteria. */
  predicate Fits(assertions: seq<Assertion>, criteria: seq<Criterion>) {
    && (forall i | 0 <= i < |criteria| :: criteria[i].id in IdsOf(assertions))
    && |assertions| == |criteria|
    && (forall i | 0 <= i < |assertions| :: FindCriterion(criteria, assertions[i].criterionId) < |criteria|)
  }

  function RequiredIds(criteria: seq<Criterion>): set<string> {
    set k | 0 <= k < |criteria| :: criteria[k].id
  }

  /** Every criterion is the subject of exactly one assertion, and every assertion has a criterion. */
  ghost predicate OneToOne(assertions: seq<Assertion>, criteria: seq<Criterion>) {
    && (forall i, j | 0 <= i < j < |assertions| :: assertions[i].criterionId != assertions[j].criterionId)
    && IdsOf(assertions) == RequiredIds(criteria)
  }

  // ---- counting -------------------------------------------------------------------------------

  function Elements(ids: seq<string>): set<string> {
    set id | id in ids
  }

  ghost predicate Distinct(ids: seq<string>) {
    forall i, j | 0 <= i < j < |ids| :: ids[i] != ids[j]
  }

  /** A sequence has at most as many elements as places, and as many exactly when none repeats. */
  lemma {:induction false} Pigeonhole(ids: seq<string>)
    ensures |Elements(ids)| <= |ids|
    ensures |Elements(ids)| == |ids| <==> Distinct(ids)
  {
    if ids != [] {
      var last, before := ids[|ids| - 1], ids[..|ids| - 1];
      Pigeonhole(before);
      assert ids == before + [last];
      assert Elements(ids) == Elements(before) + {last};
      if last in before {
        assert Elements(ids) == Elements(before);
        var i :| 0 <= i < |before| && before[i] == last;
        assert ids[i] == ids[|ids| - 1];
      } else {
        assert Distinct(ids) <==> Distinct(before);
      }
    }
  }

  function AssertionIds(assertions: seq<Assertion>): (ids: seq<string>)
    ensures Elements(ids) == IdsOf(assertions)
  {
    var ids := seq(|assertions|, i requires 0 <= i < |assertions| => assertions[i].criterionId);
    assert forall i | 0 <= i < |assertions| :: ids[i] == assertions[i].criterionId;
    ids
  }

  function CriterionIds(criteria: seq<Criterion>): (ids: seq<string>)
    ensures Elements(ids) == RequiredIds(criteria)
  {
    var ids := seq(|criteria|, k requires 0 <= k < |criteria| => criteria[k].id);
    assert forall k | 0 <= k < |criteria| :: ids[k] == criteria[k].id;
    ids
  }

  /** With distinct criteria the check passes exactly the assertions that correspond one to one. */
  lemma FitsIsOneToOne(assertions: seq<Assertion>, criteria: seq<Criterion>)
    requires DistinctIds(criteria)
    ensures Fits(assertions, criteria) <==> OneToOne(assertions, criteria)
  {
    var ids, wanted := AssertionIds(assertions), CriterionIds(criteria);
    Pigeonhole(ids);
    Pigeonhole(wanted);
    assert Distinct(wanted);
    if Fits(assertions, criteria) {
      SubsetSize(RequiredIds(criteria), IdsOf(assertions));
      forall i, j | 0 <= i < j < |assertions|
        ensures assertions[i].criterionId != assertions[j].criterionId
      {
        assert ids[i] != ids[j];
      }
    }
    if OneToOne(assertions, criteria) {
      assert Distinct(ids);
      forall k | 0 <= k < |criteria| ensures criteria[k].id in IdsOf(assertions) {
        assert criteria[k].id in RequiredIds(criteria);
      }
      forall i | 0 <= i < |assertions| ensures FindCriterion(criteria, assertions[i].criterionId) < |criteria| {
        assert assertions[i].criterionId in IdsOf(assertions);
      }
    }
  }

  // ---- the verdict ----------------------------------------------------------------------------

  predicate CitesOneOf(assertions: seq<Assertion>, receipts: seq<Receipt>, tools: set<string>) {
    exists i, j | 0 <= i < |assertions| && 0 <= j < |receipts| ::
      receipts[j].tool in tools && RefTo(receipts[j]) in assertions[i].refs
  }

  /** The demands on an accepted verdict that fail first, if any. */
  function AcceptedLacks(d: Demands): Option<Cause> {
    if d.consistency && !d.consistencyObserved then Some(NoConsistency)
    else if d.visiblePairs && !d.visiblePairsObserved then Some(NoVisiblePairs)
    else if d.exactCount.Some? && d.exactCount.value !in d.counts then Some(NoExactCount)
    else None
  }

  /** The demands on any verdict that fail first, if any. */
  function Lacks(d: Demands, receipts: seq<Receipt>, assertions: seq<Assertion>): Option<Cause> {
    if d.currentSource && !(exists j | 0 <= j < |receipts| :: receipts[j].tool in d.currentTools)
    then Some(NoCurrentSource)
    else if d.currentSource && !CitesOneOf(assertions, receipts, d.currentTools) then Some(CurrentSourceNotCited)
    else if !(d.urls <= d.fetched) then Some(SourceNotFetched)
    else None
  }

  function ReferencesOf(refs: seq<string>, receipts: seq<Receipt>): seq<string>
    requires forall ref | ref in refs :: Resolves(ref, receipts)
  {
    if refs == [] then []
    else
      assert Resolves(refs[0], receipts);
      [receipts[Find(receipts, refs[0][|CALL|..])].reference] + ReferencesOf(refs[1..], receipts)
  }

  /** Each assertion with its criterion's text and its receipts' references: every lookup is defined. */
  function Verifications(assertions: seq<Assertion>, criteria: seq<Criterion>,
          receipts: seq<Receipt>): seq<Verification>
    requires forall assertion | assertion in assertions :: WellBound(assertion, receipts)
    requires forall i | 0 <= i < |assertions| :: FindCriterion(criteria, assertions[i].criterionId) < |criteria|
  {
    seq(|assertions|, i requires 0 <= i < |assertions| =>
      assert WellBound(assertions[i], receipts);
      Verification(
        assertions[i],
        criteria[FindCriterion(criteria, assertions[i].criterionId)].text,
        ReferencesOf(assertions[i].refs, receipts)))
  }

  function Reason(s: Arguments): string
    requires s.Submission?
  {
    var reason := Trim(s.reason.GetOr(""));
    if |reason| > 5000 then reason[..5000] else reason
  }

  function Statuses(assertions: seq<Assertion>): set<string> {
    set i | 0 <= i < |assertions| :: assertions[i].status
  }

  /** What is wrong with a verdict of this status, besides the demands. */
  function Misjudged(status: string, assertions: seq<Assertion>): Option<Cause> {
    if "unavailable" in Statuses(assertions) then Some(CriterionUnavailable)
    else if status == "accepted" && !(Statuses(assertions) <= {"accepted"}) then Some(AcceptedTooMuch)
    else if status == "rejected" && "rejected" !in Statuses(assertions) then Some(RejectedNothing)
    else None
  }

  /** The evaluation of a finished verification run. */
  function Judge(r: Record, criteria: seq<Criterion>, d: Demands): Judgement {
    if r.attempts != 1 || |r.submissions| != 1 then Unavailable(NotOneSubmission)
    else if !r.submissions[0].Submission? then Unavailable(NotAnObject)
    else
      var submission := r.submissions[0];
      var reason := Reason(submission);
      if submission.status == Some("unavailable") then Unavailable(SaidUnavailable)
      else if submission.status != Some("accepted") && submission.status != Some("rejected")
      then Unavailable(UnknownStatus)
      else if reason == "" then Unavailable(NoReason)
      else
        var assertions := Assertions(submission.assertions.GetOr([]), r.receipts);
        var misjudged := Misjudged(submission.status.value, assertions);
        var lacking := AcceptedLacks(d);
        if !Fits(assertions, criteria) then Unavailable(NotBound)
        else if misjudged.Some? then Unavailable(misjudged.value)
        else if submission.status.value == "accepted" && lacking.Some? then Unavailable(lacking.value)
        else if Lacks(d, r.receipts, assertions).Some? then Unavailable(Lacks(d, r.receipts, assertions).value)
        else
          AssertionsAreBound(submission.assertions.GetOr([]), r.receipts);
          var verifications := Verifications(assertions, criteria, r.receipts);
          if submission.status.value == "accepted" then Accepted(verifications) else Rejected(reason, verifications)
  }

  // ---- soundness ------------------------------------------------------------------------------

  function Decided(j: Judgement): seq<Verification> {
    match j
    case Accepted(verifications) => verifications
    case Rejected(_, verifications) => verifications
    case Unavailable(_) => []
  }

  function Subjects(verifications: seq<Verification>): seq<Assertion> {
    seq(|verifications|, i requires 0 <= i < |verifications| => verifications[i].assertion)
  }

  lemma {:induction false} ReferencesAreOfReceipts(refs: seq<string>, receipts: seq<Receipt>)
    requires forall ref | ref in refs :: Resolves(ref, receipts)
    ensures |ReferencesOf(refs, receipts)| == |refs|
    ensures forall i | 0 <= i < |refs| :: exists receipt ::
              receipt in receipts && RefTo(receipt) == refs[i] && receipt.reference == ReferencesOf(refs, receipts)[i]
  {
    if refs != [] {
      ReferencesAreOfReceipts(refs[1..], receipts);
      forall i | 0 <= i < |refs|
        ensures exists receipt ::
          receipt in receipts && RefTo(receipt) == refs[i] && receipt.reference == ReferencesOf(refs, receipts)[i]
      {
        if i == 0 {
          assert Resolves(refs[0], receipts);
          var receipt := receipts[Find(receipts, refs[0][|CALL|..])];
          assert refs[0] == CALL + refs[0][|CALL|..];
          assert receipt in receipts && RefTo(receipt) == refs[0];
        } else {
          assert refs[i] == refs[1..][i - 1];
        }
      }
    }
  }

  /** The verification names its criterion by id and text, and cites receipts of the run by reference. */
  ghost predicate Grounded(v: Verification, criteria: seq<Criterion>, receipts: seq<Receipt>) {
    && (exists k :: 0 <= k < |criteria| && criteria[k] == Criterion(v.assertion.criterionId, v.criterion))
    && v.assertion.refs != [] && |v.references| == |v.assertion.refs|
    && forall i | 0 <= i < |v.references| :: exists receipt ::
         receipt in receipts && RefTo(receipt) == v.assertion.refs[i] && receipt.reference == v.references[i]
  }

  lemma DecidedFacts(r: Record, criteria: seq<Criterion>, d: Demands)
    requires !Judge(r, criteria, d).Unavailable?
    ensures r.attempts == 1 && |r.submissions| == 1 && r.submissions[0].Submission?
    ensures r.submissions[0].status == Some(if Judge(r, criteria, d).Accepted? then "accepted" else "rejected")
    ensures var assertions := Assertions(r.submissions[0].assertions.GetOr([]), r.receipts);
      && Fits(assertions, criteria)
      && Misjudged(r.submissions[0].status.value, assertions).None?
      && (forall assertion | assertion in assertions :: WellBound(assertion, r.receipts))
      && Decided(Judge(r, criteria, d)) == Verifications(assertions, criteria, r.receipts)
  {
    AssertionsAreBound(r.submissions[0].assertions.GetOr([]), r.receipts);
  }

  lemma VerificationsAreGrounded(assertions: seq<Assertion>, criteria: seq<Criterion>, receipts: seq<Receipt>)
    requires Fits(assertions, criteria) && forall assertion | assertion in assertions :: WellBound(assertion, receipts)
    ensures Subjects(Verifications(assertions, criteria, receipts)) == assertions
    ensures forall v | v in Verifications(assertions, criteria, receipts) :: Grounded(v, criteria, receipts)
  {
    var decided := Verifications(assertions, criteria, receipts);
    forall i | 0 <= i < |decided|
      ensures Grounded(decided[i], criteria, receipts)
    {
      assert assertions[i] in assertions;
      var k := FindCriterion(criteria, assertions[i].criterionId);
      assert criteria[k] == Criterion(assertions[i].criterionId, decided[i].criterion);
      ReferencesAreOfReceipts(assertions[i].refs, receipts);
    }
  }

  /** The statuses below a verdict that is not misjudged. */
  lemma StatusesFit(status: string, assertions: seq<Assertion>)
    requires status == "accepted" || status == "rejected"
    requires Misjudged(status, assertions).None?
    requires forall assertion | assertion in assertions :: IsStatus(Some(assertion.status))
    ensures forall assertion | assertion in assertions :: assertion.status in {"accepted", "rejected"}
    ensures status == "accepted" <==> forall assertion | assertion in assertions :: assertion.status == "accepted"
  {
    forall i | 0 <= i < |assertions|
      ensures assertions[i].status in Statuses(assertions)
    {
    }
    if status == "rejected" {
      var i :| 0 <= i < |assertions| && assertions[i].status == "rejected";
      assert assertions[i] in assertions;
    }
  }

  /**
   Whenever a verdict is given, assertions and criteria correspond one to one and every reference
   resolves to a receipt; accepted means every criterion accepted, rejected means at least one
   rejected; and no criterion is unavailable either way.
   */
  lemma VerdictIsSound(r: Record, criteria: seq<Criterion>, d: Demands)
    requires DistinctIds(criteria)
    requires !Judge(r, criteria, d).Unavailable?
    ensures var decided := Decided(Judge(r, criteria, d));
      && OneToOne(Subjects(decided), criteria)
      && (forall v | v in decided :: Grounded(v, criteria, r.receipts))
      && (forall assertion | assertion in Subjects(decided) :: assertion.status in {"accepted", "rejected"})
      && (Judge(r, criteria, d).Accepted? <==>
            forall assertion | assertion in Subjects(decided) :: assertion.status == "accepted")
  {
    DecidedFacts(r, criteria, d);
    var assertions := Assertions(r.submissions[0].assertions.GetOr([]), r.receipts);
    FitsIsOneToOne(assertions, criteria);
    VerificationsAreGrounded(assertions, criteria, r.receipts);
    StatusesFit(r.submissions[0].status.value, assertions);
  }

  /** The reference is that of a receipt earned in the run. */
  ghost predicate CitesEvidence(events: seq<(string, Event)>, reference: string) {
    exists receipt :: Earned(events, receipt) && receipt.reference == reference
  }

  lemma GroundedIsEarned(v: Verification, criteria: seq<Criterion>, events: seq<(string, Event)>, r: Record)
    requires Grounded(v, criteria, r.receipts) && Traced(events, r)
    ensures forall i | 0 <= i < |v.references| :: CitesEvidence(events, v.references[i])
  {
    forall i | 0 <= i < |v.references|
      ensures CitesEvidence(events, v.references[i])
    {
      var receipt :| receipt in r.receipts && RefTo(receipt) == v.assertion.refs[i]
        && receipt.reference == v.references[i];
      assert Earned(events, receipt);
    }
  }

  /**
   Over a whole run: an accepted or rejected verdict was submitted by a successful call, and each
   reference it keeps is that of a call that ended well, of a tool that counts as evidence, with a
   material result.
   */
  lemma EvidenceHappened(events: seq<(string, Event)>, lines: seq<string>, d: Demands, r: Record,
          criteria: seq<Criterion>)
    requires r == RecordOf(events) && criteria == Definitions(lines)
    requires !Judge(r, criteria, d).Unavailable?
    ensures |r.submissions| == 1 && Submitted(events, r.submissions[0])
    ensures forall v | v in Decided(Judge(r, criteria, d)) ::
              forall i | 0 <= i < |v.references| ::
                CitesEvidence(events, v.references[i])
  {
    RecordsAreTraced(events);
    CriteriaAreDistinct(lines);
    VerdictIsSound(r, criteria, d);
    DecidedFacts(r, criteria, d);
    assert r.submissions[0] in r.submissions;
    var decided := Decided(Judge(r, criteria, d));
    forall v | v in decided
      ensures forall i | 0 <= i < |v.references| :: CitesEvidence(events, v.references[i])
    {
      GroundedIsEarned(v, criteria, events, r);
    }
  }

  /** The demands on any verdict, spelled out. */
  ghost predicate SourcesChecked(d: Demands, receipts: seq<Receipt>, assertions: seq<Assertion>) {
    && (d.currentSource ==> exists assertion, receipt ::
          && assertion in assertions && receipt in receipts && receipt.tool in d.currentTools
          && "tool-call:" + receipt.callId in assertion.refs)
    && forall url | url in d.urls :: url in d.fetched
  }

  lemma SourcesCheckedExactly(d: Demands, receipts: seq<Receipt>, assertions: seq<Assertion>)
    ensures Lacks(d, receipts, assertions).None? <==> SourcesChecked(d, receipts, assertions)
  {
    if CitesOneOf(assertions, receipts, d.currentTools) {
      var i, j :| 0 <= i < |assertions| && 0 <= j < |receipts| && receipts[j].tool in d.currentTools
        && RefTo(receipts[j]) in assertions[i].refs;
      assert assertions[i] in assertions && receipts[j] in receipts;
      assert "tool-call:" + receipts[j].callId in assertions[i].refs;
    }
    forall assertion, receipt | assertion in assertions && receipt in receipts && receipt.tool in d.currentTools
                                && "tool-call:" + receipt.callId in assertion.refs
      ensures CitesOneOf(assertions, receipts, d.currentTools)
    {
      var i :| 0 <= i < |assertions| && assertions[i] == assertion;
      var j :| 0 <= j < |receipts| && receipts[j] == receipt;
      assert RefTo(receipts[j]) in assertions[i].refs;
    }
  }

  /** One submission, of this status and with a reason in words. */
  ghost predicate SubmittedOnce(r: Record, status: string) {
    && r.attempts == 1 && |r.submissions| == 1 && r.submissions[0].Submission?
    && r.submissions[0].status == Some(status)
    && r.submissions[0].reason.Some? && !AllBlank(r.submissions[0].reason.value, IsSpaceChar)
  }

  lemma ReasonInWords(s: Arguments)
    requires s.Submission?
    ensures Reason(s) != "" <==> s.reason.Some? && !AllBlank(s.reason.value, IsSpaceChar)
  {
    TrimsToNothing(s.reason.GetOr(""));
  }

  /** Nothing sound is turned away: exactly when its assertions are acceptable is a submission accepted. */
  lemma AcceptedByAssertions(r: Record, criteria: seq<Criterion>, d: Demands)
    requires DistinctIds(criteria)
    ensures Judge(r, criteria, d).Accepted? <==>
      && SubmittedOnce(r, "accepted")
      && (d.consistency ==> d.consistencyObserved)
      && (d.visiblePairs ==> d.visiblePairsObserved)
      && (d.exactCount.Some? ==> d.exactCount.value in d.counts)
      && var assertions := Assertions(r.submissions[0].assertions.GetOr([]), r.receipts);
         && OneToOne(assertions, criteria)
         && (forall assertion | assertion in assertions :: assertion.status == "accepted")
         && SourcesChecked(d, r.receipts, assertions)
  {
    AcceptedByCode(r, criteria, d);
    if r.attempts == 1 && |r.submissions| == 1 && r.submissions[0].Submission? {
      var assertions := Assertions(r.submissions[0].assertions.GetOr([]), r.receipts);
      FitsIsOneToOne(assertions, criteria);
      AllAccepted(assertions);
      ReasonInWords(r.submissions[0]);
      SourcesCheckedExactly(d, r.receipts, assertions);
    }
  }

  lemma AcceptedByCode(r: Record, criteria: seq<Criterion>, d: Demands)
    ensures Judge(r, criteria, d).Accepted? <==>
      && r.attempts == 1 && |r.submissions| == 1 && r.submissions[0].Submission?
      && r.submissions[0].status == Some("accepted")
      && Reason(r.submissions[0]) != ""
      && var assertions := Assertions(r.submissions[0].assertions.GetOr([]), r.receipts);
         && Fits(assertions, criteria)
         && Misjudged("accepted", assertions).None?
         && AcceptedLacks(d).None? && Lacks(d, r.receipts, assertions).None?
  {
  }

  lemma AllAccepted(assertions: seq<Assertion>)
    ensures Misjudged("accepted", assertions).None? <==>
              forall assertion | assertion in assertions :: assertion.status == "accepted"
  {
    if Misjudged("accepted", assertions).None? {
      forall i | 0 <= i < |assertions| ensures assertions[i].status == "accepted" {
        assert assertions[i].status in Statuses(assertions);
      }
    }
  }

  /** And exactly when they are acceptable as a rejection is it rejected. */
  lemma RejectedByAssertions(r: Record, criteria: seq<Criterion>, d: Demands)
    requires DistinctIds(criteria)
    ensures Judge(r, criteria, d).Rejected? <==>
      && SubmittedOnce(r, "rejected")
      && var assertions := Assertions(r.submissions[0].assertions.GetOr([]), r.receipts);
         && OneToOne(assertions, criteria)
         && (exists assertion :: assertion in assertions && assertion.status == "rejected")
         && !(exists assertion :: assertion in assertions && assertion.status == "unavailable")
         && SourcesChecked(d, r.receipts, assertions)
  {
    RejectedByCode(r, criteria, d);
    if r.attempts == 1 && |r.submissions| == 1 && r.submissions[0].Submission? {
      var assertions := Assertions(r.submissions[0].assertions.GetOr([]), r.receipts);
      FitsIsOneToOne(assertions, criteria);
      SomeRejected(assertions);
      ReasonInWords(r.submissions[0]);
      SourcesCheckedExactly(d, r.receipts, assertions);
    }
  }

  lemma RejectedByCode(r: Record, criteria: seq<Criterion>, d: Demands)
    ensures Judge(r, criteria, d).Rejected? <==>
      && r.attempts == 1 && |r.submissions| == 1 && r.submissions[0].Submission?
      && r.submissions[0].status == Some("rejected")
      && Reason(r.submissions[0]) != ""
      && var assertions := Assertions(r.submissions[0].assertions.GetOr([]), r.receipts);
         && Fits(assertions, criteria)
         && Misjudged("rejected", assertions).None?
         && Lacks(d, r.receipts, assertions).None?
  {
  }

  lemma SomeRejected(assertions: seq<Assertion>)
    ensures Misjudged("rejected", assertions).None? <==>
      && (exists assertion :: assertion in assertions && assertion.status == "rejected")
      && (forall assertion | assertion in assertions :: assertion.status != "unavailable")
  {
    if "rejected" in Statuses(assertions) {
      var i :| 0 <= i < |assertions| && assertions[i].status == "rejected";
      assert assertions[i] in assertions;
    }
    if "unavailable" in Statuses(assertions) {
      var i :| 0 <= i < |assertions| && assertions[i].status == "unavailable";
      assert assertions[i] in assertions;
    }
  }
}
