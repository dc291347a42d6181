/**
 When a verdict is given and what it says, in terms of what the verifier submitted: the items of the
 submission, the references they spell and the receipts of the run.
 */
module VerdictRules {
  import opened Wrappers
  import opened VerifierRecord
  import opened Verdict

  /**
   What a submitted reference stands for: the receipt whose call it names exactly, alone; failing that,
   every receipt of the tool it names, with or without `tool:` before the name.
   */
  ghost predicate RefersTo(ref: Option<string>, receipts: seq<Receipt>, receipt: Receipt) {
    && ref.Some? && receipt in receipts
    && var name := Trim(ref.value);
       if NamesACall(name, receipts) then name == "tool-call:" + receipt.callId
       else name == "tool:" + receipt.tool || (name == receipt.tool && !("tool:" <= name))
  }

  ghost predicate NamesACall(name: string, receipts: seq<Receipt>) {
    exists receipt :: receipt in receipts && name == "tool-call:" + receipt.callId
  }

  ghost predicate Refers(ref: Option<string>, receipts: seq<Receipt>) {
    exists receipt :: RefersTo(ref, receipts, receipt)
  }

  /** A known status, a criterion, evidence in words, and references that all refer to something. */
  ghost predicate Acceptable(item: Item, receipts: seq<Receipt>) {
    && item.Item?
    && item.status in {Some("accepted"), Some("rejected"), Some("unavailable")}
    && item.criterionId.Some?
    && item.evidence.Some? && !AllBlank(item.evidence.value, IsSpaceChar)
    && item.refs.Some? && item.refs.value != []
    && forall ref | ref in item.refs.value :: Refers(ref, receipts)
  }

  /** The assertion an acceptable item makes: its own words, and each receipt it refers to once. */
  ghost predicate Makes(item: Item, assertion: Assertion, receipts: seq<Receipt>)
    requires Acceptable(item, receipts)
  {
    && Some(assertion.status) == item.status
    && Some(assertion.criterionId) == item.criterionId
    && assertion.evidence == Trim(item.evidence.value)
    && (forall i, j | 0 <= i < j < |assertion.refs| :: assertion.refs[i] != assertion.refs[j])
    && (forall s :: s in assertion.refs <==> Cited(item, s, receipts))
  }

  ghost predicate Cited(item: Item, s: string, receipts: seq<Receipt>) {
    && item.Item? && item.refs.Some?
    && exists ref, receipt ::
         ref in item.refs.value && RefersTo(ref, receipts, receipt) && s == "tool-call:" + receipt.callId
  }

  // ---- references -----------------------------------------------------------------------------

  lemma ExactlyCalls(name: string, receipts: seq<Receipt>)
    ensures Resolves(name, receipts) <==> NamesACall(name, receipts)
  {
    if Resolves(name, receipts) {
      var i := Find(receipts, name[|CALL|..]);
      assert receipts[i] in receipts && name == "tool-call:" + receipts[i].callId;
    }
    forall receipt | receipt in receipts && name == "tool-call:" + receipt.callId
      ensures Resolves(name, receipts)
    {
      var i :| 0 <= i < |receipts| && receipts[i] == receipt;
      assert name[|CALL|..] == receipt.callId;
      assert Has(receipts, receipt.callId);
    }
  }

  lemma NamesATool(name: string, tool: string)
    ensures (if HasPrefix(name, "tool:") then name[|"tool:"|..] else name) == tool <==>
              name == "tool:" + tool || (name == tool && !("tool:" <= name))
  {
    if HasPrefix(name, "tool:") {
      assert name == "tool:" + name[|"tool:"|..];
    }
    if name == "tool:" + tool {
      assert name[|"tool:"|..] == tool;
    }
  }

  lemma RefReads(ref: Option<string>, receipts: seq<Receipt>, s: string)
    ensures s in ResolvedRef(ref, receipts) <==>
              exists receipt :: RefersTo(ref, receipts, receipt) && s == "tool-call:" + receipt.callId
  {
    if ref.Some? {
      var name := Trim(ref.value);
      NormalizedExactly(ref.value, receipts);
      ExactlyCalls(name, receipts);
      if NamesACall(name, receipts) {
        var receipt :| receipt in receipts && name == "tool-call:" + receipt.callId;
        assert RefersTo(ref, receipts, receipt);
      } else {
        forall i | 0 <= i < |receipts|
          ensures receipts[i].tool == ToolName(ref.value) <==> RefersTo(ref, receipts, receipts[i])
        {
          NamesATool(name, receipts[i].tool);
        }
      }
    }
  }

  lemma RefResolves(ref: Option<string>, receipts: seq<Receipt>)
    ensures ResolvedRef(ref, receipts) != [] <==> Refers(ref, receipts)
  {
    if ResolvedRef(ref, receipts) != [] {
      RefReads(ref, receipts, ResolvedRef(ref, receipts)[0]);
    }
    forall receipt | RefersTo(ref, receipts, receipt)
      ensures ResolvedRef(ref, receipts) != []
    {
      RefReads(ref, receipts, "tool-call:" + receipt.callId);
    }
  }

  lemma {:induction false} RefsRead(refs: seq<Option<string>>, receipts: seq<Receipt>)
    ensures ResolvedRefs(refs, receipts).Some? <==> forall ref | ref in refs :: Refers(ref, receipts)
    ensures ResolvedRefs(refs, receipts).Some? ==>
              forall s :: s in ResolvedRefs(refs, receipts).value <==>
                exists ref :: ref in refs && s in ResolvedRef(ref, receipts)
  {
    if refs != [] {
      RefResolves(refs[0], receipts);
      RefsRead(refs[1..], receipts);
      assert refs == [refs[0]] + refs[1..];
    }
  }

  lemma {:induction false} UniqueIsDistinct(refs: seq<string>)
    ensures forall i, j | 0 <= i < j < |Unique(refs)| :: Unique(refs)[i] != Unique(refs)[j]
  {
    if refs != [] {
      UniqueIsDistinct(refs[..|refs| - 1]);
    }
  }

  // ---- assertions -----------------------------------------------------------------------------

  lemma CitedRefs(item: Item, receipts: seq<Receipt>)
    requires item.Item? && item.refs.Some? && ResolvedRefs(item.refs.value, receipts).Some?
    ensures forall s :: s in ResolvedRefs(item.refs.value, receipts).value <==> Cited(item, s, receipts)
  {
    RefsRead(item.refs.value, receipts);
    forall s
      ensures s in ResolvedRefs(item.refs.value, receipts).value <==> Cited(item, s, receipts)
    {
      forall ref | ref in item.refs.value
        ensures s in ResolvedRef(ref, receipts) <==>
                  exists receipt :: RefersTo(ref, receipts, receipt) && s == "tool-call:" + receipt.callId
      {
        RefReads(ref, receipts, s);
      }
    }
  }

  /** An item counts exactly when it is acceptable, and then for the assertion it makes. */
  lemma BoundExactly(item: Item, receipts: seq<Receipt>)
    ensures Bound(item, receipts).Some? <==> Acceptable(item, receipts)
    ensures Acceptable(item, receipts) ==> Makes(item, Bound(item, receipts).value, receipts)
  {
    if item.Item? && item.evidence.Some? && item.refs.Some? {
      TrimsToNothing(item.evidence.value);
      var refs := item.refs.value;
      RefsRead(refs, receipts);
      if ResolvedRefs(refs, receipts).Some? {
        CitedRefs(item, receipts);
        UniqueIsDistinct(ResolvedRefs(refs, receipts).value);
        if refs != [] {
          assert refs[0] in refs;
          RefResolves(refs[0], receipts);
          assert ResolvedRef(refs[0], receipts)[0] in ResolvedRefs(refs, receipts).value;
        }
      }
    }
  }

  /** What an item counts for; nothing when it is not acceptable. */
  datatype Entry = Entry(criterion: string, status: string, cited: iset<string>)

  ghost function EntryOf(item: Item, receipts: seq<Receipt>): Option<Entry> {
    if Acceptable(item, receipts)
    then Some(Entry(item.criterionId.value, item.status.value, iset s | Cited(item, s, receipts)))
    else None
  }

  ghost function Entries(items: seq<Item>, receipts: seq<Receipt>): seq<Option<Entry>> {
    seq(|items|, i requires 0 <= i < |items| => EntryOf(items[i], receipts))
  }

  ghost function EntryFor(assertion: Assertion): Entry {
    Entry(assertion.criterionId, assertion.status, iset s | s in assertion.refs)
  }

  lemma BoundEntry(item: Item, receipts: seq<Receipt>)
    ensures EntryOf(item, receipts) ==
              if Bound(item, receipts).Some? then Some(EntryFor(Bound(item, receipts).value)) else None
  {
    BoundExactly(item, receipts);
    if Acceptable(item, receipts) {
      var assertion := Bound(item, receipts).value;
      assert Makes(item, assertion, receipts);
      assert (iset s | Cited(item, s, receipts)) == iset s | s in assertion.refs;
    }
  }

  /** The items that count, in the order submitted, with the assertion each makes. */
  ghost predicate Places(items: seq<Item>, receipts: seq<Receipt>, places: seq<nat>) {
    var assertions := Assertions(items, receipts);
    && |places| == |assertions|
    && (forall n, m | 0 <= n < m < |places| :: places[n] < places[m])
    && (forall n | 0 <= n < |places| ::
          places[n] < |items| && Bound(items[places[n]], receipts) == Some(assertions[n]))
    && (forall i | 0 <= i < |items| && Bound(items[i], receipts).Some? :: i in places)
  }

  /** The values there are, in order. */
  ghost function Given<T>(options: seq<Option<T>>): seq<T> {
    if options == [] then []
    else (if options[0].Some? then [options[0].value] else []) + Given(options[1..])
  }

  /** Where the values are that `values` lists, from place `k` on. */
  ghost predicate Lists<T>(options: seq<Option<T>>, k: nat, values: seq<T>, places: seq<nat>) {
    && |places| == |values|
    && (forall n, m | 0 <= n < m < |places| :: places[n] < places[m])
    && (forall n | 0 <= n < |places| :: k <= places[n] < |options| && options[places[n]] == Some(values[n]))
    && (forall i | k <= i < |options| && options[i].Some? :: i in places)
  }

  lemma {:induction false} GivenHavePlaces<T>(options: seq<Option<T>>, k: nat) returns (places: seq<nat>)
    requires k <= |options|
    ensures Lists(options, k, Given(options[k..]), places)
    decreases |options| - k
  {
    places := [];
    if k < |options| {
      var rest := GivenHavePlaces(options, k + 1);
      assert options[k..][1..] == options[k + 1..];
      if options[k].Some? {
        places := [k] + rest;
        assert places[0] == k && forall n | 0 < n < |places| :: places[n] == rest[n - 1];
      } else {
        places := rest;
      }
    }
  }

  ghost function Bounds(items: seq<Item>, receipts: seq<Receipt>): seq<Option<Assertion>> {
    seq(|items|, i requires 0 <= i < |items| => Bound(items[i], receipts))
  }

  lemma {:induction false} AssertionsAreGiven(items: seq<Item>, receipts: seq<Receipt>)
    ensures Assertions(items, receipts) == Given(Bounds(items, receipts))
  {
    if items != [] {
      AssertionsAreGiven(items[1..], receipts);
      assert Bounds(items, receipts)[1..] == Bounds(items[1..], receipts);
    }
  }

  lemma AssertionsHavePlaces(items: seq<Item>, receipts: seq<Receipt>) returns (places: seq<nat>)
    ensures Places(items, receipts, places)
  {
    AssertionsAreGiven(items, receipts);
    var bounds := Bounds(items, receipts);
    places := GivenHavePlaces(bounds, 0);
    assert bounds[0..] == bounds;
    forall i | 0 <= i < |items|
      ensures Bounds(items, receipts)[i] == Bound(items[i], receipts)
    {
    }
  }

  ghost predicate Counts(entries: seq<Option<Entry>>, assertions: seq<Assertion>, places: seq<nat>) {
    && |places| == |assertions|
    && (forall n, m | 0 <= n < m < |places| :: places[n] < places[m])
    && (forall n | 0 <= n < |places| ::
          places[n] < |entries| && entries[places[n]] == Some(EntryFor(assertions[n])))
    && (forall i | 0 <= i < |entries| && entries[i].Some? :: i in places)
  }

  lemma EntriesCount(items: seq<Item>, receipts: seq<Receipt>) returns (places: seq<nat>)
    ensures Places(items, receipts, places)
    ensures Counts(Entries(items, receipts), Assertions(items, receipts), places)
  {
    places := AssertionsHavePlaces(items, receipts);
    forall i | 0 <= i < |items|
      ensures Entries(items, receipts)[i] ==
        if Bound(items[i], receipts).Some? then Some(EntryFor(Bound(items[i], receipts).value)) else None
    {
      BoundEntry(items[i], receipts);
    }
  }

  // ---- verdicts -------------------------------------------------------------------------------

  ghost predicate IsAbout(entries: seq<Option<Entry>>, i: int, id: string) {
    0 <= i < |entries| && entries[i].Some? && entries[i].value.criterion == id
  }

  ghost predicate HasEntry(entries: seq<Option<Entry>>, id: string) {
    exists i :: IsAbout(entries, i, id)
  }

  /** Every criterion is the subject of exactly one entry, and every entry has a criterion. */
  ghost predicate OnePerCriterion(entries: seq<Option<Entry>>, criteria: seq<Criterion>) {
    && (forall k | 0 <= k < |criteria| :: HasEntry(entries, criteria[k].id))
    && (forall i, j, id | IsAbout(entries, i, id) && IsAbout(entries, j, id) :: i == j)
    && (forall i | 0 <= i < |entries| && entries[i].Some? ::
          exists k :: 0 <= k < |criteria| && criteria[k].id == entries[i].value.criterion)
  }

  /** The demands on any verdict: a current source cited if asked for, and every url asked for fetched. */
  ghost predicate SourcesCited(entries: seq<Option<Entry>>, d: Demands, receipts: seq<Receipt>) {
    && (d.currentSource ==> exists i, receipt ::
          && 0 <= i < |entries| && entries[i].Some?
          && receipt in receipts && receipt.tool in d.currentTools
          && "tool-call:" + receipt.callId in entries[i].value.cited)
    && forall url | url in d.urls :: url in d.fetched
  }

  lemma OneToOneExactly(entries: seq<Option<Entry>>, criteria: seq<Criterion>, assertions: seq<Assertion>,
          places: seq<nat>)
    requires Counts(entries, assertions, places)
    ensures OneToOne(assertions, criteria) <==> OnePerCriterion(entries, criteria)
  {
    if OneToOne(assertions, criteria) {
      OneToOneOnes(entries, criteria, assertions, places);
    }
    if OnePerCriterion(entries, criteria) {
      OnesOneToOne(entries, criteria, assertions, places);
    }
  }

  lemma EntriesAreAboutCriteria(entries: seq<Option<Entry>>, criteria: seq<Criterion>, assertions: seq<Assertion>,
          places: seq<nat>, i: int)
    requires Counts(entries, assertions, places) && OneToOne(assertions, criteria)
    requires 0 <= i < |entries| && entries[i].Some?
    ensures exists k :: 0 <= k < |criteria| && criteria[k].id == entries[i].value.criterion
  {
    var n :| 0 <= n < |places| && places[n] == i;
    assert assertions[n].criterionId in IdsOf(assertions);
    assert entries[i].value.criterion in RequiredIds(criteria);
  }

  lemma EntriesAreDistinct(entries: seq<Option<Entry>>, criteria: seq<Criterion>, assertions: seq<Assertion>,
          places: seq<nat>, i: int, j: int, id: string)
    requires Counts(entries, assertions, places) && OneToOne(assertions, criteria)
    requires IsAbout(entries, i, id) && IsAbout(entries, j, id)
    ensures i == j
  {
    var n :| 0 <= n < |places| && places[n] == i;
    var m :| 0 <= m < |places| && places[m] == j;
    assert assertions[n].criterionId == id == assertions[m].criterionId;
    assert n == m;
  }

  lemma OneToOneOnes(entries: seq<Option<Entry>>, criteria: seq<Criterion>, assertions: seq<Assertion>,
          places: seq<nat>)
    requires Counts(entries, assertions, places) && OneToOne(assertions, criteria)
    ensures OnePerCriterion(entries, criteria)
  {
    forall k | 0 <= k < |criteria|
      ensures HasEntry(entries, criteria[k].id)
    {
      assert criteria[k].id in RequiredIds(criteria);
      var n :| 0 <= n < |assertions| && assertions[n].criterionId == criteria[k].id;
      assert IsAbout(entries, places[n], criteria[k].id);
    }
    forall i | 0 <= i < |entries| && entries[i].Some?
      ensures exists k :: 0 <= k < |criteria| && criteria[k].id == entries[i].value.criterion
    {
      EntriesAreAboutCriteria(entries, criteria, assertions, places, i);
    }
    forall i, j, id | IsAbout(entries, i, id) && IsAbout(entries, j, id)
      ensures i == j
    {
      EntriesAreDistinct(entries, criteria, assertions, places, i, j, id);
    }
  }

  lemma OnesOneToOne(entries: seq<Option<Entry>>, criteria: seq<Criterion>, assertions: seq<Assertion>,
          places: seq<nat>)
    requires Counts(entries, assertions, places) && OnePerCriterion(entries, criteria)
    ensures OneToOne(assertions, criteria)
  {
    forall n, m | 0 <= n < m < |assertions|
      ensures assertions[n].criterionId != assertions[m].criterionId
    {
      assert IsAbout(entries, places[n], assertions[n].criterionId);
      assert IsAbout(entries, places[m], assertions[m].criterionId);
    }
    forall id | id in IdsOf(assertions)
      ensures id in RequiredIds(criteria)
    {
      var n :| 0 <= n < |assertions| && assertions[n].criterionId == id;
      assert entries[places[n]].Some?;
    }
    forall id | id in RequiredIds(criteria)
      ensures id in IdsOf(assertions)
    {
      var k :| 0 <= k < |criteria| && criteria[k].id == id;
      var i :| IsAbout(entries, i, criteria[k].id);
      var n :| 0 <= n < |places| && places[n] == i;
      assert assertions[n].criterionId == id;
    }
  }

  lemma SourcesExactly(entries: seq<Option<Entry>>, d: Demands, receipts: seq<Receipt>, assertions: seq<Assertion>,
          places: seq<nat>)
    requires Counts(entries, assertions, places)
    ensures SourcesChecked(d, receipts, assertions) <==> SourcesCited(entries, d, receipts)
  {
    forall assertion, s | assertion in assertions && s in assertion.refs
      ensures exists i :: 0 <= i < |entries| && entries[i].Some? && s in entries[i].value.cited
    {
      var n :| 0 <= n < |assertions| && assertions[n] == assertion;
      assert s in entries[places[n]].value.cited;
    }
    forall i, s | 0 <= i < |entries| && entries[i].Some? && s in entries[i].value.cited
      ensures exists assertion :: assertion in assertions && s in assertion.refs
    {
      var n :| 0 <= n < |places| && places[n] == i;
      assert assertions[n] in assertions && s in assertions[n].refs;
    }
  }

  lemma StatusesExactly(entries: seq<Option<Entry>>, assertions: seq<Assertion>, places: seq<nat>, status: string)
    requires Counts(entries, assertions, places)
    ensures (exists assertion :: assertion in assertions && assertion.status == status) <==>
              exists i :: 0 <= i < |entries| && entries[i].Some? && entries[i].value.status == status
    ensures (forall assertion | assertion in assertions :: assertion.status == status) <==>
              forall i | 0 <= i < |entries| && entries[i].Some? :: entries[i].value.status == status
  {
    forall assertion | assertion in assertions
      ensures exists i :: 0 <= i < |entries| && entries[i].Some? && entries[i].value.status == assertion.status
    {
      var n :| 0 <= n < |assertions| && assertions[n] == assertion;
      assert entries[places[n]].Some?;
    }
    forall i | 0 <= i < |entries| && entries[i].Some?
      ensures exists assertion :: assertion in assertions && assertion.status == entries[i].value.status
    {
      var n :| 0 <= n < |places| && places[n] == i;
      assert assertions[n] in assertions;
    }
  }

  /**
   A run is accepted exactly when it submitted one verdict, `accepted` and with a reason in words; the
   acceptable items of it are about the criteria one to one and all accepted; and whatever was asked for
   besides was observed: consistency, visible pairs, the exact count, a current source cited, every url.
   */
  lemma AcceptedExactly(r: Record, criteria: seq<Criterion>, d: Demands)
    requires DistinctIds(criteria)
    ensures Judge(r, criteria, d).Accepted? <==>
      && r.attempts == 1 && |r.submissions| == 1 && r.submissions[0].Submission?
      && r.submissions[0].status == Some("accepted")
      && r.submissions[0].reason.Some? && !AllBlank(r.submissions[0].reason.value, IsSpaceChar)
      && var entries := Entries(r.submissions[0].assertions.GetOr([]), r.receipts);
         && OnePerCriterion(entries, criteria)
         && (forall i | 0 <= i < |entries| && entries[i].Some? :: entries[i].value.status == "accepted")
         && (d.consistency ==> d.consistencyObserved)
         && (d.visiblePairs ==> d.visiblePairsObserved)
         && (d.exactCount.Some? ==> d.exactCount.value in d.counts)
         && SourcesCited(entries, d, r.receipts)
  {
    AcceptedByAssertions(r, criteria, d);
    if r.attempts == 1 && |r.submissions| == 1 && r.submissions[0].Submission? {
      SubmissionReads(r, criteria, d, r.submissions[0].assertions.GetOr([]));
    }
  }

  /** A run is rejected exactly when its one verdict says so, and at least one item rejects its criterion. */
  lemma RejectedExactly(r: Record, criteria: seq<Criterion>, d: Demands)
    requires DistinctIds(criteria)
    ensures Judge(r, criteria, d).Rejected? <==>
      && r.attempts == 1 && |r.submissions| == 1 && r.submissions[0].Submission?
      && r.submissions[0].status == Some("rejected")
      && r.submissions[0].reason.Some? && !AllBlank(r.submissions[0].reason.value, IsSpaceChar)
      && var entries := Entries(r.submissions[0].assertions.GetOr([]), r.receipts);
         && OnePerCriterion(entries, criteria)
         && (exists i :: 0 <= i < |entries| && entries[i].Some? && entries[i].value.status == "rejected")
         && !(exists i :: 0 <= i < |entries| && entries[i].Some? && entries[i].value.status == "unavailable")
         && SourcesCited(entries, d, r.receipts)
  {
    RejectedByAssertions(r, criteria, d);
    if r.attempts == 1 && |r.submissions| == 1 && r.submissions[0].Submission? {
      SubmissionReads(r, criteria, d, r.submissions[0].assertions.GetOr([]));
    }
  }

  /** The assertions of a submission and its entries meet the same conditions. */
  lemma SubmissionReads(r: Record, criteria: seq<Criterion>, d: Demands, items: seq<Item>)
    ensures
      var assertions, entries := Assertions(items, r.receipts), Entries(items, r.receipts);
      && (OneToOne(assertions, criteria) <==> OnePerCriterion(entries, criteria))
      && (SourcesChecked(d, r.receipts, assertions) <==> SourcesCited(entries, d, r.receipts))
      && ((forall assertion | assertion in assertions :: assertion.status == "accepted") <==>
            forall i | 0 <= i < |entries| && entries[i].Some? :: entries[i].value.status == "accepted")
      && ((exists assertion :: assertion in assertions && assertion.status == "rejected") <==>
            exists i :: 0 <= i < |entries| && entries[i].Some? && entries[i].value.status == "rejected")
      && ((exists assertion :: assertion in assertions && assertion.status == "unavailable") <==>
            exists i :: 0 <= i < |entries| && entries[i].Some? && entries[i].value.status == "unavailable")
  {
    var assertions, entries := Assertions(items, r.receipts), Entries(items, r.receipts);
    var places := EntriesCount(items, r.receipts);
    OneToOneExactly(entries, criteria, assertions, places);
    SourcesExactly(entries, d, r.receipts, assertions, places);
    StatusesExactly(entries, assertions, places, "accepted");
    StatusesExactly(entries, assertions, places, "rejected");
    StatusesExactly(entries, assertions, places, "unavailable");
  }

  /** The verification says what item `item` says, of the criterion it is about, citing what it refers to. */
  ghost predicate Verifies(v: Verification, item: Item, criteria: seq<Criterion>, receipts: seq<Receipt>) {
    && Acceptable(item, receipts) && Makes(item, v.assertion, receipts)
    && (exists k :: 0 <= k < |criteria| && criteria[k].id == v.assertion.criterionId && criteria[k].text == v.criterion)
    && |v.references| == |v.assertion.refs|
    && forall n | 0 <= n < |v.references| :: exists receipt ::
         && receipt in receipts
         && v.assertion.refs[n] == "tool-call:" + receipt.callId && v.references[n] == receipt.reference
  }

  lemma GroundedVerifies(v: Verification, item: Item, criteria: seq<Criterion>, receipts: seq<Receipt>)
    requires Grounded(v, criteria, receipts) && Bound(item, receipts) == Some(v.assertion)
    ensures Verifies(v, item, criteria, receipts)
  {
    BoundExactly(item, receipts);
    forall n | 0 <= n < |v.references|
      ensures exists receipt :: receipt in receipts
                && v.assertion.refs[n] == "tool-call:" + receipt.callId && v.references[n] == receipt.reference
    {
      var receipt :| receipt in receipts && RefTo(receipt) == v.assertion.refs[n]
        && receipt.reference == v.references[n];
      assert v.assertion.refs[n] == "tool-call:" + receipt.callId;
    }
  }

  /** The verifications say what items `places` say, which are all the acceptable ones, in that order. */
  ghost predicate Says(decided: seq<Verification>, items: seq<Item>, criteria: seq<Criterion>,
          receipts: seq<Receipt>, places: seq<nat>)
  {
    && |places| == |decided|
    && (forall n, m | 0 <= n < m < |places| :: places[n] < places[m])
    && (forall i | 0 <= i < |items| && Acceptable(items[i], receipts) :: i in places)
    && (forall n | 0 <= n < |places| ::
          places[n] < |items| && Verifies(decided[n], items[places[n]], criteria, receipts))
  }

  lemma VerificationsSay(items: seq<Item>, criteria: seq<Criterion>, receipts: seq<Receipt>,
          assertions: seq<Assertion>, decided: seq<Verification>)
    returns (places: seq<nat>)
    requires Subjects(decided) == assertions == Assertions(items, receipts)
    requires forall v | v in decided :: Grounded(v, criteria, receipts)
    ensures Says(decided, items, criteria, receipts, places)
  {
    places := AssertionsHavePlaces(items, receipts);
    forall n | 0 <= n < |places|
      ensures Verifies(decided[n], items[places[n]], criteria, receipts)
    {
      assert decided[n] in decided && Subjects(decided)[n] == decided[n].assertion;
      GroundedVerifies(decided[n], items[places[n]], criteria, receipts);
    }
    forall i | 0 <= i < |items| && Acceptable(items[i], receipts)
      ensures i in places
    {
      BoundExactly(items[i], receipts);
    }
  }

  /** A verdict carries one verification for each acceptable item, in the order submitted. */
  lemma VerdictSaysWhatWasSubmitted(r: Record, criteria: seq<Criterion>, d: Demands) returns (places: seq<nat>)
    requires !Judge(r, criteria, d).Unavailable?
    ensures |r.submissions| == 1 && r.submissions[0].Submission?
    ensures |places| == |criteria|
    ensures Says(Decided(Judge(r, criteria, d)), r.submissions[0].assertions.GetOr([]), criteria, r.receipts, places)
  {
    DecidedFacts(r, criteria, d);
    var items := r.submissions[0].assertions.GetOr([]);
    var assertions := Assertions(items, r.receipts);
    VerificationsAreGrounded(assertions, criteria, r.receipts);
    places := VerificationsSay(items, criteria, r.receipts, assertions, Decided(Judge(r, criteria, d)));
  }

  /** The feedback of a rejection is the submitted reason, trimmed and cut at five thousand characters. */
  lemma FeedbackIsTheReason(r: Record, criteria: seq<Criterion>, d: Demands)
    requires Judge(r, criteria, d).Rejected?
    ensures |r.submissions| == 1 && r.submissions[0].Submission?
    ensures
      var reason := Trim(r.submissions[0].reason.GetOr(""));
      Judge(r, criteria, d).feedback == if |reason| > 5000 then reason[..5000] else reason
  {
  }
}
