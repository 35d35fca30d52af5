/** The two independently produced records of a test command, and what accepting
    both of them proves. */
module ReleaseEvidence {
  import opened Options
  import opened Sequences

  datatype Result<+T> = Ok(value: T) | Err(code: Code)

  /** Why something is refused; a pass carries no code. */
  datatype Code =
    | NetworkCommandRejected | CommandTimeout | CommandOutputLimit | CommandRunnerError | CommandSignal
    | CommandFailed | EvidenceMissing | EvidenceTooLarge | EvidenceUnreadable | EvidenceEmpty | EvidenceMalformed
    | DuplicateCollected | DuplicateDeselected | TestsDeselected | SuiteEmpty | ManifestUnpinned | ManifestMismatch
    | DuplicateOutcome | IncompleteExecution | ReportedFailure | UnapprovedSkip | DuplicateIdentity
    | AggregateMismatch | RequiredFileMissing | CountMismatch | IdentityMismatch
    | ToolIdentityChanged | RepositoryChanged | RepositoryProblem(text: string)

  datatype Manifest = Manifest(count: nat, digest: string)

  datatype Command = Command(name: string, network: bool, expectsTests: bool, requiredFiles: set<string>,
                             manifest: Option<Manifest>)

  /** Path patterns, node id spelling and the manifest digest of a set of ids. */
  datatype Rules = Rules(safeId: string -> bool, safePath: string -> bool, manifestOf: set<string> -> Manifest,
                         nodeId: (string, string, string) -> Option<string>)

  /** The tests that may be skipped. */
  const ALLOWED_SKIPPED: set<string> :=
    {"tests/test_alpaca_paper_integration.py::test_paper_account_and_quote",
     "tests/test_llm_runner.py::test_budget_aborts_run"}

  // ------------------------------------------------------------------- pytest's record

  /** A JSON value where a string is wanted. */
  datatype Raw = Text(value: string) | NotText

  datatype RawOutcome = Entry(nodeid: Raw, outcome: Raw) | NotAnObject

  /** `header` says that the payload is an object of schema 1 with exit status 0;
      None stands for a value that is not a list. */
  datatype PytestFile = PytestMissing | PytestTooLarge | PytestMalformed
                      | PytestJson(header: bool, collected: Option<seq<Raw>>, deselected: Option<seq<Raw>>,
                                   outcomes: Option<seq<RawOutcome>>)

  datatype PytestRecord = PytestRecord(collected: set<string>, skipped: set<string>)

  predicate SafeRaw(raw: Raw, rules: Rules) { raw.Text? && rules.safeId(raw.value) }

  predicate ValidOutcome(o: RawOutcome, rules: Rules) {
    && o.Entry? && SafeRaw(o.nodeid, rules) && o.outcome.Text?
    && o.outcome.value in {"passed", "failed", "skipped"}
  }

  ghost function SetOf<T>(s: seq<T>): set<T> { set x | x in s }

  ghost function Texts(raws: seq<Raw>): set<string> {
    set k | 0 <= k < |raws| && raws[k].Text? :: raws[k].value
  }

  /** The ids with a given outcome. */
  ghost function IdsWith(outcomes: seq<RawOutcome>, outcome: string): set<string> {
    set k | 0 <= k < |outcomes| && HasOutcome(outcomes[k], outcome) :: outcomes[k].nodeid.value
  }

  ghost predicate HasOutcome(o: RawOutcome, outcome: string) {
    o.Entry? && o.nodeid.Text? && o.outcome == Text(outcome)
  }

  /** Every outcome row is valid and no id has two. */
  ghost predicate OneOutcomeEach(outcomes: seq<RawOutcome>, rules: Rules) {
    && (forall k :: 0 <= k < |outcomes| ==> ValidOutcome(outcomes[k], rules))
    && (forall j, k :: 0 <= j < k < |outcomes| ==> outcomes[j].nodeid != outcomes[k].nodeid)
  }

  ghost predicate GoodPytest(f: PytestFile, command: Command, rules: Rules) {
    && f.PytestJson? && f.header && f.collected.Some? && f.outcomes.Some?
    && f.deselected == Some([])
    && f.collected.value != []
    && (forall k :: 0 <= k < |f.collected.value| ==> SafeRaw(f.collected.value[k], rules))
    && Distinct(f.collected.value)
    && command.manifest == Some(rules.manifestOf(Texts(f.collected.value)))
    && OneOutcomeEach(f.outcomes.value, rules)
    && IdsWith(f.outcomes.value, "failed") == {}
    && IdsWith(f.outcomes.value, "passed") + IdsWith(f.outcomes.value, "skipped") == Texts(f.collected.value)
    && IdsWith(f.outcomes.value, "skipped") <= ALLOWED_SKIPPED
  }

  lemma {:induction false} DistinctCount<T>(s: seq<T>)
    ensures |SetOf(s)| <= |s| && (|SetOf(s)| == |s| <==> Distinct(s))
  {
    if s == [] {
    } else {
      var n := |s| - 1;
      DistinctCount(s[..n]);
      assert s == s[..n] + [s[n]];
      assert SetOf(s) == SetOf(s[..n]) + {s[n]};
      if s[n] in s[..n] {
        assert SetOf(s) == SetOf(s[..n]);
      } else {
        forall i, j | 0 <= i < j < |s| && Distinct(s[..n]) ensures s[i] != s[j] {
          assert s[i] == s[..n][i];
          if j < n { assert s[j] == s[..n][j]; }
        }
        if Distinct(s) {
          forall i, j | 0 <= i < j < n ensures s[..n][i] != s[..n][j] {}
        }
      }
    }
  }

  /** The safe ids of a list, or nothing when one of them is not safe. */
  method ReadIds(raws: seq<Raw>, rules: Rules) returns (ids: Option<seq<string>>)
    ensures ids.Some? <==> forall k :: 0 <= k < |raws| ==> SafeRaw(raws[k], rules)
    ensures ids.Some? ==> |ids.value| == |raws| && forall k :: 0 <= k < |raws| ==> raws[k] == Text(ids.value[k])
  {
    var read: seq<string> := [];
    for k := 0 to |raws|
      invariant |read| == k && forall j :: 0 <= j < k ==> SafeRaw(raws[j], rules) && raws[j] == Text(read[j])
    {
      if !SafeRaw(raws[k], rules) { return None; }
      read := read + [raws[k].value];
    }
    ids := Some(read);
  }

  lemma SameIds(raws: seq<Raw>, ids: seq<string>)
    requires |ids| == |raws| && forall k :: 0 <= k < |raws| ==> raws[k] == Text(ids[k])
    ensures Texts(raws) == SetOf(ids) && (Distinct(raws) <==> Distinct(ids))
  {
    forall x | x in SetOf(ids) ensures x in Texts(raws) {
      var k :| 0 <= k < |ids| && ids[k] == x;
      assert raws[k].value == x;
    }
    forall i, j | 0 <= i < j < |ids| ensures raws[i] == raws[j] <==> ids[i] == ids[j] {}
  }

  /** What the outcome loop has stored after `k` rows. */
  ghost predicate Stored(outcomes: seq<RawOutcome>, rules: Rules, k: nat, stored: map<string, string>)
    requires k <= |outcomes|
  {
    && OneOutcomeEach(outcomes[..k], rules)
    && (forall j :: 0 <= j < k ==>
          outcomes[j].nodeid.value in stored && outcomes[j].outcome == Text(stored[outcomes[j].nodeid.value]))
    && (forall id :: id in stored ==> exists j :: 0 <= j < k && outcomes[j].nodeid == Text(id))
  }

  method ReadOutcomes(outcomes: seq<RawOutcome>, rules: Rules) returns (r: Result<map<string, string>>)
    ensures r.Ok? <==> OneOutcomeEach(outcomes, rules)
    ensures r.Ok? ==> Stored(outcomes, rules, |outcomes|, r.value)
    ensures r.Err? ==> r.code == EvidenceMalformed || r.code == DuplicateOutcome
  {
    var stored: map<string, string> := map[];
    for k := 0 to |outcomes|
      invariant Stored(outcomes, rules, k, stored)
    {
      var raw := outcomes[k];
      if !ValidOutcome(raw, rules) { return Err(EvidenceMalformed); }
      var id := raw.nodeid.value;
      if id in stored { return Err(DuplicateOutcome); }
      StoreOne(outcomes, rules, k, stored);
      stored := stored[id := raw.outcome.value];
    }
    assert outcomes[..|outcomes|] == outcomes;
    r := Ok(stored);
  }

  lemma StoreOne(outcomes: seq<RawOutcome>, rules: Rules, k: nat, stored: map<string, string>)
    requires k < |outcomes| && Stored(outcomes, rules, k, stored) && ValidOutcome(outcomes[k], rules)
    requires outcomes[k].nodeid.value !in stored
    ensures Stored(outcomes, rules, k + 1, stored[outcomes[k].nodeid.value := outcomes[k].outcome.value])
  {
    var next := stored[outcomes[k].nodeid.value := outcomes[k].outcome.value];
    var more := outcomes[..k + 1];
    forall j | 0 <= j < k + 1 ensures ValidOutcome(more[j], rules) {
      if j < k { assert outcomes[..k][j] == more[j]; }
    }
    forall i, j | 0 <= i < j < k + 1 ensures more[i].nodeid != more[j].nodeid {
      assert outcomes[..k][i] == more[i];
      if j < k { assert outcomes[..k][j] == more[j]; }
    }
    forall id | id in next ensures exists j :: 0 <= j < k + 1 && outcomes[j].nodeid == Text(id) {
      if id in stored {
        var j :| 0 <= j < k && outcomes[j].nodeid == Text(id);
      } else {
        assert outcomes[k].nodeid == Text(id);
      }
    }
  }

  /** The stored map groups the ids by outcome. */
  lemma StoredByOutcome(outcomes: seq<RawOutcome>, rules: Rules, stored: map<string, string>, outcome: string)
    requires Stored(outcomes, rules, |outcomes|, stored)
    ensures IdsWith(outcomes, outcome) == set id | id in stored && stored[id] == outcome
  {
    forall id | id in stored && stored[id] == outcome ensures id in IdsWith(outcomes, outcome) {
      var j :| 0 <= j < |outcomes| && outcomes[j].nodeid == Text(id);
      assert outcomes[..|outcomes|][j] == outcomes[j];
      assert HasOutcome(outcomes[j], outcome);
    }
    forall id | id in IdsWith(outcomes, outcome) ensures id in stored && stored[id] == outcome {
      var j :| 0 <= j < |outcomes| && HasOutcome(outcomes[j], outcome) && outcomes[j].nodeid.value == id;
    }
  }

  lemma StoredCovers(outcomes: seq<RawOutcome>, rules: Rules, stored: map<string, string>)
    requires Stored(outcomes, rules, |outcomes|, stored)
    ensures stored.Keys == IdsWith(outcomes, "passed") + IdsWith(outcomes, "failed") + IdsWith(outcomes, "skipped")
  {
    StoredByOutcome(outcomes, rules, stored, "passed");
    StoredByOutcome(outcomes, rules, stored, "failed");
    StoredByOutcome(outcomes, rules, stored, "skipped");
    forall id | id in stored
      ensures id in IdsWith(outcomes, "passed") + IdsWith(outcomes, "failed") + IdsWith(outcomes, "skipped")
    {
      var j :| 0 <= j < |outcomes| && outcomes[j].nodeid == Text(id);
      assert ValidOutcome(outcomes[..|outcomes|][j], rules);
      assert stored[id] == "passed" || stored[id] == "failed" || stored[id] == "skipped";
    }
  }

  /** Accepted exactly when the record is complete, unambiguous, pinned and free
      of failures and unapproved skips. */
  method PytestEvidence(f: PytestFile, command: Command, rules: Rules) returns (r: Result<PytestRecord>)
    ensures r.Ok? <==> GoodPytest(f, command, rules)
    ensures r.Ok? ==> r.value == PytestRecord(Texts(f.collected.value), IdsWith(f.outcomes.value, "skipped"))
  {
    if f.PytestMissing? { return Err(EvidenceMissing); }
    if f.PytestTooLarge? { return Err(EvidenceTooLarge); }
    if f.PytestMalformed? || !f.header { return Err(EvidenceMalformed); }
    if f.collected.None? || f.deselected.None? || f.outcomes.None? { return Err(EvidenceMalformed); }
    var collected := ReadIds(f.collected.value, rules);
    var deselected := ReadIds(f.deselected.value, rules);
    if collected.None? || deselected.None? { return Err(EvidenceMalformed); }
    SameIds(f.collected.value, collected.value);
    DistinctCount(collected.value);
    var ids := set x | x in collected.value;
    assert ids == SetOf(collected.value);
    if |ids| != |collected.value| { return Err(DuplicateCollected); }
    if |set x | x in deselected.value| != |deselected.value| { return Err(DuplicateDeselected); }
    if deselected.value != [] { return Err(TestsDeselected); }
    if collected.value == [] { return Err(SuiteEmpty); }
    if command.manifest.None? { return Err(ManifestUnpinned); }
    if rules.manifestOf(ids) != command.manifest.value { return Err(ManifestMismatch); }
    r := JudgeOutcomes(f.outcomes.value, ids, rules);
  }

  method JudgeOutcomes(outcomes: seq<RawOutcome>, ids: set<string>, rules: Rules) returns (r: Result<PytestRecord>)
    ensures r.Ok? <==> && OneOutcomeEach(outcomes, rules) && IdsWith(outcomes, "failed") == {}
                       && IdsWith(outcomes, "passed") + IdsWith(outcomes, "skipped") == ids
                       && IdsWith(outcomes, "skipped") <= ALLOWED_SKIPPED
    ensures r.Ok? ==> r.value == PytestRecord(ids, IdsWith(outcomes, "skipped"))
  {
    var read := ReadOutcomes(outcomes, rules);
    if read.Err? { return Err(read.code); }
    var stored := read.value;
    StoredByOutcome(outcomes, rules, stored, "failed");
    StoredByOutcome(outcomes, rules, stored, "skipped");
    StoredCovers(outcomes, rules, stored);
    if stored.Keys != ids { return Err(IncompleteExecution); }
    var failed := set id | id in stored && stored[id] == "failed";
    if failed != {} { return Err(ReportedFailure); }
    var skipped := set id | id in stored && stored[id] == "skipped";
    if !(skipped <= ALLOWED_SKIPPED) { return Err(UnapprovedSkip); }
    r := Ok(PytestRecord(ids, skipped));
  }
}
