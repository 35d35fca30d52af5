/** The sequential verifier run: every command in order, on one unchanged commit,
    with both records of every test command. */
module ReleaseVerifier {
  import opened Options
  import opened ReleaseEvidence
  import opened JUnitEvidence

  // ------------------------------------------------------------ what is observed

  /** Tools, history and repository as found at one moment. */
  datatype Snapshot = Snapshot(toolsCurrent: bool, historyProblem: Option<Code>, repositoryProblem: Option<Code>,
                               commit: string)

  datatype Exit = Timeout | OutputLimit | RunnerError | Returned(code: int)

  /** Everything outside the verifier: what it sees before, during and after the
      command at each position, and at the end. */
  datatype Observed = Observed(before: nat -> Snapshot, exit: nat -> Exit, junit: nat -> JUnitFile,
                               pytest: nat -> PytestFile, after: nat -> Snapshot, finally: Snapshot)

  datatype StepStatus = Passed | Failed | TimedOut | Signaled

  datatype Step = Step(name: string, status: StepStatus, exitCode: Option<int>, code: Option<Code>,
                       record: Option<JUnitRecord>)

  datatype Run = Run(passed: bool, code: Option<Code>, steps: seq<Step>)

  /** The first reason why the candidate is not the expected one any more. */
  function StateError(s: Snapshot, commit: string): Option<Code> {
    if !s.toolsCurrent then Some(ToolIdentityChanged)
    else if s.historyProblem.Some? then s.historyProblem
    else if s.repositoryProblem.Some? then s.repositoryProblem
    else if s.commit != commit then Some(RepositoryChanged)
    else None
  }

  /** Same commit, same tools, nothing wrong with history or tree. */
  ghost predicate Intact(s: Snapshot, commit: string) {
    s == Snapshot(true, None, None, commit)
  }

  lemma NoErrorIffIntact(s: Snapshot, commit: string)
    ensures StateError(s, commit).None? <==> Intact(s, commit)
  {
  }

  // --------------------------------------------------------- what a test step proves

  /** Both records are good and name the same tests and the same skips. */
  ghost predicate TestsProven(junit: JUnitFile, pytest: PytestFile, command: Command, rules: Rules) {
    && GoodJUnit(junit, command, rules) && GoodPytest(pytest, command, rules)
    && Ids(CasesOf(SuitesOf(junit)), rules) == Texts(pytest.collected.value)
    && SkippedIds(CasesOf(SuitesOf(junit)), rules) == IdsWith(pytest.outcomes.value, "skipped")
  }

  method CheckTests(junit: JUnitFile, pytest: PytestFile, command: Command, rules: Rules)
    returns (error: Option<Code>, record: Option<JUnitRecord>)
    ensures error.None? <==> TestsProven(junit, pytest, command, rules)
    ensures error.None? ==> record.Some? && record.value.ids == Texts(pytest.collected.value)
  {
    var j := ReadJUnit(junit, command, rules);
    if j.Err? { return Some(j.code), None; }
    var p := PytestEvidence(pytest, command, rules);
    if p.Err? { return Some(p.code), Some(j.value); }
    SkipsCounted(CasesOf(SuitesOf(junit)), rules);
    if j.value.total != |p.value.collected| || j.value.skipped != |p.value.skipped| {
      return Some(CountMismatch), Some(j.value);
    }
    if j.value.ids != p.value.collected || j.value.skippedIds != p.value.skipped {
      return Some(IdentityMismatch), Some(j.value);
    }
    return None, Some(j.value);
  }

  /** The one outcome pytest reported for an id. */
  ghost predicate ReportedOnce(outcomes: seq<RawOutcome>, id: string, outcome: string) {
    exists k :: 0 <= k < |outcomes| && outcomes[k] == Entry(Text(id), Text(outcome)) && OnlyRow(outcomes, k)
  }

  ghost predicate OnlyRow(outcomes: seq<RawOutcome>, k: nat)
    requires k < |outcomes| && outcomes[k].Entry?
  {
    forall j :: 0 <= j < |outcomes| && outcomes[j].Entry? && outcomes[j].nodeid == outcomes[k].nodeid ==> j == k
  }

  /** Every collected test is reported exactly once, as passed or as an approved
      skip; JUnit names the same tests and reports no failure or error. */
  lemma EveryTestAccounted(junit: JUnitFile, pytest: PytestFile, command: Command, rules: Rules, id: string)
    requires TestsProven(junit, pytest, command, rules) && id in Texts(pytest.collected.value)
    ensures ReportedOnce(pytest.outcomes.value, id, "passed") ||
            (ReportedOnce(pytest.outcomes.value, id, "skipped") && id in ALLOWED_SKIPPED)
    ensures exists c :: c in CasesOf(SuitesOf(junit)) && IdOf(c, rules) == Some(id) && !c.failure && !c.error
  {
    var outcomes := pytest.outcomes.value;
    if id in IdsWith(outcomes, "passed") {
      HasOneRow(outcomes, rules, id, "passed");
    } else {
      HasOneRow(outcomes, rules, id, "skipped");
    }
    var cases := CasesOf(SuitesOf(junit));
    InIds(cases, rules, id);
    var k :| 0 <= k < |cases| && IdOf(cases[k], rules) == Some(id);
    assert cases[k] in cases;
  }

  lemma HasOneRow(outcomes: seq<RawOutcome>, rules: Rules, id: string, outcome: string)
    requires OneOutcomeEach(outcomes, rules) && id in IdsWith(outcomes, outcome)
    ensures ReportedOnce(outcomes, id, outcome)
  {
    var k :| 0 <= k < |outcomes| && HasOutcome(outcomes[k], outcome) && outcomes[k].nodeid.value == id;
    assert outcomes[k] == Entry(Text(id), Text(outcome));
    assert OnlyRow(outcomes, k);
  }

  /** At least one collected test ran and passed. */
  lemma SomeTestPassed(junit: JUnitFile, pytest: PytestFile, command: Command, rules: Rules) returns (id: string)
    requires TestsProven(junit, pytest, command, rules)
    ensures id in Texts(pytest.collected.value) && ReportedOnce(pytest.outcomes.value, id, "passed")
  {
    var cases := CasesOf(SuitesOf(junit));
    SkipsCounted(cases, rules);
    TotalsCount(cases);
    var ids, skipped := Ids(cases, rules), SkippedIds(cases, rules);
    assert |ids - skipped| == |ids| - |skipped|;
    id :| id in ids - skipped;
    assert id in IdsWith(pytest.outcomes.value, "passed");
    HasOneRow(pytest.outcomes.value, rules, id, "passed");
  }

  // --------------------------------------------------------------------- the run

  ghost predicate GoodStep(commands: seq<Command>, o: Observed, commit: string, rules: Rules, k: nat)
    requires k < |commands|
  {
    && Intact(o.before(k), commit)
    && !commands[k].network
    && o.exit(k) == Returned(0)
    && (commands[k].expectsTests ==> TestsProven(o.junit(k), o.pytest(k), commands[k], rules))
    && Intact(o.after(k), commit)
  }

  ghost predicate FinallyIntact(s: Snapshot, commit: string) { s.repositoryProblem.None? && s.commit == commit }

  /** A step marked passed is backed by what was observed. */
  ghost predicate StepBacked(commands: seq<Command>, o: Observed, rules: Rules, s: Step, k: nat)
    requires k < |commands|
  {
    && s.name == commands[k].name
    && (s.status.Passed? ==>
          && s.exitCode == Some(0) && !commands[k].network && o.exit(k) == Returned(0)
          && (commands[k].expectsTests ==> TestsProven(o.junit(k), o.pytest(k), commands[k], rules)))
    && (s.status.Passed? <==> s.code.None?)
  }

  /** Steps are the commands in order; all but the last are passed. */
  ghost predicate StepsInOrder(commands: seq<Command>, o: Observed, rules: Rules, steps: seq<Step>) {
    && |steps| <= |commands|
    && (forall k :: 0 <= k < |steps| ==> StepBacked(commands, o, rules, steps[k], k))
    && (forall k :: 0 <= k < |steps| - 1 ==> steps[k].status.Passed?)
  }

  /** Runs one command and appends its step, unless the candidate changed before. */
  method RunCommand(commands: seq<Command>, o: Observed, commit: string, rules: Rules, k: nat)
    returns (error: Option<Code>, step: Option<Step>)
    requires k < |commands|
    ensures error.None? <==> GoodStep(commands, o, commit, rules, k)
    ensures step.Some? ==> StepBacked(commands, o, rules, step.value, k)
    ensures error.None? ==> step.Some? && step.value.status.Passed?
    ensures step.None? ==> !Intact(o.before(k), commit)
  {
    NoErrorIffIntact(o.before(k), commit);
    NoErrorIffIntact(o.after(k), commit);
    var command := commands[k];
    error := StateError(o.before(k), commit);
    if error.Some? { return error, None; }
    if command.network {
      return Some(NetworkCommandRejected), Some(Step(command.name, Failed, None, Some(NetworkCommandRejected), None));
    }
    var after := StateError(o.after(k), commit);
    if !o.exit(k).Returned? {
      var code := if o.exit(k).Timeout? then CommandTimeout
                  else if o.exit(k).OutputLimit? then CommandOutputLimit else CommandRunnerError;
      var status := if o.exit(k).Timeout? then TimedOut else Failed;
      return Some(if after.Some? then after.value else code), Some(Step(command.name, status, None, Some(code), None));
    }
    var exitCode := o.exit(k).code;
    var tests: Option<Code>, record := None, None;
    if exitCode == 0 && command.expectsTests {
      tests, record := CheckTests(o.junit(k), o.pytest(k), command, rules);
    }
    var status, code := Passed, None;
    if exitCode < 0 {
      status, code := Signaled, Some(CommandSignal);
    } else if exitCode != 0 {
      status, code := Failed, Some(CommandFailed);
    } else if tests.Some? {
      status, code := Failed, tests;
    }
    step := Some(Step(command.name, status, Some(exitCode), code, record));
    error := if after.Some? then after else code;
  }

  /** The run passes exactly when every command is good and the repository is the
      same commit at the end. */
  method RunIsolated(commands: seq<Command>, o: Observed, commit: string, rules: Rules) returns (run: Run)
    ensures run.passed <==>
              && (forall k :: 0 <= k < |commands| ==> GoodStep(commands, o, commit, rules, k))
              && FinallyIntact(o.finally, commit)
    ensures run.passed <==> run.code.None?
    ensures StepsInOrder(commands, o, rules, run.steps)
    ensures run.passed ==> |run.steps| == |commands| && forall s :: s in run.steps ==> s.status.Passed?
    ensures forall k :: 0 <= k < |run.steps| - 1 ==> GoodStep(commands, o, commit, rules, k)
  {
    var steps: seq<Step> := [];
    for k := 0 to |commands|
      invariant |steps| == k && StepsInOrder(commands, o, rules, steps)
      invariant forall j :: 0 <= j < k ==> steps[j].status.Passed? && GoodStep(commands, o, commit, rules, j)
    {
      var error, step := RunCommand(commands, o, commit, rules, k);
      if step.Some? { steps := steps + [step.value]; }
      if error.Some? { return Run(false, error, steps); }
    }
    if o.finally.repositoryProblem.Some? { return Run(false, o.finally.repositoryProblem, steps); }
    if o.finally.commit != commit { return Run(false, Some(RepositoryChanged), steps); }
    run := Run(true, None, steps);
  }
}
