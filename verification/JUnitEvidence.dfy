/** The JUnit report of a test command: which reports are accepted and what they
    say about each test. */
module JUnitEvidence {
  import opened Options
  import opened ReleaseEvidence

  datatype Case = Case(file: string, classname: string, name: string, failure: bool, error: bool, skipped: bool)

  datatype Totals = Totals(tests: nat, failures: nat, errors: nat, skipped: nat)

  /** `declared` is None when an attribute is missing or is not an integer. */
  datatype Suite = Suite(cases: seq<Case>, declared: Option<Totals>)

  datatype Outer = NoAttributes | BadAttributes | Declared(totals: Totals)

  /** `stray` says that some child of the root is not a suite. */
  datatype JUnitFile = JUnitMissing | JUnitTooLarge | JUnitUnreadable | JUnitEmpty | JUnitUnparsable
                     | OneSuite(suite: Suite) | ManySuites(suites: seq<Suite>, stray: bool, outer: Outer) | OtherRoot

  datatype JUnitRecord = JUnitRecord(total: nat, failures: nat, errors: nat, skipped: nat, ids: set<string>,
                                     skippedIds: set<string>)

  function SuitesOf(f: JUnitFile): seq<Suite> {
    if f.OneSuite? then [f.suite] else if f.ManySuites? then f.suites else []
  }

  function CasesOf(suites: seq<Suite>): seq<Case> {
    if suites == [] then [] else CasesOf(suites[..|suites| - 1]) + suites[|suites| - 1].cases
  }

  function One(b: bool): nat { if b then 1 else 0 }

  function TotalsOf(cases: seq<Case>): Totals {
    if cases == [] then Totals(0, 0, 0, 0)
    else
      var t, c := TotalsOf(cases[..|cases| - 1]), cases[|cases| - 1];
      Totals(t.tests + 1, t.failures + One(c.failure), t.errors + One(c.error), t.skipped + One(c.skipped))
  }

  function IdOf(c: Case, rules: Rules): Option<string> { rules.nodeId(c.file, c.classname, c.name) }

  predicate WellNamed(c: Case, rules: Rules) {
    && rules.safePath(c.file) && c.name != ""
    && '\n' !in c.name && '\r' !in c.name && '\0' !in c.name
    && IdOf(c, rules).Some?
  }

  // --------------------------------------------------------------- what is accepted

  /** Every case names a test of its own, and skips only what may be skipped. */
  ghost predicate CasesOk(cases: seq<Case>, rules: Rules) {
    && (forall k :: 0 <= k < |cases| ==> WellNamed(cases[k], rules))
    && (forall j, k :: 0 <= j < k < |cases| ==> IdOf(cases[j], rules) != IdOf(cases[k], rules))
    && (forall k :: 0 <= k < |cases| && cases[k].skipped ==> IdOf(cases[k], rules).value in ALLOWED_SKIPPED)
  }

  ghost function Ids(cases: seq<Case>, rules: Rules): set<string> {
    if cases == [] then {}
    else
      var id := IdOf(cases[|cases| - 1], rules);
      Ids(cases[..|cases| - 1], rules) + if id.Some? then {id.value} else {}
  }

  ghost function SkippedIds(cases: seq<Case>, rules: Rules): set<string> {
    if cases == [] then {}
    else
      var id := IdOf(cases[|cases| - 1], rules);
      SkippedIds(cases[..|cases| - 1], rules) + if id.Some? && cases[|cases| - 1].skipped then {id.value} else {}
  }

  ghost function Files(cases: seq<Case>): set<string> { set k | 0 <= k < |cases| :: cases[k].file }

  lemma {:induction false} InIds(cases: seq<Case>, rules: Rules, id: string)
    ensures id in Ids(cases, rules) <==> exists k :: 0 <= k < |cases| && IdOf(cases[k], rules) == Some(id)
    ensures id in SkippedIds(cases, rules) <==>
            exists k :: 0 <= k < |cases| && IdOf(cases[k], rules) == Some(id) && cases[k].skipped
  {
    if cases == [] {
    } else {
      var n := |cases| - 1;
      InIds(cases[..n], rules, id);
      forall k | 0 <= k < n ensures cases[..n][k] == cases[k] {}
      if id in Ids(cases[..n], rules) {
        var k :| 0 <= k < n && IdOf(cases[..n][k], rules) == Some(id);
        assert IdOf(cases[k], rules) == Some(id);
      }
      if id in SkippedIds(cases[..n], rules) {
        var k :| 0 <= k < n && IdOf(cases[..n][k], rules) == Some(id) && cases[..n][k].skipped;
        assert IdOf(cases[k], rules) == Some(id) && cases[k].skipped;
      }
    }
  }

  ghost predicate TotalsAgree(f: JUnitFile) {
    && (forall s :: s in SuitesOf(f) ==> s.declared == Some(TotalsOf(s.cases)))
    && (f.ManySuites? ==> f.outer.NoAttributes? || f.outer == Declared(TotalsOf(CasesOf(f.suites))))
  }

  ghost predicate GoodJUnit(f: JUnitFile, command: Command, rules: Rules) {
    && (f.OneSuite? || (f.ManySuites? && !f.stray))
    && TotalsAgree(f)
    && GoodCases(CasesOf(SuitesOf(f)), command, rules)
  }

  ghost predicate NoneFailed(cases: seq<Case>) { forall c :: c in cases ==> !c.failure && !c.error }

  ghost predicate SomeRan(cases: seq<Case>) { exists c :: c in cases && !c.skipped }

  ghost predicate GoodCases(cases: seq<Case>, command: Command, rules: Rules) {
    && CasesOk(cases, rules)
    && NoneFailed(cases) && SomeRan(cases)
    && command.requiredFiles <= Files(cases)
  }

  // ------------------------------------------------------------------- the counters

  lemma LastCase(cases: seq<Case>, n: nat)
    requires |cases| == n + 1
    ensures NoneFailed(cases) <==> NoneFailed(cases[..n]) && !cases[n].failure && !cases[n].error
    ensures SomeRan(cases) <==> SomeRan(cases[..n]) || !cases[n].skipped
  {
    assert cases[n] in cases;
    forall c | c in cases ensures c in cases[..n] || c == cases[n] { assert cases == cases[..n] + [cases[n]]; }
    forall c | c in cases[..n] ensures c in cases {}
  }

  lemma {:induction false} TotalsCount(cases: seq<Case>)
    ensures TotalsOf(cases).tests == |cases| && TotalsOf(cases).skipped <= |cases|
    ensures TotalsOf(cases).failures == 0 && TotalsOf(cases).errors == 0 <==> NoneFailed(cases)
    ensures TotalsOf(cases).skipped < |cases| <==> SomeRan(cases)
  {
    if cases == [] {
    } else {
      var n := |cases| - 1;
      TotalsCount(cases[..n]);
      LastCase(cases, n);
    }
  }

  /** With distinct ids the skip counter counts the skipped ids. */
  lemma {:induction false} SkipsCounted(cases: seq<Case>, rules: Rules)
    requires CasesOk(cases, rules)
    ensures |SkippedIds(cases, rules)| == TotalsOf(cases).skipped && |Ids(cases, rules)| == |cases|
    ensures SkippedIds(cases, rules) <= Ids(cases, rules)
  {
    if cases == [] {
    } else {
      var n := |cases| - 1;
      Shorter(cases, rules);
      SkipsCounted(cases[..n], rules);
      RepeatedId(cases, n, IdOf(cases[n], rules).value, rules);
    }
  }

  lemma Shorter(cases: seq<Case>, rules: Rules)
    requires cases != [] && CasesOk(cases, rules)
    ensures CasesOk(cases[..|cases| - 1], rules)
  {
    var n := |cases| - 1;
    forall k | 0 <= k < n ensures cases[..n][k] == cases[k] {}
  }

  lemma RepeatedId(cases: seq<Case>, k: nat, id: string, rules: Rules)
    requires k < |cases| && IdOf(cases[k], rules) == Some(id)
    ensures id in Ids(cases[..k], rules) ==> !CasesOk(cases, rules)
  {
    InIds(cases[..k], rules, id);
    if id in Ids(cases[..k], rules) {
      var j :| 0 <= j < k && IdOf(cases[..k][j], rules) == Some(id);
      assert IdOf(cases[j], rules) == IdOf(cases[k], rules);
    }
  }

  lemma FilesGrow(cases: seq<Case>, k: nat)
    requires k < |cases|
    ensures Files(cases[..k + 1]) == Files(cases[..k]) + {cases[k].file}
  {
    var a, b := cases[..k], cases[..k + 1];
    assert b[k] == cases[k];
    forall x | x in Files(a) ensures x in Files(b) {
      var j :| 0 <= j < k && a[j].file == x;
      assert b[j].file == x;
    }
  }

  // ---------------------------------------------------------------------- the scan

  datatype Scan = Scan(files: set<string>, ids: set<string>, skippedIds: set<string>, totals: Totals)

  ghost predicate Scanned(cases: seq<Case>, rules: Rules, s: Scan) {
    && CasesOk(cases, rules) && s.totals == TotalsOf(cases)
    && s.files == Files(cases) && s.ids == Ids(cases, rules) && s.skippedIds == SkippedIds(cases, rules)
  }

  function Identity(c: Case): (string, string, string) { (c.file, c.classname, c.name) }

  ghost predicate Identified(cases: seq<Case>, identities: set<(string, string, string)>) {
    && (forall c :: c in cases ==> Identity(c) in identities)
    && (forall x :: x in identities ==> exists j :: 0 <= j < |cases| && x == Identity(cases[j]))
  }

  lemma IdentifyOne(cases: seq<Case>, k: nat, identities: set<(string, string, string)>)
    requires k < |cases| && Identified(cases[..k], identities)
    ensures Identified(cases[..k + 1], identities + {Identity(cases[k])})
  {
    var a, b := cases[..k], cases[..k + 1];
    assert b == a + [cases[k]];
    forall x | x in identities + {Identity(cases[k])} ensures exists j :: 0 <= j < |b| && x == Identity(b[j]) {
      if x in identities {
        var j :| 0 <= j < |a| && x == Identity(a[j]);
        assert x == Identity(b[j]);
      } else {
        assert x == Identity(b[k]);
      }
    }
  }

  lemma RepeatedIdentity(cases: seq<Case>, k: nat, identities: set<(string, string, string)>, rules: Rules)
    requires k < |cases| && Identified(cases[..k], identities) && Identity(cases[k]) in identities
    ensures !CasesOk(cases, rules)
  {
    var j :| 0 <= j < k && Identity(cases[k]) == Identity(cases[..k][j]);
    assert IdOf(cases[j], rules) == IdOf(cases[k], rules);
  }

  /** Checks one more case and adds it to the counters and sets. */
  method ScanOne(cases: seq<Case>, k: nat, rules: Rules, s: Scan, identities: set<(string, string, string)>)
    returns (r: Result<Scan>)
    requires k < |cases| && Scanned(cases[..k], rules, s) && Identified(cases[..k], identities)
    ensures r.Ok? ==> Scanned(cases[..k + 1], rules, r.value)
    ensures r.Err? ==> !CasesOk(cases, rules)
  {
    var c := cases[k];
    if !rules.safePath(c.file) || c.name == "" || '\n' in c.name || '\r' in c.name || '\0' in c.name {
      return Err(EvidenceMalformed);
    }
    if Identity(c) in identities {
      RepeatedIdentity(cases, k, identities, rules);
      return Err(DuplicateIdentity);
    }
    var id := IdOf(c, rules);
    if id.None? { return Err(EvidenceMalformed); }
    if id.value in s.ids {
      RepeatedId(cases, k, id.value, rules);
      return Err(EvidenceMalformed);
    }
    if c.skipped && id.value !in ALLOWED_SKIPPED { return Err(UnapprovedSkip); }
    FilesGrow(cases, k);
    CasesGrow(cases, k, rules);
    r := Ok(Scan(s.files + {c.file}, s.ids + {id.value}, if c.skipped then s.skippedIds + {id.value} else s.skippedIds,
                 Totals(s.totals.tests + 1, s.totals.failures + One(c.failure), s.totals.errors + One(c.error),
                        s.totals.skipped + One(c.skipped))));
  }

  method ScanCases(cases: seq<Case>, rules: Rules) returns (r: Result<Scan>)
    ensures r.Ok? <==> CasesOk(cases, rules)
    ensures r.Ok? ==> Scanned(cases, rules, r.value)
  {
    var s := Scan({}, {}, {}, Totals(0, 0, 0, 0));
    var identities: set<(string, string, string)> := {};
    for k := 0 to |cases|
      invariant Scanned(cases[..k], rules, s) && Identified(cases[..k], identities)
    {
      var next := ScanOne(cases, k, rules, s, identities);
      if next.Err? { return next; }
      IdentifyOne(cases, k, identities);
      identities := identities + {Identity(cases[k])};
      s := next.value;
    }
    assert cases[..|cases|] == cases;
    r := Ok(s);
  }

  lemma CasesGrow(cases: seq<Case>, k: nat, rules: Rules)
    requires k < |cases| && CasesOk(cases[..k], rules) && WellNamed(cases[k], rules)
    requires IdOf(cases[k], rules).value !in Ids(cases[..k], rules)
    requires cases[k].skipped ==> IdOf(cases[k], rules).value in ALLOWED_SKIPPED
    ensures CasesOk(cases[..k + 1], rules)
    ensures Ids(cases[..k + 1], rules) == Ids(cases[..k], rules) + {IdOf(cases[k], rules).value}
    ensures SkippedIds(cases[..k + 1], rules) ==
            SkippedIds(cases[..k], rules) + if cases[k].skipped then {IdOf(cases[k], rules).value} else {}
    ensures TotalsOf(cases[..k + 1]) ==
            var t := TotalsOf(cases[..k]);
            Totals(t.tests + 1, t.failures + One(cases[k].failure), t.errors + One(cases[k].error),
                   t.skipped + One(cases[k].skipped))
  {
    var a, b := cases[..k], cases[..k + 1];
    assert b[..k] == a && b[k] == cases[k];
    forall j | 0 <= j < k ensures a[j] == b[j] && IdOf(b[j], rules) != IdOf(b[k], rules) {
      assert WellNamed(a[j], rules);
      InIds(a, rules, IdOf(a[j], rules).value);
    }
  }

  method TotalsMatch(f: JUnitFile, totals: Totals) returns (ok: Result<()>)
    requires totals == TotalsOf(CasesOf(SuitesOf(f)))
    ensures ok.Ok? <==> TotalsAgree(f)
  {
    var suites := SuitesOf(f);
    for k := 0 to |suites|
      invariant forall j :: 0 <= j < k ==> suites[j].declared == Some(TotalsOf(suites[j].cases))
    {
      if suites[k].declared.None? { return Err(EvidenceMalformed); }
      if suites[k].declared.value != TotalsOf(suites[k].cases) { return Err(AggregateMismatch); }
    }
    if f.ManySuites? && !f.outer.NoAttributes? {
      if f.outer.BadAttributes? { return Err(EvidenceMalformed); }
      if f.outer.totals != totals { return Err(AggregateMismatch); }
    }
    ok := Ok(());
  }

  /** Accepted exactly when the report is well formed, its counters add up, no
      test failed, at least one ran and every required file took part. */
  method ReadJUnit(f: JUnitFile, command: Command, rules: Rules) returns (r: Result<JUnitRecord>)
    ensures r.Ok? <==> GoodJUnit(f, command, rules)
    ensures r.Ok? ==> var cases := CasesOf(SuitesOf(f));
                      r.value == JUnitRecord(|cases|, 0, 0, TotalsOf(cases).skipped, Ids(cases, rules),
                                             SkippedIds(cases, rules))
  {
    if f.JUnitMissing? { return Err(EvidenceMissing); }
    if f.JUnitTooLarge? { return Err(EvidenceTooLarge); }
    if f.JUnitUnreadable? { return Err(EvidenceUnreadable); }
    if f.JUnitEmpty? { return Err(EvidenceEmpty); }
    if f.JUnitUnparsable? || f.OtherRoot? { return Err(EvidenceMalformed); }
    if f.ManySuites? && f.stray { return Err(EvidenceMalformed); }
    r := JudgeCases(f, CasesOf(SuitesOf(f)), command, rules);
  }

  method JudgeCases(f: JUnitFile, cases: seq<Case>, command: Command, rules: Rules) returns (r: Result<JUnitRecord>)
    requires cases == CasesOf(SuitesOf(f))
    ensures r.Ok? <==> TotalsAgree(f) && GoodCases(cases, command, rules)
    ensures r.Ok? ==> r.value == JUnitRecord(|cases|, 0, 0, TotalsOf(cases).skipped, Ids(cases, rules),
                                             SkippedIds(cases, rules))
  {
    TotalsCount(cases);
    if cases == [] { return Err(SuiteEmpty); }
    var scan := ScanCases(cases, rules);
    if scan.Err? { return Err(scan.code); }
    var declared := TotalsMatch(f, scan.value.totals);
    if declared.Err? { return Err(declared.code); }
    var code := JudgeTotals(cases, scan.value, command, rules);
    if code.Some? { return Err(code.value); }
    var t := scan.value.totals;
    r := Ok(JUnitRecord(|cases|, t.failures, t.errors, t.skipped, scan.value.ids, scan.value.skippedIds));
  }

  method JudgeTotals(cases: seq<Case>, s: Scan, command: Command, rules: Rules) returns (code: Option<Code>)
    requires Scanned(cases, rules, s)
    ensures code.None? <==> NoneFailed(cases) && SomeRan(cases) && command.requiredFiles <= Files(cases)
  {
    TotalsCount(cases);
    if s.totals.failures > 0 || s.totals.errors > 0 { return Some(ReportedFailure); }
    if |cases| - s.totals.skipped <= 0 { return Some(SuiteEmpty); }
    if !(command.requiredFiles <= s.files) { return Some(RequiredFileMissing); }
    code := None;
  }
}
