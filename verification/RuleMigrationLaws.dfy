/** What the migrated tables mean: which rules share a group, when groups and
    rules agree, and what the downgrade gives back. */
module RuleMigrationLaws {
  import opened Options
  import opened RuleGroups
  import opened RulePayload
  import opened RuleMigration

  // --------------------------------------------------------------- shared groups

  /** Two rules share a group exactly when they are one row or name one plan. */
  lemma SharedGroupMeaning(convert: Converter, canonical: string -> string, rows: seq<Row>, i: nat, j: nat)
    requires DistinctIds(rows) && i < |rows| && j < |rows|
    ensures var m := MigratedRows(convert, GroupKey, canonical, rows);
            m[i].groupId == m[j].groupId <==> i == j || SamePlan(rows[i], rows[j])
  {
    GroupKeyMeaning(rows[i], rows[j]);
    SameIdSameKey(GroupKey, rows, rows[i], rows[j]);
    if i < j { assert rows[i].id != rows[j].id; }
    if j < i { assert rows[j].id != rows[i].id; }
  }

  lemma SameIdSameKey(key: Keying, rows: seq<Row>, a: Row, b: Row)
    requires a in rows && b in rows
    ensures GroupIdOf(key, rows, a) == GroupIdOf(key, rows, b) <==> key(a) == key(b)
  {
    KeyOfRow(key, rows, a);
    KeyOfRow(key, rows, b);
  }

  /** The group id of a row with the `p`-th key. */
  lemma GroupIdAt(key: Keying, rows: seq<Row>, row: Row, p: nat)
    requires row in rows && p < |KeyOrder(key, rows)|
    ensures GroupIdOf(key, rows, row) == p + 1 <==> key(row) == KeyOrder(key, rows)[p]
  {
    KeyOfRow(key, rows, row);
    KeysDistinct(key, rows);
  }

  // --------------------------------------------------------- groups and rules agree

  /** The running service's tables hold exactly the migrated rows and groups. */
  ghost predicate HoldMigrated(t: Tables, migrated: seq<Migrated>, groups: seq<NewGroup>) {
    && (forall i {:trigger HoldsRow(t, migrated, i)} :: 0 <= i < |migrated| ==> HoldsRow(t, migrated, i))
    && (forall r {:trigger IsMigrated(migrated, r)} :: r in t.rules ==> IsMigrated(migrated, r))
    && (forall g :: g in t.groups <==> 1 <= g <= |groups|)
    && (forall p {:trigger HoldsGroup(t, groups, p)} :: 0 <= p < |groups| ==> HoldsGroup(t, groups, p))
  }

  ghost predicate HoldsRow(t: Tables, migrated: seq<Migrated>, i: nat)
    requires i < |migrated|
  {
    var m := migrated[i];
    m.row.id in t.rules && t.rules[m.row.id] == Rule(m.row.planId, m.groupId, m.row.state)
  }

  ghost predicate IsMigrated(migrated: seq<Migrated>, id: int) {
    exists i :: 0 <= i < |migrated| && migrated[i].row.id == id
  }

  /** Group ids count from one. */
  ghost predicate HoldsGroup(t: Tables, groups: seq<NewGroup>, p: nat)
    requires p < |groups|
  {
    p + 1 in t.groups && t.groups[p + 1].key == groups[p].key && t.groups[p + 1].state == groups[p].state &&
    t.groups[p + 1].terminalRule == groups[p].terminalRule
  }

  ghost predicate SomeNonTerminal(rows: seq<Row>) {
    exists i :: 0 <= i < |rows| && NonTerminal(rows[i].state)
  }

  /** A pending row whose group will not be opened. */
  ghost predicate Stranded(key: Keying, rows: seq<Row>, row: Row) {
    && row.state.Pending?
    && var members := RowsOf(key, rows, key(row));
       WinnerOf(members).Some? || !SomeNonTerminal(members)
  }

  ghost predicate StrandedUnder(key: Keying, rows: seq<Row>, k: string) {
    exists x :: x in rows && key(x) == k && Stranded(key, rows, x)
  }

  ghost predicate NoneStranded(key: Keying, rows: seq<Row>) {
    forall i :: 0 <= i < |rows| ==> !Stranded(key, rows, rows[i])
  }

  lemma WinnerFacts(rows: seq<Row>)
    ensures var w := WinnerOf(rows);
            && (w.Some? ==> w.value in rows && Winning(w.value.state))
            && (w.None? ==> forall x :: x in rows ==> !Winning(x.state))
  {
    WinnersMembers(rows);
    if Winners(rows) != [] { assert Winners(rows)[0] in Winners(rows); }
  }

  /** After migration a row can still run only if it could before, and a winner
      in its group leaves only pending rows runnable. */
  lemma RunnableAfter(key: Keying, rows: seq<Row>, row: Row)
    requires DistinctIds(rows) && row in rows
    ensures var winner := WinnerOf(RowsOf(key, rows, key(row)));
            ResumableRule(MigratedState(row, winner)) <==>
            row.state.Pending? || (NonTerminal(row.state) && winner.None?)
  {
    var members := RowsOf(key, rows, key(row));
    var winner := WinnerOf(members);
    WinnerFacts(members);
    RowsOfMembers(key, rows, key(row));
    if winner.Some? && row.id == winner.value.id {
      assert winner.value in rows && row == winner.value;
    }
  }

  lemma OpenGroupMeaning(k: string, members: seq<Row>)
    ensures ResumableGroup(GroupFor(k, members).state) <==> WinnerOf(members).None? && SomeNonTerminal(members)
  {
    WinnerFacts(members);
  }

  /** Tables that show the migration of `rows`: each row in its group with its
      migrated state, each group with the state of its rows. */
  ghost predicate Shows(t: Tables, key: Keying, rows: seq<Row>) {
    && (forall x {:trigger ShowsRow(t, key, rows, x)} :: x in rows ==> ShowsRow(t, key, rows, x))
    && (forall r {:trigger HasRow(rows, r)} :: r in t.rules ==> HasRow(rows, r))
    && (forall g :: g in t.groups <==> 1 <= g <= |KeyOrder(key, rows)|)
    && (forall p {:trigger ShowsGroup(t, key, rows, p)} ::
          0 <= p < |KeyOrder(key, rows)| ==> ShowsGroup(t, key, rows, p))
  }

  ghost predicate HasRow(rows: seq<Row>, id: int) {
    exists x :: x in rows && x.id == id
  }

  ghost predicate ShowsRow(t: Tables, key: Keying, rows: seq<Row>, row: Row) {
    && row in rows && row.id in t.rules
    && t.rules[row.id].groupId == GroupIdOf(key, rows, row)
    && t.rules[row.id].state == MigratedState(row, WinnerOf(RowsOf(key, rows, key(row))))
  }

  ghost predicate ShowsGroup(t: Tables, key: Keying, rows: seq<Row>, p: nat)
    requires p < |KeyOrder(key, rows)|
  {
    var k := KeyOrder(key, rows)[p];
    p + 1 in t.groups && t.groups[p + 1].state == GroupFor(k, RowsOf(key, rows, k)).state
  }

  lemma HeldIsShown(t: Tables, convert: Converter, key: Keying, canonical: string -> string, rows: seq<Row>)
    requires HoldMigrated(t, MigratedRows(convert, key, canonical, rows), NewGroups(key, rows))
    ensures Shows(t, key, rows)
  {
    forall x | x in rows ensures ShowsRow(t, key, rows, x) {
      var i :| 0 <= i < |rows| && rows[i] == x;
      HeldRowIsShown(t, convert, key, canonical, rows, i);
    }
    forall r | r in t.rules ensures HasRow(rows, r) { HeldRuleIsLegacy(t, convert, key, canonical, rows, r); }
    forall p | 0 <= p < |KeyOrder(key, rows)| ensures ShowsGroup(t, key, rows, p) {
      assert HoldsGroup(t, NewGroups(key, rows), p);
    }
  }

  lemma MigratedAt(convert: Converter, key: Keying, canonical: string -> string, rows: seq<Row>, i: nat)
    requires i < |rows|
    ensures var m := MigratedRows(convert, key, canonical, rows)[i];
            && m.row.id == rows[i].id && m.groupId == GroupIdOf(key, rows, rows[i])
            && m.row.state == MigratedState(rows[i], WinnerOf(RowsOf(key, rows, key(rows[i]))))
  {
  }

  lemma HeldRowIsShown(t: Tables, convert: Converter, key: Keying, canonical: string -> string, rows: seq<Row>, i: nat)
    requires i < |rows|
    requires HoldMigrated(t, MigratedRows(convert, key, canonical, rows), NewGroups(key, rows))
    ensures ShowsRow(t, key, rows, rows[i])
  {
    MigratedAt(convert, key, canonical, rows, i);
    assert HoldsRow(t, MigratedRows(convert, key, canonical, rows), i);
  }

  lemma HeldRuleIsLegacy(t: Tables, convert: Converter, key: Keying, canonical: string -> string, rows: seq<Row>,
                         r: int)
    requires r in t.rules
    requires HoldMigrated(t, MigratedRows(convert, key, canonical, rows), NewGroups(key, rows))
    ensures HasRow(rows, r)
  {
    var m := MigratedRows(convert, key, canonical, rows);
    assert IsMigrated(m, r);
    var i :| 0 <= i < |m| && m[i].row.id == r;
    MigratedAt(convert, key, canonical, rows, i);
    assert rows[i] in rows;
  }

  /** Some row of the group can still run after the migration. */
  ghost predicate RunnableMember(members: seq<Row>) {
    exists x :: x in members && ResumableRule(MigratedState(x, WinnerOf(members)))
  }

  /** The rules of group `p + 1` that can run, in terms of the legacy rows. */
  lemma RunnableInGroup(t: Tables, key: Keying, rows: seq<Row>, p: nat)
    requires Shows(t, key, rows) && p < |KeyOrder(key, rows)|
    ensures HasResumable(t, p + 1) <==> RunnableMember(RowsOf(key, rows, KeyOrder(key, rows)[p]))
  {
    var members := RowsOf(key, rows, KeyOrder(key, rows)[p]);
    RowsOfMembers(key, rows, KeyOrder(key, rows)[p]);
    if HasResumable(t, p + 1) {
      var r :| r in t.rules && t.rules[r].groupId == p + 1 && ResumableRule(t.rules[r].state);
      assert HasRow(rows, r);
      var x :| x in rows && x.id == r;
      ShownMember(t, key, rows, p, x);
    }
    if RunnableMember(members) {
      var x :| x in members && ResumableRule(MigratedState(x, WinnerOf(members)));
      ShownMember(t, key, rows, p, x);
      assert x.id in t.rules;
    }
  }

  lemma ShownMember(t: Tables, key: Keying, rows: seq<Row>, p: nat, x: Row)
    requires Shows(t, key, rows) && p < |KeyOrder(key, rows)| && x in rows
    ensures var members := RowsOf(key, rows, KeyOrder(key, rows)[p]);
            && x.id in t.rules
            && (t.rules[x.id].groupId == p + 1 <==> x in members)
            && (x in members ==> t.rules[x.id].state == MigratedState(x, WinnerOf(members)))
  {
    assert ShowsRow(t, key, rows, x);
    GroupIdAt(key, rows, x, p);
    RowsOfMembers(key, rows, KeyOrder(key, rows)[p]);
  }

  lemma GroupAgreesIff(t: Tables, key: Keying, rows: seq<Row>, p: nat)
    requires DistinctIds(rows) && Shows(t, key, rows) && p < |KeyOrder(key, rows)|
    ensures p + 1 in t.groups
    ensures (ResumableGroup(t.groups[p + 1].state) <==> HasResumable(t, p + 1)) <==>
            !StrandedUnder(key, rows, KeyOrder(key, rows)[p])
  {
    var k := KeyOrder(key, rows)[p];
    var members := RowsOf(key, rows, k);
    assert ShowsGroup(t, key, rows, p);
    RunnableInGroup(t, key, rows, p);
    RowsOfMembers(key, rows, k);
    OpenGroupMeaning(k, members);
    forall x | x in members
      ensures ResumableRule(MigratedState(x, WinnerOf(members))) <==>
              x.state.Pending? || (NonTerminal(x.state) && WinnerOf(members).None?)
    {
      RunnableAfter(key, rows, x);
    }
    forall x | x in rows && key(x) == k
      ensures Stranded(key, rows, x) <==>
              x.state.Pending? && (WinnerOf(members).Some? || !SomeNonTerminal(members))
    {
      assert RowsOf(key, rows, key(x)) == members;
    }
    if WinnerOf(members).None? && SomeNonTerminal(members) {
      var i :| 0 <= i < |members| && NonTerminal(members[i].state);
      assert members[i] in members && ResumableRule(MigratedState(members[i], WinnerOf(members)));
    } else {
      forall x | x in members ensures ResumableRule(MigratedState(x, WinnerOf(members))) <==> x.state.Pending? {
        if WinnerOf(members).None? {
          var i :| 0 <= i < |members| && members[i] == x;
          assert !NonTerminal(members[i].state);
        }
      }
      if HasResumable(t, p + 1) {
        assert RunnableMember(members);
        var x :| x in members && ResumableRule(MigratedState(x, WinnerOf(members)));
        assert x in rows && key(x) == k && Stranded(key, rows, x);
      }
      if StrandedUnder(key, rows, k) {
        var x :| x in rows && key(x) == k && Stranded(key, rows, x);
        assert x in members && ResumableRule(MigratedState(x, WinnerOf(members)));
      }
    }
  }

  /** The upgrade leaves groups and rules in agreement exactly when no pending
      legacy row sits in a group with a winner or without an active row. */
  lemma UpgradeAgreesIff(t: Tables, convert: Converter, key: Keying, canonical: string -> string, rows: seq<Row>)
    requires DistinctIds(rows)
    requires HoldMigrated(t, MigratedRows(convert, key, canonical, rows), NewGroups(key, rows))
    ensures GroupsAgree(t) <==> NoneStranded(key, rows)
  {
    HeldIsShown(t, convert, key, canonical, rows);
    ShownAgreesIff(t, key, rows);
  }

  lemma ShownAgreesIff(t: Tables, key: Keying, rows: seq<Row>)
    requires DistinctIds(rows) && Shows(t, key, rows)
    ensures GroupsAgree(t) <==> NoneStranded(key, rows)
  {
    if GroupsAgree(t) {
      forall i | 0 <= i < |rows| ensures !Stranded(key, rows, rows[i]) {
        KeyOfRow(key, rows, rows[i]);
        assert rows[i] in rows;
        GroupAgreesIff(t, key, rows, Position(KeyOrder(key, rows), key(rows[i])));
      }
    }
    if NoneStranded(key, rows) {
      forall g | g in t.groups ensures ResumableGroup(t.groups[g].state) <==> HasResumable(t, g) {
        GroupAgreesIff(t, key, rows, g - 1);
      }
    }
  }

  /** With the five legacy states the condition always holds. */
  lemma LegacyStatesAgree(t: Tables, convert: Converter, key: Keying, canonical: string -> string, rows: seq<Row>)
    requires DistinctIds(rows)
    requires HoldMigrated(t, MigratedRows(convert, key, canonical, rows), NewGroups(key, rows))
    requires forall i :: 0 <= i < |rows| ==> rows[i].state in {Active, Processing, Triggered, Failed, Ended}
    ensures GroupsAgree(t)
  {
    UpgradeAgreesIff(t, convert, key, canonical, rows);
  }

  /** The condition can fail: one pending legacy rule is left in a closed group. */
  lemma PendingRowStranded(t: Tables, convert: Converter, key: Keying, canonical: string -> string, row: Row)
    requires row.state.Pending?
    requires HoldMigrated(t, MigratedRows(convert, key, canonical, [row]), NewGroups(key, [row]))
    ensures !NoneStranded(key, [row]) && !GroupsAgree(t)
  {
    OneRowGroup(row, key);
    assert Stranded(key, [row], [row][0]);
    UpgradeAgreesIff(t, convert, key, canonical, [row]);
  }

  lemma OneRowGroup(row: Row, key: Keying)
    ensures RowsOf(key, [row], key(row)) == [row]
    ensures !Winning(row.state) ==> Winners([row]) == []
  {
    var none: seq<Row> := [];
    assert [row][..0] == none && RowsOf(key, none, key(row)) == [] && Winners(none) == [];
  }

  // -------------------------------------------------------------- terminal winners

  /** A group has at most one rule that ended it. */
  lemma AtMostOneWinner(convert: Converter, key: Keying, canonical: string -> string, rows: seq<Row>, i: nat, j: nat)
    requires DistinctIds(rows) && OneWinnerEach(key, rows) && i < |rows| && j < |rows|
    requires var m := MigratedRows(convert, key, canonical, rows);
             m[i].groupId == m[j].groupId && Winning(m[i].row.state) && Winning(m[j].row.state)
    ensures i == j
  {
    WinnersStay(convert, key, canonical, rows, i);
    WinnersStay(convert, key, canonical, rows, j);
    SameIdSameKey(key, rows, rows[i], rows[j]);
    OneWinner(key, rows, rows[i], rows[j]);
    if i != j { DifferentRows(rows, i, j); }
  }

  /** The group of a rule that ended it points at that rule and has its state. */
  lemma GroupPointsAtWinner(convert: Converter, key: Keying, canonical: string -> string, rows: seq<Row>, i: nat)
    requires OneWinnerEach(key, rows) && i < |rows|
    requires Winning(MigratedRow(convert, key, canonical, rows, i).row.state)
    ensures MigratedRow(convert, key, canonical, rows, i).groupId == GroupIdOf(key, rows, rows[i])
    ensures PointsAt(key, rows, GroupIdOf(key, rows, rows[i]) - 1, rows[i])
  {
    WinnersStay(convert, key, canonical, rows, i);
    LegacyWinnerGroup(key, rows, rows[i]);
  }

  /** The migration makes no winners and puts rows into the group of their key. */
  lemma WinnersStay(convert: Converter, key: Keying, canonical: string -> string, rows: seq<Row>, i: nat)
    requires i < |rows| && Winning(MigratedRow(convert, key, canonical, rows, i).row.state)
    ensures Winning(rows[i].state)
    ensures MigratedRow(convert, key, canonical, rows, i).groupId == GroupIdOf(key, rows, rows[i])
  {
  }

  lemma LegacyWinnerGroup(key: Keying, rows: seq<Row>, a: Row)
    requires OneWinnerEach(key, rows) && a in rows && Winning(a.state)
    ensures PointsAt(key, rows, GroupIdOf(key, rows, a) - 1, a)
  {
    OneWinner(key, rows, a, a);
    WinnerGroup(key, rows, a);
  }

  ghost predicate PointsAt(key: Keying, rows: seq<Row>, g: int, winner: Row) {
    && 0 <= g < |NewGroups(key, rows)|
    && NewGroups(key, rows)[g].terminalRule == Some(winner.id) && NewGroups(key, rows)[g].state == winner.state
  }

  lemma WinnerGroup(key: Keying, rows: seq<Row>, a: Row)
    requires a in rows && Winners(RowsOf(key, rows, key(a))) == [a]
    ensures PointsAt(key, rows, GroupIdOf(key, rows, a) - 1, a)
  {
    KeyOfRow(key, rows, a);
    var g := GroupIdOf(key, rows, a) - 1;
    assert KeyOrder(key, rows)[g] == key(a);
    assert WinnerOf(RowsOf(key, rows, key(a))) == Some(a);
  }

  lemma DifferentRows(rows: seq<Row>, i: nat, j: nat)
    requires DistinctIds(rows) && i < |rows| && j < |rows| && i != j
    ensures rows[i] != rows[j]
  {
    assert rows[if i < j then i else j].id != rows[if i < j then j else i].id;
  }

  lemma OneWinner(key: Keying, rows: seq<Row>, a: Row, b: Row)
    requires OneWinnerEach(key, rows) && a in rows && b in rows && key(a) == key(b)
    requires Winning(a.state) && Winning(b.state)
    ensures a == b && Winners(RowsOf(key, rows, key(a))) == [a]
  {
    KeyOfRow(key, rows, a);
    assert OneWinnerAt(key, rows, Position(KeyOrder(key, rows), key(a)));
    var members := RowsOf(key, rows, key(a));
    RowsOfMembers(key, rows, key(a));
    WinnersMembers(members);
    OnlyMember(Winners(members), a, b);
  }

  lemma OnlyMember(s: seq<Row>, a: Row, b: Row)
    requires |s| <= 1 && a in s && b in s
    ensures a == b && s[0] == a
  {
  }

  // ------------------------------------------------------------------- round trip

  /** Upgrade then downgrade, row by row: rows that were not converted are
      untouched; converted ones get their legacy condition back exactly and
      their action up to the explicit default. */
  lemma PayloadRoundTrip(rd: Readers, key: Keying, canonical: string -> string, rows: seq<Row>, i: nat)
    requires i < |rows|
    ensures var convert := r => Converted(rd, r);
            var back := Reverted(MigratedRows(convert, key, canonical, rows)[i]).row;
            var row := rows[i];
            if Converted(rd, row).None? then
              back.condition == row.condition && back.action == row.action
            else
              && (IsLegacy(rd, row) ==> back.condition == row.condition)
              && row.action.Some? && row.action.value.JObject?
              && back.action == Some(JObject(WithoutDefault(row.action.value.fields)))
  {
    var row := rows[i];
    if Converted(rd, row).Some? {
      ActionRoundTrip(rd, row.action.value.fields);
      ConditionStable(rd, row);
      if IsLegacy(rd, row) { ConditionRoundTrip(rd, row); }
    }
  }

  /** A scalar's canonical text reads as the same decimal. */
  ghost predicate SameReading(rd: Readers, canonical: string -> string, scalar: Option<string>) {
    scalar.Some? ==> rd.decimal(JString(canonical(scalar.value))) == rd.decimal(JString(scalar.value))
  }

  /** Upgrading again the row that upgrade and downgrade left converts it to the
      same typed payload exactly when its normalised ticker is read as it is and
      it is not a stored deadline that the deadline column does not repeat. */
  lemma PayloadStable(rd: Readers, key: Keying, canonical: string -> string, rows: seq<Row>, i: nat)
    requires i < |rows| && Converted(rd, rows[i]).Some?
    requires SameReading(rd, canonical, rows[i].fraction) && SameReading(rd, canonical, rows[i].highWaterMark)
    ensures var convert := r => Converted(rd, r);
            var c := Converted(rd, rows[i]).value;
            var back := Reverted(MigratedRows(convert, key, canonical, rows)[i]).row;
            Converted(rd, back) == Some(c) <==>
            rd.ticker(c.ticker) == Some(c.ticker) &&
            (IsTypedTime(rd, rows[i]) ==> DeadlineMatchesColumn(rows[i], c.condition))
  {
    var row, c := rows[i], Converted(rd, rows[i]).value;
    var convert := r => Converted(rd, r);
    var back := Reverted(MigratedRows(convert, key, canonical, rows)[i]).row;
    ActionStable(rd, row.action.value.fields);
    ConditionStable(rd, row);
    RevertedFields(convert, canonical, row, WinnerOf(RowsOf(key, rows, key(row))), GroupIdOf(key, rows, row), c);
    ConditionIgnoresAction(rd, row.(condition := RevertCondition(c.condition)), back);
    ConvertedAgain(rd, canonical, row, back, c);
  }

  /** The ticker part of that condition, for the reader of the migration: the
      normalised ticker is read as it is exactly when it is not too long. */
  lemma TickerStableIff(rd: Readers, trim: string -> string, upper: string -> string, ticker: string)
    requires ReadsTickers(rd, trim, upper) && rd.ticker(ticker).Some?
    requires var n := rd.ticker(ticker).value; upper(trim(n)) == n
    ensures var n := rd.ticker(ticker).value; rd.ticker(n) == Some(n) <==> |n| <= MAX_TICKER
  {
    var n := rd.ticker(ticker).value;
    assert rd.ticker(ticker) == NormalizedTicker(trim, upper, ticker);
    assert rd.ticker(n) == NormalizedTicker(trim, upper, n);
  }

  /** The length is checked before upper-casing and not after it, so the condition
      can fail: sixteen characters that end in a sharp s grow to seventeen. The
      row left by upgrade and downgrade does not convert, and while its rule can
      run the next upgrade aborts. */
  lemma LongTickerLost(rd: Readers, trim: string -> string, upper: string -> string, key: Keying,
                       canonical: string -> string, row: Row)
    requires ReadsTickers(rd, trim, upper) && NonTerminal(row.state) && Converted(rd, row).Some?
    requires row.ticker == "ABCDEFGHIJKLMNO\U{00DF}" && trim(row.ticker) == row.ticker
    requires upper(row.ticker) == "ABCDEFGHIJKLMNOSS"
    ensures var convert := r => Converted(rd, r);
            var back := Reverted(MigratedRows(convert, key, canonical, [row])[0]).row;
            && back.ticker == "ABCDEFGHIJKLMNOSS" && Converted(rd, back).None?
            && !AllConvert(convert, [back])
  {
    var convert := r => Converted(rd, r);
    var c := Converted(rd, row).value;
    var back := Reverted(MigratedRows(convert, key, canonical, [row])[0]).row;
    assert rd.ticker(row.ticker) == NormalizedTicker(trim, upper, row.ticker);
    ConditionStable(rd, row);
    RevertedFields(convert, canonical, row, WinnerOf(RowsOf(key, [row], key(row))), GroupIdOf(key, [row], row), c);
    assert rd.ticker(back.ticker) == NormalizedTicker(trim, upper, back.ticker) == None;
    OneRowGroup(row, key);
    assert back.state == row.state && [back][0] == back;
  }

  /** What the downgrade leaves of a converted row. */
  ghost predicate LeftBy(canonical: string -> string, row: Row, back: Row, c: Conversion) {
    && back.kind == row.kind && back.deadline == row.deadline && back.ticker == c.ticker
    && back.fraction == CanonicalScalar(canonical, row.fraction)
    && back.highWaterMark == CanonicalScalar(canonical, row.highWaterMark)
    && back.condition == RevertCondition(c.condition) && back.action == Some(RevertAction(c.action))
  }

  lemma RevertedFields(convert: Converter, canonical: string -> string, row: Row, winner: Option<Row>, g: int,
                       c: Conversion)
    requires convert(row) == Some(c) && RevertCondition(c.condition).Some?
    ensures LeftBy(canonical, row, Reverted(MigrateRow(convert, canonical, row, winner, g)).row, c)
  {
  }

  lemma ConvertedAgain(rd: Readers, canonical: string -> string, row: Row, back: Row, c: Conversion)
    requires SameReading(rd, canonical, row.fraction) && SameReading(rd, canonical, row.highWaterMark)
    requires Converted(rd, row) == Some(c) && LeftBy(canonical, row, back, c)
    requires ConvertAction(rd, back.action) == Some(c.action)
    ensures Converted(rd, back) == Some(c) <==>
            rd.ticker(c.ticker) == Some(c.ticker) && ConvertCondition(rd, back) == Some(c.condition)
  {
  }

  lemma ConditionIgnoresAction(rd: Readers, a: Row, b: Row)
    requires a.condition == b.condition && a.kind == b.kind && a.deadline == b.deadline
    ensures ConvertCondition(rd, a) == ConvertCondition(rd, b)
  {
  }
}
