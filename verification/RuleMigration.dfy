/** The migration that groups legacy rules and rewrites their payloads, and its
    downgrade. */
module RuleMigration {
  import opened Decimals
  import opened Options
  import opened RulePayload
  import opened RuleGroups

  // ------------------------------------------------------------------ group keys

  const DIGITS: string := "0123456789"

  function NatText(n: nat): string { Text(n, DIGITS) }

  function IntText(n: int): string {
    if n < 0 then "-" + NatText(-n) else NatText(n)
  }

  function GroupKey(row: Row): string {
    if row.planId.Some? then "legacy-plan-" + IntText(row.planId.value) else "legacy-rule-" + IntText(row.id)
  }

  lemma DigitsDistinct()
    ensures |DIGITS| == 10 && forall i, j :: 0 <= i < j < 10 ==> DIGITS[i] != DIGITS[j]
  {
  }

  lemma NoSign(n: nat)
    ensures NatText(n)[0] != '-'
  {
    TextSymbols(n, DIGITS, 0);
    assert '-' !in DIGITS;
  }

  lemma IntTextInjective(a: int, b: int)
    requires IntText(a) == IntText(b)
    ensures a == b
  {
    var s, t := IntText(a), IntText(b);
    assert s[0] == t[0];
    DigitsDistinct();
    if a < 0 && b < 0 {
      assert s[1..] == NatText(-a) && t[1..] == NatText(-b);
      TextInjective(-a, -b, DIGITS);
    } else if a >= 0 && b >= 0 {
      TextInjective(a, b, DIGITS);
    } else {
      NoSign(if a >= 0 then a else b);
    }
  }

  ghost predicate SamePlan(a: Row, b: Row) {
    a.planId.Some? && a.planId == b.planId
  }

  /** Keys collide exactly for rows of one plan, or for one and the same row. */
  lemma GroupKeyMeaning(a: Row, b: Row)
    ensures GroupKey(a) == GroupKey(b) <==>
            SamePlan(a, b) || (a.planId.None? && b.planId.None? && a.id == b.id)
  {
    var s, t := GroupKey(a), GroupKey(b);
    if s == t {
      assert s[7] == t[7];
      assert s[12..] == t[12..];
      if a.planId.Some? {
        assert s[12..] == IntText(a.planId.value) && t[12..] == IntText(b.planId.value);
        IntTextInjective(a.planId.value, b.planId.value);
      } else {
        assert s[12..] == IntText(a.id) && t[12..] == IntText(b.id);
        IntTextInjective(a.id, b.id);
      }
    }
  }

  // -------------------------------------------------------- grouping, as meant

  predicate NonTerminal(state: State) { state.Active? || state.Processing? }

  predicate Winning(state: State) { state.Triggered? || state.Failed? }

  /** How rows are keyed and converted; the grouping facts hold for any choice. */
  type Keying = Row -> string
  type Converter = Row -> Option<Conversion>

  function RowsOf(key: Keying, rows: seq<Row>, k: string): (r: seq<Row>) {
    if rows == [] then []
    else RowsOf(key, rows[..|rows| - 1], k) + (if key(rows[|rows| - 1]) == k then [rows[|rows| - 1]] else [])
  }

  /** Group keys in the order their first rows appear. */
  function KeyOrder(key: Keying, rows: seq<Row>): (keys: seq<string>) {
    if rows == [] then [] else
      var keys := KeyOrder(key, rows[..|rows| - 1]);
      var k := key(rows[|rows| - 1]);
      if k in keys then keys else keys + [k]
  }

  function Winners(rows: seq<Row>): (r: seq<Row>) {
    if rows == [] then []
    else Winners(rows[..|rows| - 1]) + (if Winning(rows[|rows| - 1].state) then [rows[|rows| - 1]] else [])
  }

  lemma {:induction false} RowsOfMembers(key: Keying, rows: seq<Row>, k: string)
    ensures forall x :: x in RowsOf(key, rows, k) <==> x in rows && key(x) == k
  {
    if rows == [] {
    } else {
      var init, last := rows[..|rows| - 1], rows[|rows| - 1];
      RowsOfMembers(key, init, k);
      assert forall x :: x in rows <==> x in init || x == last;
    }
  }

  lemma {:induction false} KeyOfRow(key: Keying, rows: seq<Row>, row: Row)
    requires row in rows
    ensures key(row) in KeyOrder(key, rows)
  {
    var init, last := rows[..|rows| - 1], rows[|rows| - 1];
    if row != last {
      assert row in init;
      KeyOfRow(key, init, row);
    }
  }

  lemma {:induction false} KeysDistinct(key: Keying, rows: seq<Row>)
    ensures forall p, q :: 0 <= p < q < |KeyOrder(key, rows)| ==> KeyOrder(key, rows)[p] != KeyOrder(key, rows)[q]
  {
    if rows == [] {
    } else {
      KeysDistinct(key, rows[..|rows| - 1]);
    }
  }

  lemma {:induction false} WinnersMembers(rows: seq<Row>)
    ensures forall x :: x in Winners(rows) <==> x in rows && Winning(x.state)
  {
    if rows == [] {
    } else {
      var init, last := rows[..|rows| - 1], rows[|rows| - 1];
      WinnersMembers(init);
      assert forall x :: x in rows <==> x in init || x == last;
    }
  }

  function Position(keys: seq<string>, key: string): (p: nat)
    requires key in keys
    ensures p < |keys| && keys[p] == key
  {
    if keys[0] == key then 0 else 1 + Position(keys[1..], key)
  }

  datatype NewGroup = NewGroup(key: string, state: State, terminalRule: Option<int>)

  function WinnerOf(rows: seq<Row>): Option<Row> {
    if Winners(rows) == [] then None else Some(Winners(rows)[0])
  }

  function GroupFor(key: string, rows: seq<Row>): NewGroup {
    var winner := WinnerOf(rows);
    if winner.Some? then NewGroup(key, winner.value.state, Some(winner.value.id))
    else if exists i :: 0 <= i < |rows| && NonTerminal(rows[i].state) then NewGroup(key, Active, None)
    else NewGroup(key, Ended, None)
  }

  datatype Migrated = Migrated(row: Row, groupId: int, payloadVersion: nat)

  function MigratedState(row: Row, winner: Option<Row>): State {
    if winner.Some? && row.id != winner.value.id && NonTerminal(row.state) then Ended else row.state
  }

  function CanonicalScalar(canonical: string -> string, scalar: Option<string>): Option<string> {
    if scalar.Some? then Some(canonical(scalar.value)) else None
  }

  function MigrateRow(convert: Converter, canonical: string -> string, row: Row, winner: Option<Row>,
                      groupId: int): Migrated
  {
    var c := convert(row);
    var kept := row.(state := MigratedState(row, winner),
                     preApproved := if NonTerminal(row.state) then false else row.preApproved);
    if c.None? then
      Migrated(kept, groupId, 0)
    else
      Migrated(kept.(ticker := c.value.ticker,
                     fraction := CanonicalScalar(canonical, row.fraction),
                     highWaterMark := CanonicalScalar(canonical, row.highWaterMark),
                     condition := Some(c.value.condition), action := Some(c.value.action)), groupId, 1)
  }

  /** Every resumable row converts. */
  predicate AllConvert(convert: Converter, rows: seq<Row>) {
    forall i :: 0 <= i < |rows| && NonTerminal(rows[i].state) ==> convert(rows[i]).Some?
  }

  predicate OneWinnerEach(key: Keying, rows: seq<Row>) {
    forall p {:trigger OneWinnerAt(key, rows, p)} :: 0 <= p < |KeyOrder(key, rows)| ==> OneWinnerAt(key, rows, p)
  }

  predicate OneWinnerAt(key: Keying, rows: seq<Row>, p: nat)
    requires p < |KeyOrder(key, rows)|
  {
    |Winners(RowsOf(key, rows, KeyOrder(key, rows)[p]))| <= 1
  }

  function GroupIdOf(key: Keying, rows: seq<Row>, row: Row): int
    requires row in rows
  {
    KeyOfRow(key, rows, row);
    Position(KeyOrder(key, rows), key(row)) + 1
  }

  function NewGroups(key: Keying, rows: seq<Row>): (r: seq<NewGroup>)
    ensures |r| == |KeyOrder(key, rows)|
    ensures forall p :: 0 <= p < |r| ==>
              r[p] == GroupFor(KeyOrder(key, rows)[p], RowsOf(key, rows, KeyOrder(key, rows)[p]))
  {
    seq(|KeyOrder(key, rows)|, p requires 0 <= p < |KeyOrder(key, rows)| =>
      GroupFor(KeyOrder(key, rows)[p], RowsOf(key, rows, KeyOrder(key, rows)[p])))
  }

  function MigratedRows(convert: Converter, key: Keying, canonical: string -> string,
                        rows: seq<Row>): (r: seq<Migrated>)
    ensures |r| == |rows|
    ensures forall i :: 0 <= i < |r| ==> r[i] == MigratedRow(convert, key, canonical, rows, i)
  {
    seq(|rows|, i requires 0 <= i < |rows| => MigratedRow(convert, key, canonical, rows, i))
  }

  /** A row, with the winner and the id of its group. */
  function MigratedRow(convert: Converter, key: Keying, canonical: string -> string, rows: seq<Row>, i: nat): Migrated
    requires i < |rows|
  {
    MigrateRow(convert, canonical, rows[i], WinnerOf(RowsOf(key, rows, key(rows[i]))), GroupIdOf(key, rows, rows[i]))
  }

  ghost predicate DistinctIds(rows: seq<Row>) {
    forall i, j :: 0 <= i < j < |rows| ==> rows[i].id != rows[j].id
  }

  // ----------------------------------------------------------- the migration runs

  method Validate(convert: Converter, rows: seq<Row>) returns (ok: bool)
    ensures ok == AllConvert(convert, rows)
  {
    for i := 0 to |rows|
      invariant forall j :: 0 <= j < i && NonTerminal(rows[j].state) ==> convert(rows[j]).Some?
    {
      if convert(rows[i]).None? && NonTerminal(rows[i].state) { return false; }
    }
    ok := true;
  }

  ghost predicate GroupedBy(key: Keying, rows: seq<Row>, keys: seq<string>, grouped: map<string, seq<Row>>) {
    && keys == KeyOrder(key, rows)
    && (forall k :: k in grouped <==> k in keys)
    && (forall k :: k in grouped ==> grouped[k] == RowsOf(key, rows, k))
  }

  /** `grouped.setdefault(key, []).append(row)` over all rows, in order. */
  method GroupRows(key: Keying, rows: seq<Row>) returns (keys: seq<string>, grouped: map<string, seq<Row>>)
    ensures GroupedBy(key, rows, keys, grouped)
  {
    keys, grouped := [], map[];
    for i := 0 to |rows|
      invariant GroupedBy(key, rows[..i], keys, grouped)
    {
      var row, k := rows[i], key(rows[i]);
      GroupStep(key, rows[..i], row, keys, grouped);
      assert rows[..i] + [row] == rows[..i + 1];
      if k !in grouped {
        keys := keys + [k];
        grouped := grouped[k := []];
      }
      grouped := grouped[k := grouped[k] + [row]];
    }
    assert rows[..|rows|] == rows;
  }

  lemma GroupStep(key: Keying, rows: seq<Row>, row: Row, keys: seq<string>, grouped: map<string, seq<Row>>)
    requires GroupedBy(key, rows, keys, grouped)
    ensures var n := key(row);
            if n in grouped then GroupedBy(key, rows + [row], keys, grouped[n := grouped[n] + [row]])
            else GroupedBy(key, rows + [row], keys + [n], grouped[n := []][n := [] + [row]])
  {
    var all, n := rows + [row], key(row);
    assert all[..|all| - 1] == rows;
    if n !in grouped { RowsOfAbsent(key, rows, n); }
    var grouped' := if n in grouped then grouped[n := grouped[n] + [row]] else grouped[n := [] + [row]];
    forall k | k in grouped' ensures grouped'[k] == RowsOf(key, all, k) {
      assert RowsOf(key, all, k) == RowsOf(key, rows, k) + (if n == k then [row] else []);
    }
  }

  lemma {:induction false} RowsOfAbsent(key: Keying, rows: seq<Row>, k: string)
    requires k !in KeyOrder(key, rows)
    ensures RowsOf(key, rows, k) == []
  {
    if rows == [] {
    } else {
      RowsOfAbsent(key, rows[..|rows| - 1], k);
    }
  }

  method PickWinners(keys: seq<string>, grouped: map<string, seq<Row>>)
    returns (r: Option<map<string, Option<Row>>>)
    requires forall p :: 0 <= p < |keys| ==> keys[p] in grouped
    ensures r.Some? <==> forall p :: 0 <= p < |keys| ==> |Winners(grouped[keys[p]])| <= 1
    ensures r.Some? ==> forall k :: k in keys ==> k in r.value && r.value[k] == WinnerOf(grouped[k])
  {
    var winners: map<string, Option<Row>> := map[];
    for p := 0 to |keys|
      invariant forall q :: 0 <= q < p ==> |Winners(grouped[keys[q]])| <= 1
      invariant forall k :: k in keys[..p] ==> k in winners && winners[k] == WinnerOf(grouped[k])
    {
      var found := Winners(grouped[keys[p]]);
      if |found| > 1 { return None; }
      winners := winners[keys[p] := if found == [] then None else Some(found[0])];
    }
    assert keys[..|keys|] == keys;
    r := Some(winners);
  }

  /** Rows of different groups have different ids. */
  ghost predicate Apart(keys: seq<string>, grouped: map<string, seq<Row>>) {
    forall p, q, a, b :: 0 <= p < q < |keys| && InGroup(keys, grouped, p, a) && InGroup(keys, grouped, q, b) ==>
      a.id != b.id
  }

  ghost predicate InGroup(keys: seq<string>, grouped: map<string, seq<Row>>, p: nat, row: Row)
    requires p < |keys|
  {
    keys[p] in grouped && row in grouped[keys[p]]
  }

  ghost predicate Placed(keys: seq<string>, grouped: map<string, seq<Row>>, ruleToGroup: map<int, int>) {
    forall p, row :: 0 <= p < |keys| && keys[p] in grouped && row in grouped[keys[p]] ==>
      row.id in ruleToGroup && ruleToGroup[row.id] == p + 1
  }

  /** Inserts one group per key; a new group's id is its position from one. */
  method InsertGroups(keys: seq<string>, grouped: map<string, seq<Row>>, winners: map<string, Option<Row>>)
    returns (groups: seq<NewGroup>, ruleToGroup: map<int, int>)
    requires forall p :: 0 <= p < |keys| ==>
               keys[p] in grouped && keys[p] in winners && winners[keys[p]] == WinnerOf(grouped[keys[p]])
    requires Apart(keys, grouped)
    ensures |groups| == |keys|
    ensures forall p :: 0 <= p < |keys| ==> groups[p] == GroupFor(keys[p], grouped[keys[p]])
    ensures Placed(keys, grouped, ruleToGroup)
  {
    groups, ruleToGroup := [], map[];
    for p := 0 to |keys|
      invariant |groups| == p
      invariant forall q :: 0 <= q < p ==> groups[q] == GroupFor(keys[q], grouped[keys[q]])
      invariant PlacedUpTo(keys, grouped, p, ruleToGroup)
    {
      var key := keys[p];
      var members, winner := grouped[key], winners[key];
      var group :=
        if winner.Some? then NewGroup(key, winner.value.state, Some(winner.value.id))
        else if exists i :: 0 <= i < |members| && NonTerminal(members[i].state) then NewGroup(key, Active, None)
        else NewGroup(key, Ended, None);
      groups := groups + [group];
      var linked := LinkRows(ruleToGroup, members, p + 1);
      LinkedStay(keys, grouped, p, ruleToGroup, linked);
      ruleToGroup := linked;
    }
    forall p, row | 0 <= p < |keys| && keys[p] in grouped && row in grouped[keys[p]]
      ensures row.id in ruleToGroup && ruleToGroup[row.id] == p + 1
    {
      assert InGroup(keys, grouped, p, row);
    }
  }

  /** Rows of the first `p` groups are linked to them. */
  ghost predicate PlacedUpTo(keys: seq<string>, grouped: map<string, seq<Row>>, p: nat, ruleToGroup: map<int, int>)
    requires p <= |keys|
  {
    forall q, row {:trigger InGroup(keys, grouped, q, row)} :: 0 <= q < p && InGroup(keys, grouped, q, row) ==>
      row.id in ruleToGroup && ruleToGroup[row.id] == q + 1
  }

  /** Linking the next group moves no row of an earlier one. */
  lemma LinkedStay(keys: seq<string>, grouped: map<string, seq<Row>>, p: nat, before: map<int, int>,
                   after: map<int, int>)
    requires p < |keys| && keys[p] in grouped && Apart(keys, grouped) && PlacedUpTo(keys, grouped, p, before)
    requires forall row :: row in grouped[keys[p]] ==> row.id in after && after[row.id] == p + 1
    requires forall id :: id in before && (forall row :: row in grouped[keys[p]] ==> row.id != id) ==>
               id in after && after[id] == before[id]
    ensures PlacedUpTo(keys, grouped, p + 1, after)
  {
    forall q, row | 0 <= q < p + 1 && InGroup(keys, grouped, q, row)
      ensures row.id in after && after[row.id] == q + 1
    {
      if q < p {
        forall other | other in grouped[keys[p]] ensures other.id != row.id {
          assert InGroup(keys, grouped, p, other);
        }
      }
    }
  }

  method LinkRows(ruleToGroup: map<int, int>, members: seq<Row>, groupId: int) returns (r: map<int, int>)
    ensures forall row :: row in members ==> row.id in r && r[row.id] == groupId
    ensures forall id :: id in ruleToGroup && (forall row :: row in members ==> row.id != id) ==>
              id in r && r[id] == ruleToGroup[id]
  {
    r := ruleToGroup;
    for i := 0 to |members|
      invariant forall j :: 0 <= j < i ==> members[j].id in r && r[members[j].id] == groupId
      invariant forall id :: id in ruleToGroup && (forall row :: row in members ==> row.id != id) ==>
                  id in r && r[id] == ruleToGroup[id]
    {
      assert members[i] in members;
      r := r[members[i].id := groupId];
    }
  }

  /** The winner and the group id found for a row are its own. */
  ghost predicate Linked(key: Keying, rows: seq<Row>, row: Row, winners: map<string, Option<Row>>,
                         ruleToGroup: map<int, int>)
  {
    && row in rows
    && key(row) in winners && winners[key(row)] == WinnerOf(RowsOf(key, rows, key(row)))
    && row.id in ruleToGroup && ruleToGroup[row.id] == GroupIdOf(key, rows, row)
  }

  method UpdateRows(convert: Converter, key: Keying, canonical: string -> string, rows: seq<Row>,
                    winners: map<string, Option<Row>>, ruleToGroup: map<int, int>)
    returns (migrated: seq<Migrated>)
    requires forall i :: 0 <= i < |rows| ==> Linked(key, rows, rows[i], winners, ruleToGroup)
    ensures migrated == MigratedRows(convert, key, canonical, rows)
  {
    migrated := [];
    ghost var all := MigratedRows(convert, key, canonical, rows);
    for i := 0 to |rows|
      invariant |migrated| == i && forall j :: 0 <= j < i ==> migrated[j] == all[j]
    {
      var row := rows[i];
      assert Linked(key, rows, row, winners, ruleToGroup);
      migrated := migrated + [MigrateRow(convert, canonical, row, winners[key(row)], ruleToGroup[row.id])];
    }
  }

  method SettleWinners(key: Keying, rows: seq<Row>) returns (r: Option<map<string, Option<Row>>>)
    ensures r.Some? <==> OneWinnerEach(key, rows)
    ensures r.Some? ==> WinnersKnown(key, rows, r.value)
  {
    var keys, grouped := GroupRows(key, rows);
    r := PickWinners(keys, grouped);
    if r.Some? {
      forall p | 0 <= p < |KeyOrder(key, rows)| ensures OneWinnerAt(key, rows, p) { assert keys[p] in grouped; }
    } else {
      ghost var p :| 0 <= p < |keys| && |Winners(grouped[keys[p]])| > 1;
      assert !OneWinnerAt(key, rows, p);
    }
  }

  ghost predicate WinnersKnown(key: Keying, rows: seq<Row>, winners: map<string, Option<Row>>) {
    forall k :: k in KeyOrder(key, rows) ==> k in winners && winners[k] == WinnerOf(RowsOf(key, rows, k))
  }

  method PlaceRows(key: Keying, rows: seq<Row>, winners: map<string, Option<Row>>)
    returns (groups: seq<NewGroup>, ruleToGroup: map<int, int>)
    requires DistinctIds(rows) && WinnersKnown(key, rows, winners)
    ensures groups == NewGroups(key, rows)
    ensures forall i :: 0 <= i < |rows| ==> Linked(key, rows, rows[i], winners, ruleToGroup)
  {
    var keys, grouped := GroupRows(key, rows);
    GroupsApart(key, rows, keys, grouped);
    groups, ruleToGroup := InsertGroups(keys, grouped, winners);
    AllLinked(key, rows, keys, grouped, winners, ruleToGroup);
  }

  lemma AllLinked(key: Keying, rows: seq<Row>, keys: seq<string>, grouped: map<string, seq<Row>>,
                  winners: map<string, Option<Row>>, ruleToGroup: map<int, int>)
    requires GroupedBy(key, rows, keys, grouped) && WinnersKnown(key, rows, winners)
    requires Placed(keys, grouped, ruleToGroup)
    ensures forall i :: 0 <= i < |rows| ==> Linked(key, rows, rows[i], winners, ruleToGroup)
  {
    forall i | 0 <= i < |rows| ensures Linked(key, rows, rows[i], winners, ruleToGroup) {
      KnownKey(key, rows, rows[i]);
      var p := Position(keys, key(rows[i]));
      assert rows[i] in grouped[keys[p]];
    }
  }

  class RuleStore {
    var rows: seq<Row>
    var migrated: seq<Migrated>
    var groups: seq<NewGroup>

    constructor (rows: seq<Row>)
      ensures this.rows == rows && migrated == [] && groups == []
    {
      this.rows, migrated, groups := rows, [], [];
    }

    /** Everything that can fail happens before the first write. */
    method Upgrade(convert: Converter, key: Keying, canonical: string -> string) returns (error: Option<string>)
      requires DistinctIds(rows)
      modifies `migrated, `groups
      ensures error.None? <==> AllConvert(convert, rows) && OneWinnerEach(key, rows)
      ensures error.Some? ==> migrated == old(migrated) && groups == old(groups)
      ensures error.None? ==> migrated == MigratedRows(convert, key, canonical, rows) && groups == NewGroups(key, rows)
    {
      var ok := Validate(convert, rows);
      if !ok { return Some("unknown active rule: migration aborted"); }
      var winners := SettleWinners(key, rows);
      if winners.None? { return Some("rule group has multiple terminal winners"); }
      var newGroups, ruleToGroup := PlaceRows(key, rows, winners.value);
      groups := newGroups;
      var updated := UpdateRows(convert, key, canonical, rows, winners.value, ruleToGroup);
      migrated := updated;
      error := None;
    }

    /** Rewrites typed payloads back to their legacy shapes. */
    method Downgrade()
      modifies `migrated
      ensures |migrated| == |old(migrated)|
      ensures forall i :: 0 <= i < |migrated| ==> migrated[i] == Reverted(old(migrated)[i])
    {
      ghost var before := migrated;
      for i := 0 to |migrated|
        invariant |migrated| == |before|
        invariant forall j :: 0 <= j < |before| ==> migrated[j] == if j < i then Reverted(before[j]) else before[j]
      {
        var m := migrated[i];
        if m.payloadVersion == 1 && m.row.condition.Some? && m.row.action.Some? {
          var legacy := RevertCondition(m.row.condition.value);
          if legacy.Some? {
            var row := m.row.(condition := legacy, action := Some(RevertAction(m.row.action.value)));
            migrated := migrated[i := m.(row := row)];
          }
        }
      }
    }
  }

  function Reverted(m: Migrated): (r: Migrated) {
    if m.payloadVersion != 1 || m.row.condition.None? || m.row.action.None? then m else
      var legacy := RevertCondition(m.row.condition.value);
      if legacy.None? then m
      else m.(row := m.row.(condition := legacy, action := Some(RevertAction(m.row.action.value))))
  }

  lemma KnownKey(key: Keying, rows: seq<Row>, row: Row)
    requires row in rows
    ensures key(row) in KeyOrder(key, rows)
    ensures row in RowsOf(key, rows, key(row))
  {
    KeyOfRow(key, rows, row);
    RowsOfMembers(key, rows, key(row));
  }

  lemma GroupsApart(key: Keying, rows: seq<Row>, keys: seq<string>, grouped: map<string, seq<Row>>)
    requires DistinctIds(rows) && GroupedBy(key, rows, keys, grouped)
    ensures Apart(keys, grouped)
  {
    KeysDistinct(key, rows);
    forall p, q, a, b | 0 <= p < q < |keys| && InGroup(keys, grouped, p, a) && InGroup(keys, grouped, q, b)
      ensures a.id != b.id
    {
      RowsOfMembers(key, rows, keys[p]);
      RowsOfMembers(key, rows, keys[q]);
      assert a in rows && b in rows && a != b;
    }
  }
}
