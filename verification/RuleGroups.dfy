/** Rules and the groups that lease them: the link between a group's state and
    the states of its rules, and the cancellation of one stand-alone rule. */
module RuleGroups {
  import opened Options

  /** The stored state words of rules and of groups; `Ended` is "canceled". */
  datatype State = Pending | Active | Processing | Triggered | Failed | Ended | Other(text: string)

  datatype Rule = Rule(planId: Option<int>, groupId: int, state: State)

  datatype Group = Group(key: string, state: State, terminalRule: Option<int>, leaseOwner: Option<string>,
                         leaseExpires: Option<int>, version: int)

  datatype Tables = Tables(rules: map<int, Rule>, groups: map<int, Group>)

  predicate ResumableRule(state: State) { state.Pending? || state.Active? || state.Processing? }

  predicate ResumableGroup(state: State) { state.Pending? || state.Active? }

  predicate HasResumable(t: Tables, g: int) {
    exists r :: r in t.rules && t.rules[r].groupId == g && ResumableRule(t.rules[r].state)
  }

  /** A group is open exactly as long as one of its rules can still run. */
  predicate GroupsAgree(t: Tables) {
    forall g :: g in t.groups ==> (ResumableGroup(t.groups[g].state) <==> HasResumable(t, g))
  }

  // ------------------------------------------------------------ one cancellation

  /** Another rule of the same group that can still run. */
  ghost predicate HasResumableSibling(t: Tables, ruleId: int)
    requires ruleId in t.rules
  {
    exists r :: r in t.rules && r != ruleId && t.rules[r].groupId == t.rules[ruleId].groupId &&
                ResumableRule(t.rules[r].state)
  }

  predicate Cancelable(t: Tables, ruleId: int) {
    && ruleId in t.rules
    && ResumableRule(t.rules[ruleId].state)
    && t.rules[ruleId].groupId in t.groups
    && ResumableGroup(t.groups[t.rules[ruleId].groupId].state)
  }

  function ClosedGroup(g: Group): Group {
    g.(state := Ended, terminalRule := None, leaseOwner := None, leaseExpires := None, version := g.version + 1)
  }

  /** The tables after the cancellation commits. */
  ghost function AfterCancel(t: Tables, ruleId: int): Tables
    requires Cancelable(t, ruleId)
  {
    var gid := t.rules[ruleId].groupId;
    Tables(t.rules[ruleId := t.rules[ruleId].(state := Ended)],
           if HasResumableSibling(t, ruleId) then t.groups else t.groups[gid := ClosedGroup(t.groups[gid])])
  }

  lemma CancelKeepsAgreement(t: Tables, ruleId: int)
    requires GroupsAgree(t) && Cancelable(t, ruleId)
    ensures GroupsAgree(AfterCancel(t, ruleId))
  {
    var after := AfterCancel(t, ruleId);
    var gid := t.rules[ruleId].groupId;
    forall g | g in after.groups ensures ResumableGroup(after.groups[g].state) <==> HasResumable(after, g) {
      if HasResumable(after, g) {
        var r :| r in after.rules && after.rules[r].groupId == g && ResumableRule(after.rules[r].state);
        assert r != ruleId && t.rules[r] == after.rules[r];
        assert HasResumable(t, g);
        if g == gid { assert HasResumableSibling(t, ruleId); }
      }
      if g == gid {
        if HasResumableSibling(t, ruleId) {
          var r :| r in t.rules && r != ruleId && t.rules[r].groupId == gid && ResumableRule(t.rules[r].state);
          assert after.rules[r] == t.rules[r];
          assert HasResumable(after, g);
          assert HasResumable(t, g);
        }
      } else if HasResumable(t, g) {
        var r :| r in t.rules && t.rules[r].groupId == g && ResumableRule(t.rules[r].state);
        assert after.rules[r] == t.rules[r];
        assert HasResumable(after, g);
      }
    }
  }

  // ------------------------------------------------------------------- the service

  datatype Audit = Audit(actor: string, action: string, target: int, key: string, result: string)

  datatype Answer =
    | Canceled
    | Refused(error: string)
    /** The idempotency key is malformed; nothing is read. */
    | InvalidKey

  predicate ValidKey(key: string) { |key| <= 64 && Trimmed(key) }

  /** The key equals its own `strip()`. */
  predicate Trimmed(key: string) {
    key == "" || (!IsSpace(key[0]) && !IsSpace(key[|key| - 1]))
  }

  predicate IsSpace(c: char) {
    var n := c as int;
    9 <= n <= 13 || 28 <= n <= 32 || n == 133 || n == 160 || n == 5760 || 8192 <= n <= 8202 ||
    n == 8232 || n == 8233 || n == 8239 || n == 8287 || n == 12288
  }

  ghost predicate AlreadySucceeded(audits: seq<Audit>, actor: string, ruleId: int, key: string) {
    Audit(actor, "rule.cancel", ruleId, key, "canceled") in audits
  }

  predicate SameMembership(t: Tables, t': Tables) {
    forall r :: r in t.rules && r in t'.rules ==> t'.rules[r].groupId == t.rules[r].groupId
  }

  /** The refusal a caller can foresee from the stored rule and group. */
  function Foreseeable(t: Tables, ruleId: int): (error: Option<string>) {
    if ruleId !in t.rules then Some("not found")
    else if t.rules[ruleId].planId.Some? then Some("plan_rule_requires_plan_cancel")
    else if !ResumableRule(t.rules[ruleId].state) then Some("rule is terminal")
    else if t.rules[ruleId].groupId !in t.groups then Some("rule group not found")
    else if !ResumableGroup(t.groups[t.rules[ruleId].groupId].state) then Some("rule group is terminal")
    else None
  }

  class RuleService {
    var tables: Tables
    var audits: seq<Audit>

    constructor (tables: Tables)
      ensures this.tables == tables && audits == []
    {
      this.tables, audits := tables, [];
    }

    /** Whatever other processes commit between the reads and the conditional
        update: anything that keeps groups and rules in agreement and moves no
        rule to another group. */
    method OtherWriters()
      requires GroupsAgree(tables)
      modifies `tables
      ensures GroupsAgree(tables) && SameMembership(old(tables), tables)
    {
      var next: Tables := *;
      if GroupsAgree(next) && SameMembership(tables, next) { tables := next; }
    }

    /** Cancels one stand-alone rule. `lostRace` stands for a group update that
        matches no row; both such cases roll back. */
    method CancelRule(ruleId: int, actor: string, key: string, lostRace: bool) returns (answer: Answer)
      requires GroupsAgree(tables)
      modifies this
      ensures GroupsAgree(tables)
      ensures answer.InvalidKey? <==> !ValidKey(key)
      ensures answer.InvalidKey? ==> tables == old(tables) && audits == old(audits)
      ensures answer.Refused? ==> audits == old(audits)
      ensures key != "" && ValidKey(key) && old(AlreadySucceeded(audits, actor, ruleId, key)) ==>
                answer == Canceled && tables == old(tables) && audits == old(audits)
      ensures ValidKey(key) && !(key != "" && old(AlreadySucceeded(audits, actor, ruleId, key))) ==>
                match old(Foreseeable(tables, ruleId))
                case Some(error) => answer == Refused(error) && tables == old(tables)
                case None => answer.Canceled? || answer.error in {"rule or group changed during cancellation",
                                                                  "rule group changed during cancellation"}
      ensures answer.Canceled? ==>
                (key != "" && tables == old(tables) && audits == old(audits) &&
                 AlreadySucceeded(audits, actor, ruleId, key)) ||
                Committed(tables, ruleId, audits, old(audits), actor, key)
    {
      if !ValidKey(key) { return InvalidKey; }
      if key != "" && Audit(actor, "rule.cancel", ruleId, key, "canceled") in audits { return Canceled; }
      if ruleId !in tables.rules { return Refused("not found"); }
      var rule := tables.rules[ruleId];
      if rule.planId.Some? { return Refused("plan_rule_requires_plan_cancel"); }
      if !ResumableRule(rule.state) { return Refused("rule is terminal"); }
      if rule.groupId !in tables.groups { return Refused("rule group not found"); }
      if !ResumableGroup(tables.groups[rule.groupId].state) { return Refused("rule group is terminal"); }
      OtherWriters();
      ghost var base := tables;
      if !Cancelable(tables, ruleId) {
        return Refused("rule or group changed during cancellation");
      }
      var rules := tables.rules[ruleId := tables.rules[ruleId].(state := Ended)];
      var siblings := set r | r in rules && r != ruleId && rules[r].groupId == rule.groupId &&
                              ResumableRule(rules[r].state);
      assert siblings != {} <==> HasResumableSibling(base, ruleId) by { SiblingsAreSiblings(base, ruleId, siblings); }
      var groups, added := tables.groups, [];
      if siblings == {} {
        if lostRace { return Refused("rule group changed during cancellation"); }
        groups := groups[rule.groupId := ClosedGroup(groups[rule.groupId])];
        added := [Audit(actor, "rule_group.cancel", rule.groupId, "", "canceled")];
      }
      added := added + [Audit(actor, "rule.cancel", ruleId, key, "canceled")];
      CancelKeepsAgreement(base, ruleId);
      tables := Tables(rules, groups);
      audits := audits + added;
      assert tables == AfterCancel(base, ruleId);
      assert CommittedFrom(base, tables, ruleId, audits, old(audits), actor, key);
      answer := Canceled;
    }

    /** Any sequence of cancellations, replays and rollbacks included. */
    method CancelMany(requests: seq<(int, string, string, bool)>)
      requires GroupsAgree(tables)
      modifies this
      ensures GroupsAgree(tables)
    {
      for i := 0 to |requests|
        invariant GroupsAgree(tables)
      {
        var _ := CancelRule(requests[i].0, requests[i].1, requests[i].2, requests[i].3);
      }
    }
  }

  /** The committed write: from some agreeing state, this rule was canceled and
      its group closed exactly when it held no other rule that can run, with the
      audit rows of both. */
  ghost predicate Committed(t: Tables, ruleId: int, audits: seq<Audit>, before: seq<Audit>, actor: string,
                            key: string)
  {
    exists base :: CommittedFrom(base, t, ruleId, audits, before, actor, key)
  }

  ghost predicate CommittedFrom(base: Tables, t: Tables, ruleId: int, audits: seq<Audit>, before: seq<Audit>,
                                actor: string, key: string) {
    && GroupsAgree(base) && Cancelable(base, ruleId) && t == AfterCancel(base, ruleId)
    && audits == before +
         (if HasResumableSibling(base, ruleId) then []
          else [Audit(actor, "rule_group.cancel", base.rules[ruleId].groupId, "", "canceled")]) +
         [Audit(actor, "rule.cancel", ruleId, key, "canceled")]
  }

  lemma SiblingsAreSiblings(t: Tables, ruleId: int, siblings: set<int>)
    requires ruleId in t.rules
    requires forall r :: r in siblings <==>
               (r in t.rules && r != ruleId && t.rules[r].groupId == t.rules[ruleId].groupId &&
                ResumableRule(t.rules[r].state))
    ensures siblings != {} <==> HasResumableSibling(t, ruleId)
  {
    if siblings != {} { var r :| r in siblings; }
  }
}
