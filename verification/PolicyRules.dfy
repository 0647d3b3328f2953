/** The rule list of a security policy, as adding and deleting a rule edit it. */
module PolicyRules {
  import opened Common

  datatype Rule = Rule(id: ObjectId, labelText: string, content: string)

  datatype RuleError = RuleNotFound | NeverAppeared | ServerError

  /** Where a rule asked for at a position lands: a negative position and one past the end mean the end. */
  function Landing(count: nat, position: int): (at: nat)
    ensures at <= count
  {
    if 0 <= position <= count then position else count
  }

  function Inserted(rules: seq<Rule>, rule: Rule, position: int): seq<Rule> {
    var at := Landing(|rules|, position);
    rules[..at] + [rule] + rules[at..]
  }

  method InsertRule(rules: seq<Rule>, rule: Rule, position: int) returns (updated: seq<Rule>)
    ensures updated == Inserted(rules, rule, position)
    ensures position < 0 || position >= |rules| ==> updated == rules + [rule]
    ensures 0 <= position < |rules| ==>
              && updated[..position] == rules[..position]
              && updated[position] == rule
              && updated[position + 1..] == rules[position..]
  {
    var currentRuleCount := |rules|;
    var position := position;
    if position < 0 {
      position := currentRuleCount;
    }
    if currentRuleCount == 0 {
      updated := [rule];
    } else if position == 0 {
      updated := [rule] + rules;
    } else if position >= currentRuleCount {
      updated := rules + [rule];
    } else {
      // makes room by repeating the rule at the position, then overwrites one of the two
      updated := rules[..position + 1] + rules[position..];
      updated := updated[position := rule];
    }
  }

  /** A position at or past the end, or a negative one, means the end; any other is where the new rule
      goes, the rules from there on moving up by one. */
  lemma InsertedWhere(rules: seq<Rule>, rule: Rule, position: int)
    ensures position < 0 || position >= |rules| ==> Inserted(rules, rule, position) == rules + [rule]
    ensures 0 <= position < |rules| ==>
              var updated := Inserted(rules, rule, position);
              && |updated| == |rules| + 1
              && updated[position] == rule
              && (forall i :: 0 <= i < position ==> updated[i] == rules[i])
              && (forall i :: position <= i < |rules| ==> updated[i + 1] == rules[i])
  {
    if position < 0 || position >= |rules| {
      assert rules[..|rules|] == rules && rules[|rules|..] == [];
    }
  }

  /** The first rule that passes. */
  function FirstWith(rules: seq<Rule>, passes: Rule -> bool): (at: Option<nat>)
    ensures at.Some? ==> at.value < |rules| && passes(rules[at.value])
    ensures at.Some? ==> forall i :: 0 <= i < at.value ==> !passes(rules[i])
    ensures at.None? ==> forall rule <- rules :: !passes(rule)
  {
    if rules == [] then None else
    if passes(rules[0]) then Some(0) else
    match FirstWith(rules[1..], passes)
    case None => None
    case Some(at) => Some(at + 1)
  }

  function HasId(id: ObjectId): Rule -> bool {
    (rule: Rule) => rule.id == id
  }

  function HasLabel(labelText: string): Rule -> bool {
    (rule: Rule) => rule.labelText == labelText
  }

  function Deleted(rules: seq<Rule>, id: ObjectId): Result<seq<Rule>, RuleError> {
    match FirstWith(rules, HasId(id))
    case None => Err(RuleNotFound)
    case Some(at) => Ok(rules[..at] + rules[at + 1..])
  }

  method DeleteRule(rules: seq<Rule>, id: ObjectId) returns (r: Result<seq<Rule>, RuleError>)
    ensures r == Deleted(rules, id)
    ensures r.Err? ==> r.error == RuleNotFound && forall rule <- rules :: rule.id != id
    ensures r.Ok? ==> exists i :: 0 <= i < |rules| && rules[i].id == id
                                  && (forall j :: 0 <= j < i ==> rules[j].id != id)
                                  && r.value == rules[..i] + rules[i + 1..]
  {
    var ruleIdx := -1;
    for i := 0 to |rules|
      invariant ruleIdx == -1
      invariant forall j :: 0 <= j < i ==> rules[j].id != id
    {
      if rules[i].id == id {
        ruleIdx := i;
        assert FirstWith(rules, HasId(id)) == Some(i) by { assert rules[i] in rules; }
        break;
      }
    }
    if ruleIdx < 0 {
      assert FirstWith(rules, HasId(id)).None?;
      return Err(RuleNotFound);
    }
    r := Ok(rules[..ruleIdx] + rules[ruleIdx + 1..]);
  }

  /** What AddRule answers: the ID of the first rule with the new rule's label, which is looked up
      after the server has given the new rule an ID. */
  function IdByLabel(rules: seq<Rule>, labelText: string): Option<ObjectId> {
    match FirstWith(rules, HasLabel(labelText))
    case None => None
    case Some(at) => Some(rules[at].id)
  }

  method FindLabel(rules: seq<Rule>, labelText: string) returns (id: Option<ObjectId>)
    ensures id == IdByLabel(rules, labelText)
  {
    for i := 0 to |rules|
      invariant forall j :: 0 <= j < i ==> rules[j].labelText != labelText
    {
      if rules[i].labelText == labelText {
        assert FirstWith(rules, HasLabel(labelText)) == Some(i) by { assert rules[i] in rules; }
        return Some(rules[i].id);
      }
    }
    id := None;
  }

  /** What is answered when the policy is read again and again: None is a reading that fails. */
  function LookedUp(readings: seq<Option<seq<Rule>>>, labelText: string): Result<ObjectId, RuleError> {
    if readings == [] then Err(NeverAppeared) else
    if readings[0].None? then Err(ServerError) else
    match IdByLabel(readings[0].value, labelText)
    case Some(id) => Ok(id)
    case None => LookedUp(readings[1..], labelText)
  }

  const MAX_RETRIES := 10

  /** getPolicyRuleIdByLabel, given what each reading of the policy would give. */
  method FindIdByLabel(readings: seq<Option<seq<Rule>>>, labelText: string) returns (r: Result<ObjectId, RuleError>)
    requires |readings| == MAX_RETRIES + 1
    ensures r == LookedUp(readings, labelText)
  {
    assert readings[0..] == readings;
    for i := 0 to MAX_RETRIES + 1
      invariant LookedUp(readings, labelText) == LookedUp(readings[i..], labelText)
    {
      if readings[i].None? {
        return Err(ServerError);
      }
      var id := FindLabel(readings[i].value, labelText);
      if id.Some? {
        return Ok(id.value);
      }
    }
    r := Err(NeverAppeared);
  }

  /** The answer is that of the first reading in which the label appears, if no reading fails before;
      so readings that all give the same rules are as good as one. */
  lemma {:induction false} FirstAppearanceAnswers(readings: seq<Option<seq<Rule>>>, labelText: string, k: nat)
    requires k < |readings| && readings[k].Some? && IdByLabel(readings[k].value, labelText).Some?
    requires forall i :: 0 <= i < k ==> readings[i].Some? && IdByLabel(readings[i].value, labelText).None?
    ensures LookedUp(readings, labelText) == Ok(IdByLabel(readings[k].value, labelText).value)
  {
    if k > 0 {
      FirstAppearanceAnswers(readings[1..], labelText, k - 1);
    }
  }

  /** Readings without the label are passed over; a reading that fails ends the search, and so do
      eleven without the label. */
  lemma {:induction false} SearchGivesUp(readings: seq<Option<seq<Rule>>>, labelText: string, k: nat)
    requires k <= |readings| && (k < |readings| ==> readings[k].None?)
    requires forall i :: 0 <= i < k ==>
               readings[i].Some? && forall rule <- readings[i].value :: rule.labelText != labelText
    ensures LookedUp(readings, labelText) == Err(if k < |readings| then ServerError else NeverAppeared)
  {
    if k > 0 {
      SearchGivesUp(readings[1..], labelText, k - 1);
    }
  }

  function Ids(rules: seq<Rule>): (ids: seq<ObjectId>)
    ensures |ids| == |rules|
  {
    seq(|rules|, i requires 0 <= i < |rules| => rules[i].id)
  }

  predicate DistinctIds(rules: seq<Rule>) {
    forall i, j :: 0 <= i < j < |rules| ==> rules[i].id != rules[j].id
  }

  /** Deleting by a rule's ID takes out exactly what adding it put in, wherever it was put. */
  lemma DeleteUndoesAdd(rules: seq<Rule>, rule: Rule, position: int)
    requires rule.id !in Ids(rules)
    ensures Deleted(Inserted(rules, rule, position), rule.id) == Ok(rules)
  {
    var at := Landing(|rules|, position);
    var updated := Inserted(rules, rule, position);
    AddedIsFound(rules, rule, at, updated);
    assert updated[..at] == rules[..at] && updated[at + 1..] == rules[at..];
    assert rules[..at] + rules[at..] == rules;
  }

  lemma AddedIsFound(rules: seq<Rule>, rule: Rule, at: nat, updated: seq<Rule>)
    requires at <= |rules| && updated == rules[..at] + [rule] + rules[at..] && rule.id !in Ids(rules)
    ensures FirstWith(updated, HasId(rule.id)) == Some(at)
  {
    assert updated[at] == rule && rule in updated;
    forall i | 0 <= i < |rules| ensures rules[i].id != rule.id {
      assert Ids(rules)[i] == rules[i].id;
    }
    forall i | 0 <= i < |updated| && i != at ensures updated[i].id != rule.id {
      assert updated[i] == rules[if i < at then i else i - 1];
    }
    var found := FirstWith(updated, HasId(rule.id));
  }

  /** Adding back what was deleted, at the same place, restores the list. */
  lemma AddUndoesDelete(rules: seq<Rule>, at: nat)
    requires at < |rules| && DistinctIds(rules)
    ensures Deleted(rules, rules[at].id).Ok?
    ensures Inserted(Deleted(rules, rules[at].id).value, rules[at], at) == rules
  {
    var found := FirstWith(rules, HasId(rules[at].id));
    assert found == Some(at) by {
      assert rules[at] in rules;
    }
  }

  lemma AddKeepsIdsDistinct(rules: seq<Rule>, rule: Rule, position: int)
    requires DistinctIds(rules) && rule.id !in Ids(rules)
    ensures DistinctIds(Inserted(rules, rule, position))
  {
    var at := Landing(|rules|, position);
    var updated := Inserted(rules, rule, position);
    forall i | 0 <= i < |rules| ensures rules[i].id != rule.id {
      assert Ids(rules)[i] == rules[i].id;
    }
    forall i, j | 0 <= i < j < |updated| ensures updated[i].id != updated[j].id {
      assert updated[i] == if i < at then rules[i] else if i == at then rule else rules[i - 1];
      assert updated[j] == if j < at then rules[j] else if j == at then rule else rules[j - 1];
    }
  }

  lemma AddsOneId(rules: seq<Rule>, rule: Rule, position: int)
    ensures forall id :: id in Ids(Inserted(rules, rule, position)) <==> id in Ids(rules) || id == rule.id
  {
    var at := Landing(|rules|, position);
    var updated := Inserted(rules, rule, position);
    assert Ids(updated)[at] == rule.id;
    forall i | 0 <= i < |rules| ensures Ids(rules)[i] in Ids(updated) {
      assert Ids(updated)[if i < at then i else i + 1] == Ids(rules)[i];
    }
    forall i | 0 <= i < |updated| && i != at ensures Ids(updated)[i] in Ids(rules) {
      assert Ids(rules)[if i < at then i else i - 1] == Ids(updated)[i];
    }
  }

  lemma DeleteKeepsIdsDistinct(rules: seq<Rule>, id: ObjectId)
    requires DistinctIds(rules) && Deleted(rules, id).Ok?
    ensures DistinctIds(Deleted(rules, id).value)
    ensures forall other :: other in Ids(Deleted(rules, id).value) <==> other in Ids(rules) && other != id
  {
    var at := FirstWith(rules, HasId(id)).value;
    var rest := rules[..at] + rules[at + 1..];
    assert forall i :: 0 <= i < |rest| ==> rest[i] == rules[if i < at then i else i + 1];
    forall other ensures other in Ids(rest) <==> other in Ids(rules) && other != id {
      IdsWithout(rules, at, rest, other);
    }
  }

  lemma IdsWithout(rules: seq<Rule>, at: nat, rest: seq<Rule>, other: ObjectId)
    requires DistinctIds(rules) && at < |rules| && rest == rules[..at] + rules[at + 1..]
    ensures other in Ids(rest) <==> other in Ids(rules) && other != rules[at].id
  {
    if other in Ids(rules) && other != rules[at].id {
      var i :| 0 <= i < |rules| && Ids(rules)[i] == other;
      assert Ids(rest)[if i < at then i else i - 1] == other;
    }
    if other in Ids(rest) {
      var i :| 0 <= i < |rest| && Ids(rest)[i] == other;
      assert Ids(rules)[if i < at then i else i + 1] == other;
    }
  }

  /** The ID AddRule answers with is the new rule's own exactly when no rule ahead of it carries
      the same label. */
  lemma AddAnswersItsOwnId(rules: seq<Rule>, rule: Rule, position: int)
    requires rule.id !in Ids(rules)
    ensures IdByLabel(Inserted(rules, rule, position), rule.labelText) == Some(rule.id)
       <==> forall i :: 0 <= i < Landing(|rules|, position) ==> rules[i].labelText != rule.labelText
  {
    var at := Landing(|rules|, position);
    var updated := Inserted(rules, rule, position);
    assert updated[at] == rule && rule in updated;
    assert forall i :: 0 <= i < |rules| ==> Ids(rules)[i] == rules[i].id;
    assert forall i :: 0 <= i < at ==> updated[i] == rules[i];
    var found := FirstWith(updated, HasLabel(rule.labelText));
    assert found.Some? && found.value <= at;
  }

  /** A rule added behind one of the same label is answered with the other's ID. */
  lemma SameLabelAnswersOther(a: Rule, b: Rule)
    requires a.id != b.id && a.labelText == b.labelText
    ensures Inserted([a], b, -1) == [a, b] && IdByLabel([a, b], b.labelText) == Some(a.id) != Some(b.id)
  {
  }
}
