/**
  Service-tier prices. A recorded tier may match a rule by its mode or by its
  provider tier, so no two rules may share a name: that is what makes the first
  match the only one.
 */
module ServiceTiers {
  import opened GoText
  import opened ModelPriceRules
  import Ordering

  datatype Rule = Rule(mode: string, tier: string, rates: Overrides)

  /** strings.ToLower; how letters beyond ASCII fold plays no part. */
  type Folding = string -> string

  /** strings.ToLower of strings.TrimSpace. */
  function Name(lower: Folding, s: string): string {
    lower(TrimSpace(s))
  }

  function Named(lower: Folding, r: Rule): Rule {
    r.(mode := Name(lower, r.mode), tier := Name(lower, r.tier))
  }

  function AllNamed(lower: Folding, rules: seq<Rule>): seq<Rule> {
    seq(|rules|, i requires 0 <= i < |rules| => Named(lower, rules[i]))
  }

  lemma NamedEach(lower: Folding, rules: seq<Rule>)
    ensures |AllNamed(lower, rules)| == |rules| && forall i | 0 <= i < |rules| :: AllNamed(lower, rules)[i] == Named(lower, rules[i])
  {
    hide Name;
  }

  predicate Complete(r: Rule) {
    r.mode != "" && r.tier != "" && ValidOverrides(r.rates)
  }

  predicate Answers(r: Rule, name: string) {
    name == r.mode || name == r.tier
  }

  /** No name belongs to two rules; one rule may use the same name twice. */
  ghost predicate Unshared(rules: seq<Rule>) {
    forall i, j, name | 0 <= i < |rules| && 0 <= j < |rules| && Answers(rules[i], name) && Answers(rules[j], name) :: i == j
  }

  ghost predicate Acceptable(rules: seq<Rule>) {
    (forall i | 0 <= i < |rules| :: Complete(rules[i])) && Unshared(rules)
  }

  /** The rules that are accepted: both names given, sensible prices, and no name in two rules. */
  lemma AcceptedRules(rules: seq<Rule>)
    ensures Acceptable(rules) <==>
      && (forall r | r in rules :: |r.mode| > 0 && |r.tier| > 0 && Sensible(r.rates))
      && forall i, j | 0 <= i < j < |rules| :: {rules[i].mode, rules[i].tier} !! {rules[j].mode, rules[j].tier}
  {
    hide Sensible, ValidOverrides;
    forall o ensures Sensible(o) <==> ValidOverrides(o) { SensibleIsValid(o); }
    if Unshared(rules) {
      forall i, j | 0 <= i < j < |rules| ensures {rules[i].mode, rules[i].tier} !! {rules[j].mode, rules[j].tier} {
        assert Answers(rules[i], rules[i].mode) && Answers(rules[i], rules[i].tier);
      }
    }
    if forall i, j | 0 <= i < j < |rules| :: {rules[i].mode, rules[i].tier} !! {rules[j].mode, rules[j].tier} {
      forall i, j, name | 0 <= i < |rules| && 0 <= j < |rules| && Answers(rules[i], name) && Answers(rules[j], name) ensures i == j {
        assert name in {rules[i].mode, rules[i].tier} && name in {rules[j].mode, rules[j].tier};
      }
    }
  }

  predicate Before(a: Rule, b: Rule) {
    if a.mode != b.mode then Ordering.AtMost(a.mode, b.mode) else Ordering.AtMost(a.tier, b.tier)
  }

  lemma BeforeIsTotalOrder()
    ensures Ordering.TotalOrder(Before)
  {
    hide Ordering.AtMost;
    Ordering.AtMostIsTotalOrder();
    forall x, y ensures Before(x, y) || Before(y, x) {
      Ordering.AtMostTotal(x.mode, y.mode);
      Ordering.AtMostTotal(x.tier, y.tier);
    }
    forall x, y, z | Before(x, y) && Before(y, z) ensures Before(x, z) {
      BeforeTransitive(x, y, z);
    }
  }

  lemma BeforeTransitive(x: Rule, y: Rule, z: Rule)
    requires Before(x, y) && Before(y, z)
    ensures Before(x, z)
  {
    hide Ordering.AtMost;
    if x.mode != y.mode && y.mode != z.mode {
      Ordering.AtMostTransitive(x.mode, y.mode, z.mode);
      if x.mode == z.mode { Ordering.AtMostTotal(x.mode, y.mode); }
    } else if x.mode == y.mode && y.mode == z.mode {
      Ordering.AtMostTransitive(x.tier, y.tier, z.tier);
    }
  }

  /** Which rule a name was claimed by. */
  ghost predicate Claims(claimed: map<string, nat>, rules: seq<Rule>, n: nat) {
    && n <= |rules|
    && (forall name | name in claimed :: claimed[name] < n && Answers(rules[claimed[name]], name))
    && forall i, name | 0 <= i < n && Answers(rules[i], name) :: name in claimed && claimed[name] == i
  }

  /** Accepted exactly when every rule is complete and no name is shared; then the same rules, named and in order. */
  method NormalizeServiceTiers(lower: Folding, rules: seq<Rule>) returns (r: Option<seq<Rule>>)
    ensures r.Some? <==> Acceptable(AllNamed(lower, rules))
    ensures r.Some? ==> multiset(r.value) == multiset(AllNamed(lower, rules)) && Ordering.Sorted(Before, r.value)
  {
    hide Name, Named, AllNamed, Complete, Claims, Answers, Unshared;
    NamedEach(lower, rules);
    var normalized := rules;
    var claimed: map<string, nat> := map[];
    ghost var named := AllNamed(lower, rules);
    NothingClaimed(named);
    for i := 0 to |rules|
      invariant |normalized| == |rules| == |named|
      invariant (forall j | 0 <= j < i :: normalized[j] == named[j]) && forall j | i <= j < |rules| :: normalized[j] == rules[j]
      invariant forall j | 0 <= j < i :: Complete(named[j])
      invariant Claims(claimed, named, i)
    {
      var rule := Named(lower, normalized[i]);
      assert normalized[i] == rules[i] && rule == named[i];
      normalized := normalized[i := rule];
      if !Complete(rule) {
        return None;
      }
      if (rule.mode in claimed && claimed[rule.mode] != i) || (rule.tier in claimed && claimed[rule.tier] != i) {
        Shared(claimed, named, i);
        return None;
      }
      ClaimedBefore(claimed, named, i, rule.mode);
      ClaimedBefore(claimed, named, i, rule.tier);
      ClaimNext(claimed, named, i);
      claimed := claimed[rule.mode := i][rule.tier := i];
    }
    assert normalized == named;
    ClaimsUnshared(claimed, named);
    BeforeIsTotalOrder();
    Ordering.SortSorted(Before, normalized);
    r := Some(Ordering.Sort(Before, normalized));
  }

  lemma Shared(claimed: map<string, nat>, rules: seq<Rule>, i: nat)
    requires Claims(claimed, rules, i) && i < |rules|
    requires (rules[i].mode in claimed && claimed[rules[i].mode] != i) || (rules[i].tier in claimed && claimed[rules[i].tier] != i)
    ensures !Acceptable(rules)
  {
    var name := if rules[i].mode in claimed && claimed[rules[i].mode] != i then rules[i].mode else rules[i].tier;
    assert Answers(rules[i], name) && Answers(rules[claimed[name]], name);
  }

  lemma ClaimsUnshared(claimed: map<string, nat>, rules: seq<Rule>)
    requires Claims(claimed, rules, |rules|)
    ensures Unshared(rules)
  {
    hide Answers;
    forall i, j, name | 0 <= i < |rules| && 0 <= j < |rules| && Answers(rules[i], name) && Answers(rules[j], name) ensures i == j {
      assert claimed[name] == i && claimed[name] == j;
    }
  }

  lemma ClaimedBefore(claimed: map<string, nat>, rules: seq<Rule>, i: nat, name: string)
    requires Claims(claimed, rules, i)
    ensures name in claimed ==> claimed[name] < i
  {
  }

  lemma NothingClaimed(rules: seq<Rule>)
    ensures Claims(map[], rules, 0)
  {
  }

  lemma ClaimNext(claimed: map<string, nat>, rules: seq<Rule>, i: nat)
    requires Claims(claimed, rules, i) && i < |rules|
    requires rules[i].mode !in claimed && rules[i].tier !in claimed
    ensures Claims(claimed[rules[i].mode := i][rules[i].tier := i], rules, i + 1)
  {
  }

  // ----- SelectModelPriceServiceTier -----

  function FirstAnswer(rules: seq<Rule>, name: string): Option<Rule> {
    if |rules| == 0 then None
    else if Answers(rules[0], name) then Some(rules[0])
    else FirstAnswer(rules[1..], name)
  }

  function Select(lower: Folding, rules: seq<Rule>, recorded: string): Option<Rule> {
    var name := Name(lower, recorded);
    if name == "" then None else FirstAnswer(rules, name)
  }

  method SelectServiceTier(lower: Folding, rules: seq<Rule>, recorded: string) returns (selected: Option<Rule>)
    ensures selected == Select(lower, rules, recorded)
  {
    hide Name;
    var name := Name(lower, recorded);
    if name == "" {
      return None;
    }
    for i := 0 to |rules|
      invariant FirstAnswer(rules, name) == FirstAnswer(rules[i..], name)
    {
      if Answers(rules[i], name) {
        return Some(rules[i]);
      }
      assert rules[i..][1..] == rules[i + 1..];
    }
    selected := None;
  }

  lemma {:induction false} FirstAnswerAnswers(rules: seq<Rule>, name: string)
    ensures match FirstAnswer(rules, name)
            case Some(r) => r in rules && Answers(r, name)
            case None => forall i | 0 <= i < |rules| :: !Answers(rules[i], name)
  {
    if |rules| > 0 {
      FirstAnswerAnswers(rules[1..], name);
      assert forall i | 0 <= i < |rules| - 1 :: rules[1..][i] == rules[i + 1];
    }
  }

  /** Among acceptable rules the selected one is the only one that answers, in whatever order they stand. */
  lemma SelectionIsUnambiguous(lower: Folding, rules: seq<Rule>, others: seq<Rule>, recorded: string)
    requires Acceptable(rules) && multiset(rules) == multiset(others)
    ensures Select(lower, others, recorded) == Select(lower, rules, recorded)
    ensures match Select(lower, rules, recorded)
            case Some(r) => forall i | 0 <= i < |rules| && Answers(rules[i], Name(lower, recorded)) :: rules[i] == r
            case None => forall i | 0 <= i < |rules| :: !Answers(rules[i], Name(lower, recorded))
  {
    hide Name, Answers, Complete;
    var name := Name(lower, recorded);
    FirstAnswerAnswers(rules, name);
    FirstAnswerAnswers(others, name);
    match FirstAnswer(rules, name)
    case Some(r) =>
      assert r in multiset(others);
      var i :| 0 <= i < |rules| && rules[i] == r;
      var k :| 0 <= k < |others| && others[k] == r;
      if FirstAnswer(others, name).Some? {
        var s := FirstAnswer(others, name).value;
        assert s in multiset(rules);
        var j :| 0 <= j < |rules| && rules[j] == s;
      }
      NoEmptyName(rules);
    case None =>
      NobodyAnswers(rules, others, name);
  }

  lemma NobodyAnswers(rules: seq<Rule>, others: seq<Rule>, name: string)
    requires multiset(rules) == multiset(others) && forall i | 0 <= i < |rules| :: !Answers(rules[i], name)
    ensures forall i | 0 <= i < |others| :: !Answers(others[i], name)
  {
    hide Answers;
    forall i | 0 <= i < |others| ensures !Answers(others[i], name) {
      assert others[i] in multiset(rules);
      var j :| 0 <= j < |rules| && rules[j] == others[i];
    }
  }

  lemma NoEmptyName(rules: seq<Rule>)
    requires forall i | 0 <= i < |rules| :: Complete(rules[i])
    ensures forall i | 0 <= i < |rules| :: !Answers(rules[i], "")
  {
    forall i | 0 <= i < |rules| ensures !Answers(rules[i], "") {
      assert Complete(rules[i]);
    }
  }

  /** A recorded tier selects a rule exactly when its name, which is not empty, is the rule's mode or the rule's provider tier. */
  lemma SelectsByEitherName(lower: Folding, rules: seq<Rule>, recorded: string, r: Rule)
    requires Acceptable(rules)
    ensures Select(lower, rules, recorded) == Some(r) <==> r in rules && lower(TrimSpace(recorded)) in {r.mode, r.tier}
  {
    hide Complete;
    var name := lower(TrimSpace(recorded));
    FirstAnswerAnswers(rules, name);
    NoEmptyName(rules);
    if r in rules && Answers(r, name) {
      var i :| 0 <= i < |rules| && rules[i] == r;
      if FirstAnswer(rules, name).Some? {
        var s := FirstAnswer(rules, name).value;
        var j :| 0 <= j < |rules| && rules[j] == s;
        assert Answers(rules[i], name) && Answers(rules[j], name);
      }
    }
  }
}
