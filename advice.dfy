/** The canned advice returned with every score: one message per rule
    that fires, in a fixed rule order, or a single fallback message. */
module Advice {
  import opened StressRequest

  /** The four advice rules, in the order they are evaluated. */
  datatype Rule = ShortSleep | ManyAssignments | ExamImminent | HeavyClasses

  const RuleOrder: seq<Rule> := [ShortSleep, ManyAssignments, ExamImminent, HeavyClasses]

  const SleepMessage: string :=
    "Prioritise sleep — aim for 7+ hours nightly to improve focus and memory."
  const AssignmentsMessage: string :=
    "Break assignments into small tasks and use time-blocking."
  const ExamMessage: string :=
    "Use active recall & spaced repetition for exam prep. Make a 3-day plan."
  const ClassesMessage: string :=
    "Schedule recovery breaks between heavy class days."
  /** Returned when no rule fires. */
  const MildMessage: string :=
    "Your stress drivers look mild — keep consistent sleep and small breaks."

  /** Whether a rule fires for a request. */
  predicate Fires(rule: Rule, r: Request)
  {
    match rule
    case ShortSleep => r.sleepHours < 6.0
    case ManyAssignments => r.assignments >= 4
    case ExamImminent => r.daysToExam < 7
    case HeavyClasses => r.classHours > 25.0
  }

  /** The message a rule contributes. */
  function Message(rule: Rule): string
  {
    match rule
    case ShortSleep => SleepMessage
    case ManyAssignments => AssignmentsMessage
    case ExamImminent => ExamMessage
    case HeavyClasses => ClassesMessage
  }

  /** Position of a rule in RuleOrder. */
  function Rank(rule: Rule): (i: nat)
    ensures i < |RuleOrder| && RuleOrder[i] == rule
  {
    match rule
    case ShortSleep => 0
    case ManyAssignments => 1
    case ExamImminent => 2
    case HeavyClasses => 3
  }

  /** Different rules give different messages, none of them the fallback. */
  lemma MessagesDistinct(a: Rule, b: Rule)
    ensures Message(a) == Message(b) ==> a == b
    ensures Message(a) != MildMessage
  {
  }

  /** The rules of `rules` that fire for `r`, in their listed order. */
  function FiringRules(rules: seq<Rule>, r: Request): (fs: seq<Rule>)
    ensures |fs| <= |rules|
  {
    if rules == [] then []
    else Only(rules[0], r) + FiringRules(rules[1..], r)
  }

  /** The rule alone if it fires, nothing otherwise. */
  function Only(rule: Rule, r: Request): seq<Rule>
  {
    if Fires(rule, r) then [rule] else []
  }

  /** A rule is among the firing rules exactly when it is listed and fires. */
  lemma {:induction false} FiringRulesMembers(rules: seq<Rule>, r: Request, x: Rule)
    ensures x in FiringRules(rules, r) <==> x in rules && Fires(x, r)
  {
    if rules != [] {
      FiringRulesMembers(rules[1..], r, x);
      assert rules == [rules[0]] + rules[1..];
    }
  }

  /** The messages of a list of rules, in the same order. */
  function Messages(rules: seq<Rule>): (ms: seq<string>)
    ensures |ms| == |rules|
    ensures forall i :: 0 <= i < |rules| ==> ms[i] == Message(rules[i])
  {
    seq(|rules|, i requires 0 <= i < |rules| => Message(rules[i]))
  }

  /** Ranks strictly increase along a list of rules. */
  predicate InRuleOrder(rules: seq<Rule>)
  {
    forall p, q :: 0 <= p < q < |rules| ==> Rank(rules[p]) < Rank(rules[q])
  }

  /** Reference definition of the advice list: the messages of the firing
      rules in rule order, or the fallback alone when none fires. */
  function AdviceFor(r: Request): seq<string>
  {
    var fs := FiringRules(RuleOrder, r);
    if fs == [] then [MildMessage] else Messages(fs)
  }

  /** The firing rules of the fixed rule list, one rule at a time. */
  lemma FiringRulesInOrder(r: Request)
    ensures FiringRules(RuleOrder, r) ==
      Only(ShortSleep, r) + Only(ManyAssignments, r) + Only(ExamImminent, r) + Only(HeavyClasses, r)
  {
    var rest3 := [HeavyClasses];
    var rest2 := [ExamImminent, HeavyClasses];
    var rest1 := [ManyAssignments, ExamImminent, HeavyClasses];
    assert rest3[1..] == [];
    assert FiringRules(rest3, r) == Only(HeavyClasses, r) + [];
    assert rest2[1..] == rest3;
    assert FiringRules(rest2, r) == Only(ExamImminent, r) + FiringRules(rest3, r);
    assert rest1[1..] == rest2;
    assert FiringRules(rest1, r) == Only(ManyAssignments, r) + FiringRules(rest2, r);
    assert RuleOrder[1..] == rest1;
    var o1, o2, o3, o4 := Only(ShortSleep, r), Only(ManyAssignments, r), Only(ExamImminent, r), Only(HeavyClasses, r);
    assert FiringRules(RuleOrder, r) == o1 + (o2 + (o3 + (o4 + [])));
    assert o4 + [] == o4;
    assert o1 + (o2 + (o3 + o4)) == o1 + o2 + o3 + o4;
  }

  /** Builds the advice list the way the service does: start empty, append
      each firing rule's message in rule order, then the fallback if the
      list is still empty. */
  method GenerateAdvice(r: Request) returns (adv: seq<string>)
    ensures adv == AdviceFor(r)
    ensures 1 <= |adv| <= |RuleOrder|
  {
    ghost var fs: seq<Rule> := [];
    adv := [];
    if r.sleepHours < 6.0 {
      MessagesAppend(fs, ShortSleep);
      adv := adv + [SleepMessage];
      fs := fs + [ShortSleep];
    }
    assert fs == Only(ShortSleep, r);
    if r.assignments >= 4 {
      MessagesAppend(fs, ManyAssignments);
      adv := adv + [AssignmentsMessage];
      fs := fs + [ManyAssignments];
    }
    assert fs == Only(ShortSleep, r) + Only(ManyAssignments, r);
    if r.daysToExam < 7 {
      MessagesAppend(fs, ExamImminent);
      adv := adv + [ExamMessage];
      fs := fs + [ExamImminent];
    }
    assert fs == Only(ShortSleep, r) + Only(ManyAssignments, r) + Only(ExamImminent, r);
    if r.classHours > 25.0 {
      MessagesAppend(fs, HeavyClasses);
      adv := adv + [ClassesMessage];
      fs := fs + [HeavyClasses];
    }
    FiringRulesInOrder(r);
    assert fs == FiringRules(RuleOrder, r);
    if |adv| == 0 {
      adv := adv + [MildMessage];
    }
  }

  /** Appending a rule appends its message. */
  lemma MessagesAppend(fs: seq<Rule>, x: Rule)
    ensures Messages(fs + [x]) == Messages(fs) + [Message(x)]
  {
  }

  /** Dropping the first rule keeps a list in rule order. */
  lemma DropOrdered(rules: seq<Rule>)
    requires rules != [] && InRuleOrder(rules)
    ensures InRuleOrder(rules[1..])
  {
    forall p, q | 0 <= p < q < |rules[1..]|
      ensures Rank(rules[1..][p]) < Rank(rules[1..][q])
    {
      assert rules[1..][p] == rules[p + 1] && rules[1..][q] == rules[q + 1];
    }
  }

  /** Putting a rule that ranks below every rule of an ordered list in front
      of it (or nothing) gives an ordered list. */
  lemma PrependOrdered(x: Rule, head: seq<Rule>, tail: seq<Rule>)
    requires head == [] || head == [x]
    requires InRuleOrder(tail)
    requires forall q :: 0 <= q < |tail| ==> Rank(x) < Rank(tail[q])
    ensures InRuleOrder(head + tail)
  {
    var fs := head + tail;
    forall p, q | 0 <= p < q < |fs| ensures Rank(fs[p]) < Rank(fs[q]) {
      if p < |head| {
        assert fs[p] == x && fs[q] == tail[q - |head|];
      } else {
        assert fs[p] == tail[p - |head|] && fs[q] == tail[q - |head|];
      }
    }
  }

  /** Filtering keeps the order of the list it filters. */
  lemma {:induction false} FiringRulesOrdered(rules: seq<Rule>, r: Request)
    requires InRuleOrder(rules)
    ensures InRuleOrder(FiringRules(rules, r))
  {
    if rules != [] {
      var tail := FiringRules(rules[1..], r);
      DropOrdered(rules);
      FiringRulesOrdered(rules[1..], r);
      forall q | 0 <= q < |tail| ensures Rank(rules[0]) < Rank(tail[q]) {
        FiringRulesMembers(rules[1..], r, tail[q]);
        var k :| 0 <= k < |rules[1..]| && rules[1..][k] == tail[q];
        assert rules[k + 1] == tail[q];
      }
      PrependOrdered(rules[0], Only(rules[0], r), tail);
    }
  }

  /** The advice is never empty and has at most one message per rule; it is
      the single fallback message exactly when no rule fires. */
  lemma AdviceShape(r: Request)
    ensures 1 <= |AdviceFor(r)| <= |RuleOrder|
    ensures AdviceFor(r) == [MildMessage] <==> forall rule :: !Fires(rule, r)
  {
    var fs := FiringRules(RuleOrder, r);
    if fs == [] {
      forall rule ensures !Fires(rule, r) {
        assert RuleOrder[Rank(rule)] == rule;
        FiringRulesMembers(RuleOrder, r, rule);
      }
    } else {
      MessagesDistinct(fs[0], fs[0]);
      FiringRulesMembers(RuleOrder, r, fs[0]);
      assert AdviceFor(r)[0] == Message(fs[0]);
    }
  }

  /** A rule's message is in the advice exactly when the rule fires. */
  lemma AdvicePresence(r: Request, rule: Rule)
    ensures Message(rule) in AdviceFor(r) <==> Fires(rule, r)
  {
    var fs := FiringRules(RuleOrder, r);
    assert RuleOrder[Rank(rule)] == rule;
    MessagesDistinct(rule, rule);
    FiringRulesMembers(RuleOrder, r, rule);
    if fs != [] {
      if Message(rule) in Messages(fs) {
        var i :| 0 <= i < |fs| && Messages(fs)[i] == Message(rule);
        MessagesDistinct(fs[i], rule);
        FiringRulesMembers(RuleOrder, r, fs[i]);
      }
      if Fires(rule, r) {
        var i :| 0 <= i < |fs| && fs[i] == rule;
        assert Messages(fs)[i] == Message(rule);
      }
    }
  }

  /** The fixed rule list is in rule order: each rule's rank is its position. */
  lemma RuleOrderRanked()
    ensures InRuleOrder(RuleOrder)
  {
    forall p | 0 <= p < |RuleOrder| ensures Rank(RuleOrder[p]) == p {
      if p == 0 {} else if p == 1 {} else if p == 2 {} else {}
    }
  }

  /** An entry of a non-fallback advice list names the firing rule at the
      same position. */
  lemma AdviceEntryRule(r: Request, i: nat, a: Rule)
    requires FiringRules(RuleOrder, r) != []
    requires i < |AdviceFor(r)| && AdviceFor(r)[i] == Message(a)
    ensures i < |FiringRules(RuleOrder, r)| && FiringRules(RuleOrder, r)[i] == a
  {
    var fs := FiringRules(RuleOrder, r);
    assert AdviceFor(r) == Messages(fs);
    MessagesDistinct(fs[i], a);
  }

  /** Messages in the advice follow the rule order: a message at an earlier
      position comes from an earlier rule, and differs from the later one. */
  lemma AdviceOrdered(r: Request, i: nat, j: nat, a: Rule, b: Rule)
    requires i < j < |AdviceFor(r)|
    requires AdviceFor(r)[i] == Message(a) && AdviceFor(r)[j] == Message(b)
    ensures Rank(a) < Rank(b)
    ensures AdviceFor(r)[i] != AdviceFor(r)[j]
  {
    var fs := FiringRules(RuleOrder, r);
    assert fs != [];
    AdviceEntryRule(r, i, a);
    AdviceEntryRule(r, j, b);
    RuleOrderRanked();
    FiringRulesOrdered(RuleOrder, r);
    assert Rank(a) < Rank(b);
    MessagesDistinct(a, b);
  }

  /** No message appears twice in the advice. */
  lemma AdviceNoRepeats(r: Request)
    ensures forall i, j :: 0 <= i < j < |AdviceFor(r)| ==> AdviceFor(r)[i] != AdviceFor(r)[j]
  {
    var fs := FiringRules(RuleOrder, r);
    forall i, j | 0 <= i < j < |AdviceFor(r)|
      ensures AdviceFor(r)[i] != AdviceFor(r)[j]
    {
      assert AdviceFor(r) == Messages(fs);
      AdviceOrdered(r, i, j, fs[i], fs[j]);
    }
  }
}
