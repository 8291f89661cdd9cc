/**
 * The ten-question learning-profile questionnaire
 * (components/InitialAssessment.tsx): the step machine that records one
 * answer per question, the per-group plurality vote with its tie-break, and
 * the mapping of each group's winning option to a profile label.
 */
module InitialAssessment {
  import opened Types
  import opened Seqs

  /** The option ids every question offers. */
  datatype Letter = A | B | C

  datatype Category = StyleQ | TemperamentQ | IntelligenceQ | WellbeingQ

  /** The question ids, in the order they are asked. */
  const QuestionIds: seq<int> := [1, 2, 3, 4, 5, 6, 7, 8, 9, 10]

  /** The category of each question, in the same order. */
  const Categories: seq<Category> :=
    [StyleQ, TemperamentQ, IntelligenceQ, WellbeingQ, StyleQ, TemperamentQ, IntelligenceQ, WellbeingQ, StyleQ, TemperamentQ]

  /** The id groups each vote is taken over. */
  const StyleGroup: seq<int> := [1, 5, 9]
  const TemperamentGroup: seq<int> := [2, 6, 10]
  const IntelligenceGroup: seq<int> := [3, 7]
  const WellbeingGroup: seq<int> := [4, 8]

  function GroupOf(c: Category): seq<int>
  {
    match c
    case StyleQ => StyleGroup
    case TemperamentQ => TemperamentGroup
    case IntelligenceQ => IntelligenceGroup
    case WellbeingQ => WellbeingGroup
  }

  /**
   * The hard-coded vote groups are exactly the questions of each category:
   * a question id is in a group iff the question carries that category.
   */
  lemma GroupsMatchCategories()
    ensures |QuestionIds| == |Categories| == 10
    ensures forall c: Category, k :: 0 <= k < 10 ==> (QuestionIds[k] in GroupOf(c) <==> Categories[k] == c)
    ensures forall c: Category, id :: id in GroupOf(c) ==> id in QuestionIds
  {
  }

  /** The `counts` record: how many answers chose each option. */
  datatype Tally = Tally(a: nat, b: nat, c: nat)

  function CountOf(t: Tally, l: Letter): nat
  {
    match l
    case A => t.a
    case B => t.b
    case C => t.c
  }

  function Bump(t: Tally, l: Letter): (r: Tally)
    ensures CountOf(r, l) == CountOf(t, l) + 1
    ensures forall m :: m != l ==> CountOf(r, m) == CountOf(t, m)
  {
    match l
    case A => t.(a := t.a + 1)
    case B => t.(b := t.b + 1)
    case C => t.(c := t.c + 1)
  }

  /** The tally over a group: each answered id adds one to its option, unanswered ids add nothing. */
  function TallyOf(answers: map<int, Letter>, qIds: seq<int>): Tally
  {
    if |qIds| == 0 then Tally(0, 0, 0)
    else
      var t := TallyOf(answers, qIds[..|qIds| - 1]);
      var id := qIds[|qIds| - 1];
      if id in answers then Bump(t, answers[id]) else t
  }

  /** The tally counts each answered id of the group once, and nothing else. */
  lemma {:induction false} TallyTotal(answers: map<int, Letter>, qIds: seq<int>)
    ensures TallyOf(answers, qIds).a + TallyOf(answers, qIds).b + TallyOf(answers, qIds).c ==
            |Filter(qIds, (id: int) => id in answers)|
  {
    if |qIds| > 0 {
      var n := |qIds| - 1;
      var answered := (id: int) => id in answers;
      TallyTotal(answers, qIds[..n]);
      assert qIds == qIds[..n] + [qIds[n]];
      FilterConcat(qIds[..n], [qIds[n]], answered);
      assert Filter([qIds[n]], answered) == if qIds[n] in answers then [qIds[n]] else [];
    }
  }

  /**
   * The `reduce` over the entries A, B, C keeping the left one on `>=`: the
   * option with the most answers, the earlier letter on a tie.
   */
  function Winner(t: Tally): (w: Letter)
    ensures forall l :: CountOf(t, l) <= CountOf(t, w)
    ensures w == B ==> t.a < t.b
    ensures w == C ==> t.a < t.c && t.b < t.c
  {
    if t.a >= t.b then (if t.a >= t.c then A else C)
    else (if t.b >= t.c then B else C)
  }

  /** A group with no answer at all votes A. */
  lemma UnansweredVotesA(answers: map<int, Letter>, qIds: seq<int>)
    requires forall id :: id in qIds ==> id !in answers
    ensures Winner(TallyOf(answers, qIds)) == A
  {
    TallyTotal(answers, qIds);
    forall i | 0 <= i < |qIds| ensures qIds[i] !in answers {
      var id := qIds[i];
      assert id in qIds;
    }
    FilterNone(qIds, (id: int) => id in answers);
  }

  /**
   * `getWinner`: the `forEach` that increments the counts of the answered ids,
   * then the vote.
   */
  method GetWinner(answers: map<int, Letter>, qIds: seq<int>) returns (w: Letter)
    ensures w == Winner(TallyOf(answers, qIds))
  {
    var a, b, c := 0, 0, 0;
    var k := 0;
    while k < |qIds|
      invariant 0 <= k <= |qIds|
      invariant Tally(a, b, c) == TallyOf(answers, qIds[..k])
    {
      assert qIds[..k + 1][..k] == qIds[..k];
      var id := qIds[k];
      if id in answers {
        match answers[id]
        case A => a := a + 1;
        case B => b := b + 1;
        case C => c := c + 1;
      }
      k := k + 1;
    }
    assert qIds[..k] == qIds;
    if a >= b {
      w := if a >= c then A else C;
    } else {
      w := if b >= c then B else C;
    }
  }

  function StyleLabel(w: Letter): Style
  {
    match w
    case A => Visual
    case B => Auditivo
    case C => Kinestesico
  }

  function TemperamentLabel(w: Letter): Temperament
  {
    match w
    case A => ReflexivoEstable
    case B => EmocionalExpresivo
    case C => ImpulsivoAdaptable
  }

  function IntelligenceLabel(w: Letter): Intelligence
  {
    match w
    case A => Linguistica
    case B => LogicoMatematica
    case C => EspacialCreativa
  }

  function WellbeingLabel(w: Letter): Wellbeing
  {
    match w
    case A => Estable
    case B => AtencionPreventiva
    case C => AlertaCargaAlta
  }

  /** The profile `calculateResults` builds from the answers, stamped `completedAt`. */
  function Results(answers: map<int, Letter>, completedAt: string): (p: LearningProfile)
    ensures p.completedAt == completedAt
    ensures p.style == StyleLabel(Winner(TallyOf(answers, StyleGroup)))
    ensures p.temperament == TemperamentLabel(Winner(TallyOf(answers, TemperamentGroup)))
    ensures p.intelligence == IntelligenceLabel(Winner(TallyOf(answers, IntelligenceGroup)))
    ensures p.wellbeing == WellbeingLabel(Winner(TallyOf(answers, WellbeingGroup)))
  {
    LearningProfile(StyleLabel(Winner(TallyOf(answers, StyleGroup))),
                    IntelligenceLabel(Winner(TallyOf(answers, IntelligenceGroup))),
                    TemperamentLabel(Winner(TallyOf(answers, TemperamentGroup))),
                    WellbeingLabel(Winner(TallyOf(answers, WellbeingGroup))),
                    completedAt)
  }

  /** With both wellbeing questions answered, the alert is raised exactly when both answers are C. */
  lemma WellbeingAlertIffBothC(answers: map<int, Letter>, completedAt: string)
    requires 4 in answers && 8 in answers
    ensures Results(answers, completedAt).wellbeing == AlertaCargaAlta <==> answers[4] == C && answers[8] == C
  {
    var first: seq<int> := [4];
    assert first[..0] == [];
    assert TallyOf(answers, first) == Bump(Tally(0, 0, 0), answers[4]);
    assert WellbeingGroup[..1] == first;
    assert TallyOf(answers, WellbeingGroup) == Bump(Bump(Tally(0, 0, 0), answers[4]), answers[8]);
  }

  /** `calculateResults`: the four votes, each taken by `getWinner`, and the labels they select. */
  method CalculateResults(answers: map<int, Letter>, completedAt: string) returns (p: LearningProfile)
    ensures p == Results(answers, completedAt)
  {
    var sensory := GetWinner(answers, StyleGroup);
    var temp := GetWinner(answers, TemperamentGroup);
    var intel := GetWinner(answers, IntelligenceGroup);
    var well := GetWinner(answers, WellbeingGroup);
    p := LearningProfile(StyleLabel(sensory), IntelligenceLabel(intel), TemperamentLabel(temp),
                         WellbeingLabel(well), completedAt);
  }

  /** The questionnaire's state: the question on screen and the answers given so far. */
  class Assessment {
    var step: nat
    var answers: map<int, Letter>

    /**
     * The step always names a question; every question before it is answered,
     * and nothing beyond the current question is.
     */
    ghost predicate Valid()
      reads this
    {
      step < |QuestionIds| &&
      (forall k :: 0 <= k < step ==> QuestionIds[k] in answers) &&
      (forall id :: id in answers ==> id in QuestionIds[..step + 1])
    }

    constructor()
      ensures Valid()
      ensures step == 0 && answers == map[]
    {
      step := 0;
      answers := map[];
    }

    /**
     * `handleSelect`: record the option under the current question's id; move
     * to the next question, or on the last one compute the profile, staying on
     * that question.
     */
    method Select(option: Letter, completedAt: string) returns (completed: Option<LearningProfile>)
      requires Valid()
      modifies this
      ensures Valid()
      ensures answers == old(answers)[QuestionIds[old(step)] := option]
      ensures old(step) < |QuestionIds| - 1 ==> step == old(step) + 1 && completed.None?
      ensures old(step) == |QuestionIds| - 1 ==>
        step == old(step) && completed == Some(Results(answers, completedAt)) &&
        forall k :: 0 <= k < |QuestionIds| ==> QuestionIds[k] in answers
    {
      answers := answers[QuestionIds[step] := option];
      if step < |QuestionIds| - 1 {
        step := step + 1;
        completed := None;
      } else {
        var p := CalculateResults(answers, completedAt);
        completed := Some(p);
      }
    }
  }
}
