/** `QuizView`: the quiz questions in display order, the reducer that
    walks through them, and the score on the results screen. */
module QuizView {
  import opened Seqs

  datatype McQuestion = McQuestion(question: string, options: seq<string>, answerIndex: int, explanation: string)
  datatype ShortQuestion = ShortQuestion(question: string, answer: string)
  datatype CodingQuestion = CodingQuestion(prompt: string, constraints: seq<string>,
                                           solutionOutline: seq<string>, tests: seq<string>)

  /** The quiz JSON; a missing list is `None` (`content.mcq?.forEach`). */
  datatype QuizContent = QuizContent(
    mcq: Option<seq<McQuestion>>,
    shortAnswer: Option<seq<ShortQuestion>>,
    coding: Option<seq<CodingQuestion>>)

  datatype Question = Mcq(mcq: McQuestion) | ShortAnswer(short: ShortQuestion) | Coding(coding: CodingQuestion)

  /** The rank of a question's kind in display order. */
  function Rank(q: Question): nat {
    match q
    case Mcq(_) => 0
    case ShortAnswer(_) => 1
    case Coding(_) => 2
  }

  function Items<T>(xs: Option<seq<T>>): seq<T> {
    if xs.Some? then xs.value else []
  }

  /** The `questions` memo: three `forEach` loops pushing every
      multiple-choice question, then every short-answer question, then
      every coding question. */
  method Questions(content: QuizContent) returns (items: seq<Question>)
    ensures |items| == |Items(content.mcq)| + |Items(content.shortAnswer)| + |Items(content.coding)|
    ensures forall i, j :: 0 <= i < j < |items| ==> Rank(items[i]) <= Rank(items[j])
    ensures forall i :: 0 <= i < |Items(content.mcq)| ==> items[i] == Mcq(Items(content.mcq)[i])
    ensures forall i :: 0 <= i < |Items(content.shortAnswer)| ==>
              items[|Items(content.mcq)| + i] == ShortAnswer(Items(content.shortAnswer)[i])
    ensures forall i :: 0 <= i < |Items(content.coding)| ==>
              items[|Items(content.mcq)| + |Items(content.shortAnswer)| + i] == Coding(Items(content.coding)[i])
  {
    var mcq, short, coding := Items(content.mcq), Items(content.shortAnswer), Items(content.coding);
    items := [];
    for i := 0 to |mcq|
      invariant |items| == i
      invariant forall k :: 0 <= k < i ==> items[k] == Mcq(mcq[k])
    {
      items := items + [Mcq(mcq[i])];
    }
    for i := 0 to |short|
      invariant |items| == |mcq| + i
      invariant forall k :: 0 <= k < |mcq| ==> items[k] == Mcq(mcq[k])
      invariant forall k :: 0 <= k < i ==> items[|mcq| + k] == ShortAnswer(short[k])
    {
      items := items + [ShortAnswer(short[i])];
    }
    for i := 0 to |coding|
      invariant |items| == |mcq| + |short| + i
      invariant forall k :: 0 <= k < |mcq| ==> items[k] == Mcq(mcq[k])
      invariant forall k :: 0 <= k < |short| ==> items[|mcq| + k] == ShortAnswer(short[k])
      invariant forall k :: 0 <= k < i ==> items[|mcq| + |short| + k] == Coding(coding[k])
    {
      items := items + [Coding(coding[i])];
    }
    forall k | 0 <= k < |items|
      ensures Rank(items[k]) == if k < |mcq| then 0 else if k < |mcq| + |short| then 1 else 2
    {
      if k < |mcq| {
      } else if k < |mcq| + |short| {
        assert items[k] == ShortAnswer(short[k - |mcq|]);
      } else {
        assert items[k] == Coding(coding[k - |mcq| - |short|]);
      }
    }
  }

  /** A slot of the `answers` array: `null`, a hole left by writing past the
      end (read back as `undefined`), or the reported correctness. */
  datatype Slot = Null | Hole | Answered(correct: bool)

  datatype State = State(current: int, answers: seq<Slot>, finished: bool)

  datatype Action = Answer(index: int, correct: bool) | Next | Prev | Reset(total: nat)

  function Nulls(n: nat): (r: seq<Slot>)
    ensures |r| == n && forall i :: 0 <= i < n ==> r[i] == Null
  {
    if n == 0 then [] else Nulls(n - 1) + [Null]
  }

  /** `answers[index] = correct` on a copy: inside the array it replaces
      one slot; past the end it grows the array with holes; a negative
      index sets a property, not an element. */
  function SetSlot(answers: seq<Slot>, index: int, correct: bool): (r: seq<Slot>)
    ensures 0 <= index < |answers| ==> |r| == |answers|
    ensures index >= |answers| ==> |r| == index + 1
    ensures index < 0 ==> r == answers
    ensures index >= 0 ==> r[index] == Answered(correct)
    ensures forall i :: 0 <= i < |answers| && i != index ==> r[i] == answers[i]
    ensures forall i :: |answers| <= i < |r| && i != index ==> r[i] == Hole
  {
    if index < 0 then answers
    else if index < |answers| then answers[index := Answered(correct)]
    else answers + seq(index - |answers|, _ => Hole) + [Answered(correct)]
  }

  function Reducer(s: State, a: Action): (r: State)
    ensures a.Answer? ==> r.current == s.current && r.finished == s.finished &&
                          r.answers == SetSlot(s.answers, a.index, a.correct)
    ensures a.Next? && s.current + 1 >= |s.answers| ==> r == s.(finished := true)
    ensures a.Next? && s.current + 1 < |s.answers| ==> r == s.(current := s.current + 1)
    ensures a.Prev? ==> r.answers == s.answers && r.finished == s.finished &&
                        r.current == (if s.current >= 1 then s.current - 1 else 0)
    ensures a.Reset? ==> r.current == 0 && !r.finished && r.answers == Nulls(a.total)
  {
    match a
    case Answer(index, correct) => s.(answers := SetSlot(s.answers, index, correct))
    case Next =>
      var next := s.current + 1;
      if next >= |s.answers| then s.(finished := true) else s.(current := next)
    case Prev => s.(current := if 0 >= s.current - 1 then 0 else s.current - 1)
    case Reset(total) => State(0, Nulls(total), false)
  }

  /** The initial state for `n` questions. */
  function Initial(n: nat): State {
    State(0, Nulls(n), false)
  }

  /** The question shown exists. */
  predicate InRange(s: State) {
    0 <= s.current < |s.answers|
  }

  /** The actions the view dispatches: an answer always for the current
      question, a reset with the number of questions. */
  predicate Dispatched(s: State, a: Action, n: nat) {
    (a.Answer? ==> a.index == s.current) && (a.Reset? ==> a.total == n)
  }

  /** For a non-empty quiz every dispatched action keeps the current
      question in range, and answer, next and prev keep the number of
      slots. */
  lemma ReducerKeepsRange(s: State, a: Action, n: nat)
    requires n > 0 && InRange(s) && |s.answers| == n && Dispatched(s, a, n)
    ensures InRange(Reducer(s, a)) && |Reducer(s, a).answers| == n
  {
  }

  /** Any run of dispatched actions from the initial state stays in range. */
  lemma RunKeepsRange(actions: seq<Action>, n: nat)
    requires n > 0
    ensures InRange(Run(Initial(n), actions, n)) && |Run(Initial(n), actions, n).answers| == n
  {
    RunFrom(actions, n, Initial(n));
  }

  lemma {:induction false} RunFrom(actions: seq<Action>, n: nat, s: State)
    requires n > 0 && InRange(s) && |s.answers| == n
    ensures InRange(Run(s, actions, n)) && |Run(s, actions, n).answers| == n
  {
    if actions != [] {
      var s' := Step(s, actions[0], n);
      ReducerKeepsRange(s, DispatchOf(s, actions[0], n), n);
      RunFrom(actions[1..], n, s');
    }
  }

  /** What the view turns a button press into: an answer for the current
      question, a reset for all `n` questions. */
  function DispatchOf(s: State, a: Action, n: nat): (d: Action)
    ensures Dispatched(s, d, n)
  {
    match a
    case Answer(_, correct) => Answer(s.current, correct)
    case Reset(_) => Reset(n)
    case _ => a
  }

  function Step(s: State, a: Action, n: nat): State {
    Reducer(s, DispatchOf(s, a, n))
  }

  function Run(s: State, actions: seq<Action>, n: nat): State
    decreases |actions|
  {
    if actions == [] then s else Run(Step(s, actions[0], n), actions[1..], n)
  }

  /** `answers.filter(a => a === true).length`. */
  function Score(answers: seq<Slot>): (k: nat)
    ensures k <= |answers|
    ensures k == |answers| <==> forall i :: 0 <= i < |answers| ==> answers[i] == Answered(true)
  {
    if answers == [] then 0
    else
      var init := answers[..|answers| - 1];
      assert forall i :: 0 <= i < |init| ==> init[i] == answers[i];
      (if answers[|answers| - 1] == Answered(true) then 1 else 0) + Score(init)
  }

  /** Answering a question in range moves the score by the change of that
      one slot. */
  lemma {:induction false} ScoreAfterAnswer(answers: seq<Slot>, i: nat, correct: bool)
    requires i < |answers|
    ensures Score(answers[i := Answered(correct)]) ==
              Score(answers) - (if answers[i] == Answered(true) then 1 else 0) + (if correct then 1 else 0)
  {
    var n := |answers| - 1;
    var after := answers[i := Answered(correct)];
    assert after[..n] == if i < n then answers[..n][i := Answered(correct)] else answers[..n];
    if i < n {
      ScoreAfterAnswer(answers[..n], i, correct);
    }
  }

  /** A reset clears the score. */
  lemma {:induction false} ScoreOfNulls(n: nat)
    ensures Score(Nulls(n)) == 0
  {
    if n > 0 {
      assert Nulls(n)[..n - 1] == Nulls(n - 1);
      ScoreOfNulls(n - 1);
    }
  }

  /** What the view shows. */
  datatype Screen =
    | NoQuestions
    | Results(correct: nat, total: nat)
    | Asking(index: int, answered: bool, prevDisabled: bool, nextDisabled: bool, lastQuestion: bool)

  /** `answers[current] !== null`: a hole or an index out of range reads as
      `undefined`, which counts as answered. */
  function IsAnswered(s: State): bool {
    !(0 <= s.current < |s.answers|) || s.answers[s.current] != Null
  }

  /** The render: nothing to ask for an empty quiz, the results with the
      score once finished, otherwise the current question with Previous
      disabled on the first one and Next (Finish on the last one) disabled
      until it is answered. */
  function View(n: nat, s: State): (v: Screen)
    ensures n == 0 <==> v.NoQuestions?
    ensures v.Results? <==> n > 0 && s.finished
    ensures v.Results? ==> v.correct == Score(s.answers) && v.total == n
    ensures v.Asking? ==> v.index == s.current && (v.prevDisabled <==> s.current == 0) &&
                          (v.nextDisabled <==> !IsAnswered(s)) && (v.lastQuestion <==> s.current == n - 1)
  {
    if n == 0 then NoQuestions
    else if s.finished then Results(Score(s.answers), n)
    else Asking(s.current, IsAnswered(s), s.current == 0, !IsAnswered(s), s.current == n - 1)
  }
}
