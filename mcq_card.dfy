/** `MCQCard`: one multiple-choice question. An option may be selected
    until the answer is revealed; checking the answer reveals it once,
    marks a wrong selection, and reports the correctness to the quiz. */
module McqCard {
  import opened Seqs

  class Card {
    /** The question's `answer_index`. */
    const answerIndex: int
    var selected: Option<int>
    var revealed: bool
    var wrongIndex: Option<int>
    /** Every call of `onAnswer`, in order. */
    var reports: seq<bool>

    ghost predicate Valid()
      reads this
    {
      // the answer is reported exactly when it is revealed, and then once
      (revealed <==> |reports| == 1) && |reports| <= 1 &&
      (revealed ==> selected.Some? && reports[0] == (selected.value == answerIndex)) &&
      // a wrong selection is marked, a right one is not
      (wrongIndex.Some? <==> revealed && selected.value != answerIndex) &&
      (wrongIndex.Some? ==> wrongIndex == selected)
    }

    constructor (answer: int)
      ensures Valid()
      ensures answerIndex == answer && selected == None && !revealed && wrongIndex == None && reports == []
    {
      answerIndex, selected, revealed, wrongIndex, reports := answer, None, false, None, [];
    }

    /** `handleSelect(idx)`: ignored once revealed or while the card is
        disabled. */
    method Select(idx: int, disabled: bool)
      requires Valid()
      modifies this
      ensures Valid()
      ensures revealed || disabled ==> selected == old(selected)
      ensures !(revealed || disabled) ==> selected == Some(idx)
      ensures revealed == old(revealed) && wrongIndex == old(wrongIndex) && reports == old(reports)
    {
      if revealed || disabled {
        return;
      }
      selected := Some(idx);
    }

    /** `handleSubmit()`: ignored without a selection or once revealed;
        otherwise reveals, marks a wrong selection, and reports whether the
        selection is the answer. It does not look at `disabled`. */
    method Submit()
      requires Valid()
      modifies this
      ensures Valid()
      ensures old(revealed) ==> revealed
      ensures old(selected) == None || old(revealed) ==>
                revealed == old(revealed) && wrongIndex == old(wrongIndex) && reports == old(reports)
      ensures old(selected).Some? && !old(revealed) ==>
                revealed && reports == [old(selected).value == answerIndex] &&
                wrongIndex == (if old(selected).value == answerIndex then None else old(selected))
      ensures selected == old(selected)
    {
      if selected == None || revealed {
        return;
      }
      revealed := true;
      var correct := selected.value == answerIndex;
      if !correct {
        wrongIndex := selected;
      }
      reports := reports + [correct];
    }
  }

  /** However the user clicks, `onAnswer` fires at most once, and once the
      answer is revealed it stays revealed and the selection stays put. */
  method Clicks(answer: int, clicks: seq<Option<int>>, disabled: bool) returns (card: Card)
    ensures card.Valid() && |card.reports| <= 1
    ensures card.answerIndex == answer
    ensures card.revealed ==> card.reports == [card.selected.value == answer]
  {
    card := new Card(answer);
    for i := 0 to |clicks|
      invariant card.Valid() && card.answerIndex == answer
    {
      if clicks[i].Some? {
        card.Select(clicks[i].value, disabled);
      } else {
        card.Submit();
      }
    }
  }
}
