/**
 * The question walk of the screener page: the page holds the loaded screener,
 * the index of the question on screen, the answers given so far and the
 * results of the last submission. Clicking an answer option records an answer
 * for the current question of section 0 and either moves on or, after the last
 * question, hands the whole answer list to the submit step; reset clears the
 * walk.
 *
 * `AnswerStep`, `Reset` and `Walk` describe the transitions on values; the
 * class `ScreenerPage` performs them on fields, and the lemmas state what the
 * walk promises.
 */
module ScreenerFlow {
  import opened Wrappers
  import opened Interfaces

  /** The page's state fields. */
  datatype PageState = PageState(
    screener: Option<Screener>,
    currentQuestionIndex: nat,
    answers: seq<Answer>,
    results: Option<ScoreResult>)

  /** What one click on an answer option leads to. */
  datatype AnswerOutcome =
    | Ignored                          // no screener loaded: the handler returns at once
    | Crashed                          // section 0 or its current question is missing: a TypeError before any state is set
    | Advanced                         // the next question is shown
    | Submitted(submitted: seq<Answer>) // the new answer list is handed to submit

  /** The state the page starts in, before the screener arrives. */
  function Initial(): (r: PageState) {
    PageState(None, 0, [], None)
  }

  /** The only questions the page ever walks: those of the first section. */
  function Questions(s: Screener): (r: seq<Question>)
    requires |s.content.sections| > 0
  {
    s.content.sections[0].questions
  }

  /** `handleAnswer(value)` on the page state. */
  function AnswerStep(st: PageState, value: int): (step: (PageState, AnswerOutcome))
    ensures step.1.Ignored? <==> st.screener.None?
    ensures st.screener.None? ==> step.0 == st
    ensures step.1.Crashed? <==>
      st.screener.Some? &&
      (|st.screener.value.content.sections| == 0 || st.currentQuestionIndex >= |Questions(st.screener.value)|)
    ensures step.1.Ignored? || step.1.Crashed? ==> step.0 == st
    ensures step.0.screener == st.screener && step.0.results == st.results
    ensures step.1.Advanced? || step.1.Submitted? ==>
      var qs := Questions(st.screener.value);
      && st.currentQuestionIndex < |qs|
      && step.0.answers == st.answers + [Answer(qs[st.currentQuestionIndex].questionId, value)]
      && (step.1.Submitted? <==> st.currentQuestionIndex == |qs| - 1)
    ensures step.1.Advanced? ==> step.0.currentQuestionIndex == st.currentQuestionIndex + 1
    ensures step.1.Submitted? ==>
      step.0.currentQuestionIndex == st.currentQuestionIndex && step.1.submitted == step.0.answers
  {
    match st.screener
    case None => (st, Ignored)
    case Some(s) =>
      if |s.content.sections| == 0 || st.currentQuestionIndex >= |Questions(s)| then (st, Crashed)
      else
        var qs := Questions(s);
        var newAnswers := st.answers + [Answer(qs[st.currentQuestionIndex].questionId, value)];
        if st.currentQuestionIndex == |qs| - 1 then
          (st.(answers := newAnswers), Submitted(newAnswers))
        else
          (st.(currentQuestionIndex := st.currentQuestionIndex + 1, answers := newAnswers), Advanced)
  }

  /** `handleReset` on the page state. */
  function Reset(st: PageState): (r: PageState) {
    st.(currentQuestionIndex := 0, answers := [], results := None)
  }

  /** A sequence of clicks: the final state and every answer list submitted on the way. */
  function Walk(st: PageState, values: seq<int>): (r: (PageState, seq<seq<Answer>>))
    decreases |values|
  {
    if values == [] then (st, [])
    else
      var step := AnswerStep(st, values[0]);
      var rest := Walk(step.0, values[1..]);
      (rest.0, Emitted(step.1) + rest.1)
  }

  /** The answer list a click hands to submit, if any. */
  function Emitted(outcome: AnswerOutcome): (r: seq<seq<Answer>>) {
    if outcome.Submitted? then [outcome.submitted] else []
  }

  /** One answer per question, in question order, carrying the chosen values. */
  function AnswersFor(qs: seq<Question>, values: seq<int>): (r: seq<Answer>)
    requires |qs| == |values|
    ensures |r| == |qs|
  {
    if qs == [] then [] else [Answer(qs[0].questionId, values[0])] + AnswersFor(qs[1..], values[1..])
  }

  /**
   * The walk invariant: a screener with a first section is loaded, the index is
   * a question of that section, and the answers so far answer exactly the
   * questions before it, in order.
   */
  predicate InProgress(st: PageState) {
    && OnQuestion(st)
    && |st.answers| == st.currentQuestionIndex
    && forall i :: 0 <= i < |st.answers| ==> st.answers[i].questionId == Questions(st.screener.value)[i].questionId
  }

  /** A screener with a first section is loaded and the index names one of its questions. */
  predicate OnQuestion(st: PageState) {
    && st.screener.Some?
    && |st.screener.value.content.sections| > 0
    && st.currentQuestionIndex < |Questions(st.screener.value)|
  }

  // ---------------------------------------------------------------------------
  // Properties
  // ---------------------------------------------------------------------------

  /**
   * One click from inside the walk either advances and keeps the invariant, or,
   * on the last question, submits one answer per question in order.
   */
  lemma AnswerStepKeepsWalk(st: PageState, value: int)
    requires InProgress(st)
    ensures var (next, outcome) := AnswerStep(st, value);
      var qs := Questions(st.screener.value);
      if st.currentQuestionIndex < |qs| - 1 then outcome == Advanced && InProgress(next)
      else
        && outcome.Submitted?
        && |outcome.submitted| == |qs|
        && forall i :: 0 <= i < |qs| ==> outcome.submitted[i].questionId == qs[i].questionId
  {
  }

  /** The walk's first click, then the rest. */
  lemma WalkCons(st: PageState, values: seq<int>)
    requires values != []
    ensures var step := AnswerStep(st, values[0]);
      Walk(st, values) == (Walk(step.0, values[1..]).0, Emitted(step.1) + Walk(step.0, values[1..]).1)
  {
  }

  /** Answer `i` of `AnswersFor` answers question `i` with value `i`. */
  lemma {:induction false} AnswersForAt(qs: seq<Question>, values: seq<int>, i: nat)
    requires |qs| == |values| && i < |qs|
    ensures AnswersFor(qs, values)[i] == Answer(qs[i].questionId, values[i])
    decreases i
  {
    if i > 0 {
      AnswersForAt(qs[1..], values[1..], i - 1);
    }
  }

  /** A click while question `k` of section 0 exists records `value` for that question. */
  lemma StepAt(st: PageState, value: int)
    requires OnQuestion(st)
    ensures var qs := Questions(st.screener.value);
      var k := st.currentQuestionIndex;
      var recorded := st.answers + [Answer(qs[k].questionId, value)];
      AnswerStep(st, value) ==
        if k < |qs| - 1 then (st.(currentQuestionIndex := k + 1, answers := recorded), Advanced)
        else (st.(answers := recorded), Submitted(recorded))
  {
  }

  /** The state reached by clicks that stop short of the last question, with nothing submitted. */
  lemma {:induction false} WalkShortState(st: PageState, values: seq<int>)
    requires OnQuestion(st)
    requires st.currentQuestionIndex + |values| < |Questions(st.screener.value)|
    ensures Walk(st, values) ==
      (st.(currentQuestionIndex := st.currentQuestionIndex + |values|,
           answers := st.answers + AnswersFor(Questions(st.screener.value)[st.currentQuestionIndex..st.currentQuestionIndex + |values|], values)),
       [])
    decreases |values|
  {
    var k := st.currentQuestionIndex;
    var qs := Questions(st.screener.value);
    var window := qs[k..k + |values|];
    if values == [] {
      assert AnswersFor(window, values) == [];
      assert st.answers + [] == st.answers;
    } else {
      var first := Answer(qs[k].questionId, values[0]);
      var next := st.(currentQuestionIndex := k + 1, answers := st.answers + [first]);
      assert AnswerStep(st, values[0]) == (next, Advanced) by { StepAt(st, values[0]); }
      assert Walk(st, values) == Walk(next, values[1..]) by {
        WalkCons(st, values);
        assert [] + Walk(next, values[1..]).1 == Walk(next, values[1..]).1;
      }
      var rest := AnswersFor(qs[k + 1..k + |values|], values[1..]);
      assert Walk(next, values[1..]) == (next.(currentQuestionIndex := k + |values|, answers := next.answers + rest), []) by {
        WalkShortState(next, values[1..]);
        assert Questions(next.screener.value) == qs;
      }
      assert AnswersFor(window, values) == [first] + rest by {
        assert window[1..] == qs[k + 1..k + |values|];
      }
      assert next.answers + rest == st.answers + AnswersFor(window, values);
      assert next.(currentQuestionIndex := k + |values|, answers := next.answers + rest) ==
        st.(currentQuestionIndex := k + |values|, answers := st.answers + AnswersFor(window, values));
    }
  }

  /**
   * Clicks that stop short of the last question submit nothing, keep the walk
   * going, and record one answer per clicked question, in order.
   */
  lemma WalkShort(st: PageState, values: seq<int>)
    requires InProgress(st)
    requires st.currentQuestionIndex + |values| < |Questions(st.screener.value)|
    ensures Walk(st, values).1 == []
    ensures InProgress(Walk(st, values).0)
    ensures Walk(st, values).0.currentQuestionIndex == st.currentQuestionIndex + |values|
    ensures Walk(st, values).0.answers[..st.currentQuestionIndex] == st.answers
    ensures Walk(st, values).0.answers[st.currentQuestionIndex..] ==
      AnswersFor(Questions(st.screener.value)[st.currentQuestionIndex..st.currentQuestionIndex + |values|], values)
  {
    var k := st.currentQuestionIndex;
    var qs := Questions(st.screener.value);
    var added := AnswersFor(qs[k..k + |values|], values);
    var final := st.(currentQuestionIndex := k + |values|, answers := st.answers + added);
    assert Walk(st, values) == (final, []) by { WalkShortState(st, values); }
    assert final.answers[..k] == st.answers && final.answers[k..] == added;
    assert InProgress(final) by {
      forall i | 0 <= i < |final.answers|
        ensures final.answers[i].questionId == qs[i].questionId
      {
        if i < k {
          assert final.answers[i] == st.answers[i];
        } else {
          assert final.answers[i] == added[i - k];
          AnswersForAt(qs[k..k + |values|], values, i - k);
          assert qs[k..k + |values|][i - k] == qs[i];
        }
      }
    }
  }

  /**
   * Answering every remaining question submits exactly once, at the last
   * question, the answers so far followed by one answer per remaining question;
   * the index stays on the last question.
   */
  lemma {:induction false} WalkToEnd(st: PageState, values: seq<int>)
    requires OnQuestion(st)
    requires st.currentQuestionIndex + |values| == |Questions(st.screener.value)|
    ensures Walk(st, values).1 ==
      [st.answers + AnswersFor(Questions(st.screener.value)[st.currentQuestionIndex..], values)]
    ensures Walk(st, values).0 ==
      st.(currentQuestionIndex := |Questions(st.screener.value)| - 1,
          answers := st.answers + AnswersFor(Questions(st.screener.value)[st.currentQuestionIndex..], values))
    decreases |values|
  {
    var k := st.currentQuestionIndex;
    var qs := Questions(st.screener.value);
    StepAt(st, values[0]);
    var first := Answer(qs[k].questionId, values[0]);
    var all := st.answers + AnswersFor(qs[k..], values);
    assert qs[k..][1..] == qs[k + 1..];
    var rest := AnswersFor(qs[k + 1..], values[1..]);
    assert all == (st.answers + [first]) + rest;
    WalkCons(st, values);
    if |values| == 1 {
      var next := st.(answers := st.answers + [first]);
      assert AnswerStep(st, values[0]) == (next, Submitted(st.answers + [first]));
      assert Walk(next, values[1..]) == (next, []);
      assert rest == [] && all == st.answers + [first];
      assert Walk(st, values).1 == [all] + [];
    } else {
      var next := st.(currentQuestionIndex := k + 1, answers := st.answers + [first]);
      assert AnswerStep(st, values[0]) == (next, Advanced);
      WalkToEnd(next, values[1..]);
      assert Walk(st, values).0 == Walk(next, values[1..]).0;
      assert Walk(st, values).1 == [] + Walk(next, values[1..]).1;
    }
  }

  /** The state after the screener arrives, or after a reset. */
  function Fresh(s: Screener): (r: PageState) {
    PageState(Some(s), 0, [], None)
  }

  /**
   * From a fresh page, one click per question of section 0 submits once, after
   * the last click, one answer per question in question order.
   */
  lemma FullWalkSubmitsAllAnswers(s: Screener, values: seq<int>)
    requires |s.content.sections| > 0 && |Questions(s)| > 0
    requires |values| == |Questions(s)|
    ensures Walk(Fresh(s), values).1 == [AnswersFor(Questions(s), values)]
    ensures Walk(Fresh(s), values).0 ==
      Fresh(s).(currentQuestionIndex := |Questions(s)| - 1, answers := AnswersFor(Questions(s), values))
  {
    assert InProgress(Fresh(s));
    WalkToEnd(Fresh(s), values);
    assert Questions(s)[0..] == Questions(s);
    assert [] + AnswersFor(Questions(s), values) == AnswersFor(Questions(s), values);
  }

  /**
   * The submit step does not move the page off the question screen until its
   * results arrive, so a further click on the last question submits again,
   * now with one answer more than there are questions.
   */
  lemma ResubmitAfterLast(s: Screener, values: seq<int>, extra: int)
    requires |s.content.sections| > 0 && |Questions(s)| > 0
    requires |values| == |Questions(s)|
    ensures var qs := Questions(s);
      var final := Walk(Fresh(s), values).0;
      AnswerStep(final, extra).1 ==
        Submitted(AnswersFor(qs, values) + [Answer(qs[|qs| - 1].questionId, extra)])
  {
    var qs := Questions(s);
    var final := Fresh(s).(currentQuestionIndex := |qs| - 1, answers := AnswersFor(qs, values));
    assert Walk(Fresh(s), values).0 == final by { FullWalkSubmitsAllAnswers(s, values); }
    StepAt(final, extra);
  }

  /** Reset returns any loaded page to the start of the walk: question 0, no answers, no results. */
  lemma ResetStartsWalk(st: PageState)
    requires st.screener.Some?
    ensures Reset(st) == Fresh(st.screener.value)
    ensures InProgress(Reset(st)) <==>
      |st.screener.value.content.sections| > 0 && |Questions(st.screener.value)| > 0
  {
  }

  /** Only section 0 is walked: screeners that agree on it give the same clicks the same effect. */
  lemma OnlyFirstSectionMatters(st: PageState, other: Screener, value: int)
    requires st.screener.Some? && |st.screener.value.content.sections| > 0
    requires |other.content.sections| > 0 && Questions(other) == Questions(st.screener.value)
    ensures var (a, oa) := AnswerStep(st, value);
      var (b, ob) := AnswerStep(st.(screener := Some(other)), value);
      oa == ob && b == a.(screener := Some(other))
  {
  }

  // ---------------------------------------------------------------------------
  // The page component
  // ---------------------------------------------------------------------------

  /** The screener page with its state hooks as fields. */
  class ScreenerPage {
    var screener: Option<Screener>
    var currentQuestionIndex: nat
    var answers: seq<Answer>
    var results: Option<ScoreResult>

    /** The four modelled hooks as one value. */
    function State(): (r: PageState)
      reads this
    {
      PageState(screener, currentQuestionIndex, answers, results)
    }

    /** The initial hook values: no screener, question 0, no answers, no results. */
    constructor ()
      ensures State() == Initial()
    {
      screener := None;
      currentQuestionIndex := 0;
      answers := [];
      results := None;
    }

    /** The screener data arriving from the load effect. */
    method ScreenerLoaded(data: Screener)
      modifies this
      ensures State() == old(State()).(screener := Some(data))
    {
      screener := Some(data);
    }

    /**
     * `handleAnswer`: append the answer for the current question of section 0,
     * then submit after the last question or move to the next one.
     */
    method HandleAnswer(value: int) returns (outcome: AnswerOutcome)
      modifies this
      ensures (State(), outcome) == AnswerStep(old(State()), value)
    {
      if screener.None? {
        return Ignored;
      }
      var sections := screener.value.content.sections;
      if |sections| == 0 || currentQuestionIndex >= |sections[0].questions| {
        return Crashed;
      }
      var section := sections[0];
      var question := section.questions[currentQuestionIndex];
      var newAnswers := answers + [Answer(question.questionId, value)];
      answers := newAnswers;
      if currentQuestionIndex == |section.questions| - 1 {
        outcome := Submitted(newAnswers);
      } else {
        currentQuestionIndex := currentQuestionIndex + 1;
        outcome := Advanced;
      }
    }

    /** The submit step's successful reply being stored. */
    method SubmitSucceeded(result: ScoreResult)
      modifies this
      ensures State() == old(State()).(results := Some(result))
    {
      results := Some(result);
    }

    /** `handleReset`: back to question 0 with no answers and no results. */
    method HandleReset()
      modifies this
      ensures State() == Reset(old(State()))
    {
      currentQuestionIndex := 0;
      answers := [];
      results := None;
    }
  }
}
