/**
 * The record shapes exchanged by the screener client and the scoring service.
 * Answer values, answer-option values and thresholds are integer choices.
 */
module Interfaces {

  /** One submitted answer: the question it answers and the chosen option's value. */
  datatype Answer = Answer(questionId: string, value: int)

  /** A row of the domain mapping table: the question contributes to `domain`. */
  datatype DomainMapping = DomainMapping(questionId: string, domain: string)

  /** A row of the assessment criteria table. */
  datatype AssessmentCriteria = AssessmentCriteria(domain: string, threshold: int, assessment: string)

  /** What the scoring endpoint returns and the client stores: `{ results: string[] }`. */
  datatype ScoreResult = ScoreResult(results: seq<string>)

  datatype AnswerOption = AnswerOption(title: string, value: int)

  datatype Question = Question(questionId: string, title: string)

  datatype Section = Section(
    sectionType: string,
    title: string,
    answers: seq<AnswerOption>,
    questions: seq<Question>)

  datatype Content = Content(sections: seq<Section>, displayName: string)

  datatype Screener = Screener(
    id: string,
    name: string,
    disorder: string,
    content: Content,
    fullName: string)
}
