/** The records the pipeline passes between its stages. */
module Domain {
  /**
   * One entry of the vacancy list. A key missing from the JSON object
   * reads as the empty list, as the program's `vacancy.get(key, [])` does.
   */
  datatype Vacancy = Vacancy(
    id: string,
    title: string,
    requirements: seq<string>,
    duties: seq<string>,
    questions: seq<string>)

  /** One interview turn as conduct_interview records it; duration in seconds. */
  datatype AnswerRecord = AnswerRecord(question: string, answer: string, duration: real)
}
