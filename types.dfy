/** Shared data shapes of the quiz-board builder: the screens of the
    navigator, a category of the roster, one question record as it is
    uploaded, authored and handed to the board, and a team. */
module Types {

  /** The four screens the navigator can show, one at a time. */
  datatype Screen = Landing | CategorySetup | ManualEntry | Board

  /** One entry of the category roster.  `questionCount` is a plain number:
      the input that feeds it is not range-checked by the program. */
  datatype Category = Category(name: string, questionCount: int)

  /** One record of a question set, in the shape it is uploaded and exported. */
  datatype QuestionRecord = QuestionRecord(category: string, question: string, answer: string, points: int)

  /** One team of the roster. */
  datatype Team = Team(name: string, score: int)

  datatype Option<+T> = None | Some(value: T)
}
