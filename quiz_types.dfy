/** The records of the quiz: a question as stored in the question bank, a
    question as the quiz screens show it, and the game modes and categories. */
module QuizTypes {

  datatype Option<+T> = None | Some(value: T)

  /** A game mode, as read from the page's `mode` parameter. */
  datatype Mode = Fixed | Survival | Pvp

  datatype Category =
    | CineTV | CulturaGeneral | CienciaTech | Musica | Adivinanzas | Terror | Cocina | Mix

  /** A question-bank record (`PreguntaGlobal`) together with its document id. */
  datatype RawQuestion = RawQuestion(
    id: string,
    text: string,
    correct: string,
    false1: string,
    false2: string,
    category: Category)

  /** A question as the newer quiz screen holds it (`QuizQuestion`). */
  datatype Question = Question(
    id: string,
    questionText: string,
    options: seq<string>,
    correctAnswer: string,
    category: Category)

  /** A question as the older quiz screen builds it: it keeps only the text,
      the options and the correct answer. */
  datatype LegacyQuestion = LegacyQuestion(
    questionText: string,
    options: seq<string>,
    correctAnswer: string)

  function Min(a: int, b: int): int { if a <= b then a else b }

  function Max(a: int, b: int): int { if a >= b then a else b }

  /** No two records share a document id. */
  predicate DistinctIds(qs: seq<RawQuestion>) {
    forall i, j :: 0 <= i < j < |qs| ==> qs[i].id != qs[j].id
  }
}
