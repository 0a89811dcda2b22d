/**
 * Values shared by the learner-progress, coaching, explanation, workflow and
 * session models: optional values, the outcome of a call into a collaborator
 * that may raise, chat messages, and the multiple-choice question record.
 */
module Common {

  /** A value that may be absent (a dictionary key that is not set). */
  datatype Option<+T> = None | Some(value: T) {
    /** The value, or `default` when absent (Python's `d.get(key, default)`). */
    function GetOr(default: T): T {
      match this
      case Some(v) => v
      case None => default
    }
  }

  /** The outcome of calling a collaborator that may raise an exception. */
  datatype Outcome<+T> = Ok(value: T) | Raised(error: string)

  /** One chat message handed to the language model: `{"role": …, "content": …}`. */
  datatype Message = Message(role: string, content: string)

  /** A multiple-choice question as produced by the quiz generator. */
  datatype Mcq = Mcq(
    question: string,
    options: seq<string>,
    correctIndex: int,
    explanation: string,
    difficulty: string)
}
