/**
 * The re-prompting loops of the program: the same question is asked until an
 * answer is usable. The answers the user types are modelled as a finite
 * sequence; when it runs out before a usable answer the loop has no result.
 */
module Prompts {
  import opened Wrappers

  /** The usable answer and the attempt (counted from 0) that gave it. */
  datatype Answer<T> = Answer(attempt: nat, value: T)

  /** Ask until `read` accepts an answer; every earlier answer was refused. */
  function FirstUsable<T>(answers: seq<string>, read: string -> Option<T>): (r: Option<Answer<T>>)
    ensures r.Some? ==> r.value.attempt < |answers| && read(answers[r.value.attempt]) == Some(r.value.value)
    ensures r.Some? ==> forall j | 0 <= j < r.value.attempt :: read(answers[j]).None?
    ensures r.None? ==> forall j | 0 <= j < |answers| :: read(answers[j]).None?
  {
    if |answers| == 0 then None
    else
      match read(answers[0])
      case Some(v) => Some(Answer(0, v))
      case None =>
        match FirstUsable(answers[1..], read)
        case None => None
        case Some(a) => Some(Answer(a.attempt + 1, a.value))
  }
}
