/** Exceptions as values: a check either yields a result or fails closed with a reason. */
module Outcome {
  datatype Result<+T> = Ok(value: T) | Err(reason: string)
  {
    predicate IsFailure() { Err? }
    function PropagateFailure<U>(): Result<U>
      requires Err?
    {
      Err(reason)
    }
    function Extract(): T
      requires Ok?
    {
      value
    }
  }

  /** `if not condition: raise`. */
  function Require(condition: bool, reason: string): (r: Result<()>)
    ensures r.Ok? <==> condition
  {
    if condition then Ok(()) else Err(reason)
  }

  datatype Option<+T> = None | Some(value: T)

  /** What a loop that has collected `done` still returns, given the outcome for the rest. */
  function Prepend<T>(done: seq<T>, rest: Result<seq<T>>): Result<seq<T>>
  {
    if rest.Ok? then Ok(done + rest.value) else rest
  }

  lemma PrependEnds<T>(done: seq<T>, rest: Result<seq<T>>)
    ensures Prepend([], rest) == rest && Prepend(done, Ok([])) == Ok(done)
  {
    if rest.Ok? { assert [] + rest.value == rest.value; }
    assert done + [] == done;
  }

  lemma PrependMore<T>(done: seq<T>, next: T, rest: Result<seq<T>>)
    ensures Prepend(done + [next], rest) == Prepend(done, Prepend([next], rest))
  {
    if rest.Ok? { assert (done + [next]) + rest.value == done + ([next] + rest.value); }
  }
}
