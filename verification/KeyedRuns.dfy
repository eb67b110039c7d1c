/**
 A table of independent per-key states, as both rate limiters keep one: a request reads and
 replaces the state of its own key only. What one key experiences is then exactly what it
 would experience alone.
 */
module KeyedRuns {
  import opened Common

  datatype Request<I> = Request(key: string, input: I)

  function Lookup<S>(table: map<string, S>, key: string): Option<S> {
    if key in table then Some(table[key]) else None
  }

  function TableAfter<S, I, O>(table: map<string, S>, requests: seq<Request<I>>, step: (Option<S>, I) -> (S, O))
    : map<string, S>
  {
    if requests == [] then table
    else
      var before := TableAfter(table, requests[..|requests| - 1], step);
      var r := requests[|requests| - 1];
      before[r.key := step(Lookup(before, r.key), r.input).0]
  }

  /** The answers given to `key` among all the requests. */
  function Answers<S, I, O>(table: map<string, S>, requests: seq<Request<I>>, step: (Option<S>, I) -> (S, O), key: string)
    : seq<O>
  {
    if requests == [] then []
    else
      var init, r := requests[..|requests| - 1], requests[|requests| - 1];
      Answers(table, init, step, key)
      + if r.key == key then [step(Lookup(TableAfter(table, init, step), key), r.input).1] else []
  }

  function Inputs<I>(requests: seq<Request<I>>, key: string): seq<I> {
    if requests == [] then []
    else
      var r := requests[|requests| - 1];
      Inputs(requests[..|requests| - 1], key) + if r.key == key then [r.input] else []
  }

  function StateAfter<S, I, O>(state: Option<S>, inputs: seq<I>, step: (Option<S>, I) -> (S, O)): Option<S> {
    if inputs == [] then state
    else Some(step(StateAfter(state, inputs[..|inputs| - 1], step), inputs[|inputs| - 1]).0)
  }

  function Outputs<S, I, O>(state: Option<S>, inputs: seq<I>, step: (Option<S>, I) -> (S, O)): (r: seq<O>)
    ensures |r| == |inputs|
  {
    if inputs == [] then []
    else
      var init := inputs[..|inputs| - 1];
      Outputs(state, init, step) + [step(StateAfter(state, init, step), inputs[|inputs| - 1]).1]
  }

  /** Keys do not affect each other: each sees the run of its own requests from its own initial state. */
  lemma {:induction false} KeysAreIndependent<S, I, O>(
    table: map<string, S>, requests: seq<Request<I>>, step: (Option<S>, I) -> (S, O), key: string)
    ensures Lookup(TableAfter(table, requests, step), key) == StateAfter(Lookup(table, key), Inputs(requests, key), step)
    ensures Answers(table, requests, step, key) == Outputs(Lookup(table, key), Inputs(requests, key), step)
  {
    if requests != [] {
      var init, r := requests[..|requests| - 1], requests[|requests| - 1];
      KeysAreIndependent(table, init, step, key);
      var past := Inputs(init, key);
      if r.key == key {
        assert Inputs(requests, key) == past + [r.input];
        assert (past + [r.input])[..|past|] == past;
      } else {
        assert Inputs(requests, key) == past;
        assert Answers(table, requests, step, key) == Answers(table, init, step, key);
      }
    }
  }
}
