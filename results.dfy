/** Failure-carrying values shared by the adapter and the archiver. */
module Results {

  /** A value or an error message, as a Go `(T, error)` pair is used. */
  datatype Result<+T> = Ok(value: T) | Err(msg: string)

  datatype Option<+T> = None | Some(value: T)

  /** The calls a step issued, in order, and the error that ended it (None when it ran to completion). */
  datatype Trace<+O> = Trace(ops: seq<O>, err: Option<string>)

  /** `first`, and then `next` only when `first` ran to completion. */
  function Then<O>(first: Trace<O>, next: Trace<O>): Trace<O>
  {
    if first.err.Some? then first else Trace(first.ops + next.ops, next.err)
  }

  /** Concatenation regroups freely. */
  lemma AppendAssoc<T>(a: seq<T>, b: seq<T>, c: seq<T>)
    ensures a + (b + c) == a + b + c
  {
  }

  /** `errors.Wrap(err, context)`: the context, a colon and the wrapped message. */
  function Wrap(context: string, msg: string): string
  {
    context + ": " + msg
  }

  /** `keys` lists every key of a Go map exactly once: the order a `range` loop visits them in. */
  ghost predicate Enumerates<K(!new)>(order: seq<K>, keys: set<K>)
  {
    && (forall i, j :: 0 <= i < j < |order| ==> order[i] != order[j])
    && (forall k :: k in order <==> k in keys)
  }
}
