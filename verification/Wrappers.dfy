/** Optional and failing results, and histories that grow at their end. */
module Wrappers {
  datatype Option<+T> = None | Some(value: T)

  datatype Result<+T, +E> = Ok(value: T) | Err(error: E) {
    function Failure(): Option<E> { if Err? then Some(error) else None }
  }

  datatype History<T> = Start | Then(before: History<T>, last: T) {
    function Plus(more: History<T>): History<T> {
      match more
      case Start => this
      case Then(b, x) => Then(Plus(b), x)
    }

    function Length(): nat {
      match this
      case Start => 0
      case Then(b, _) => b.Length() + 1
    }

    ghost predicate HasPrefix(p: History<T>) {
      p == this || (Then? && before.HasPrefix(p))
    }
  }

  function One<T>(x: T): History<T> { Then(Start, x) }

  lemma PlusAssociates<T>(a: History<T>, b: History<T>, c: History<T>)
    ensures a.Plus(b.Plus(c)) == a.Plus(b).Plus(c)
  {
  }
}
