/** Database transactions as the storage layer wraps them: an ordinary error rolls everything back,
    a "commit with error" keeps the writes and still reports the error, and a transaction started
    while another is open is no transaction of its own but simply part of the open one. */
module Transactions {

  datatype TxError<+E> = NoError | Plain(error: E) | CommitWithError(error: E)

  /** What is left, and what the caller hears, once the outermost transaction ends. */
  function Settle<S, E>(before: S, after: S, err: TxError<E>): (S, TxError<E>) {
    if err.Plain? then (before, err) else (after, err)
  }

  /** Programs over a store of type `S`: a write, an early return with an error, two programs in
      sequence (the second runs only when the first returned no error), a transaction around a
      program, and a handler that swallows the error of a program and goes on. */
  datatype Program<!S, E> =
    | Write(f: S -> S)
    | Return(err: TxError<E>)
    | Then(first: Program<S, E>, second: Program<S, E>)
    | Transaction(body: Program<S, E>)
    | Ignore(body: Program<S, E>)

  /** Runs a program on a connection; `open` says whether a transaction is already open on it. */
  function Run<S, E>(p: Program<S, E>, s: S, open: bool): (S, TxError<E>)
    decreases p
  {
    match p
    case Write(f) => (f(s), NoError)
    case Return(err) => (s, err)
    case Then(first, second) =>
      var (mid, err) := Run(first, s, open);
      if err.NoError? then Run(second, mid, open) else (mid, err)
    case Transaction(body) =>
      if open then Run(body, s, true)
      else
        var (after, err) := Run(body, s, true);
        Settle(s, after, err)
    case Ignore(body) =>
      var (after, _) := Run(body, s, open);
      (after, NoError)
  }

  /** The same program without its transaction markers. */
  function Unwrapped<S, E>(p: Program<S, E>): (q: Program<S, E>) {
    match p
    case Write(_) => p
    case Return(_) => p
    case Then(first, second) => Then(Unwrapped(first), Unwrapped(second))
    case Transaction(body) => Unwrapped(body)
    case Ignore(body) => Ignore(Unwrapped(body))
  }

  lemma {:induction false} NestedTransactionsVanish<S, E>(p: Program<S, E>, s: S, open: bool)
    ensures Run(p, s, true) == Run(Unwrapped(p), s, open)
    decreases p
  {
    match p
    case Write(_) =>
    case Return(_) =>
    case Then(first, second) =>
      NestedTransactionsVanish(first, s, open);
      var (mid, err) := Run(first, s, true);
      if err.NoError? { NestedTransactionsVanish(second, mid, open); }
    case Transaction(body) =>
      NestedTransactionsVanish(body, s, open);
    case Ignore(body) =>
      NestedTransactionsVanish(body, s, open);
  }

  /** However deeply transactions are nested, only the error that reaches the outermost one counts:
      the store keeps every write of the whole program when that error is absent or a "commit with
      error", and none of them otherwise; the caller hears the error either way. */
  lemma OutermostErrorDecides<S, E>(p: Program<S, E>, s: S)
    ensures Run(Transaction(p), s, false).1 == Run(Unwrapped(p), s, true).1
    ensures !Run(Unwrapped(p), s, true).1.Plain? ==> Run(Transaction(p), s, false).0 == Run(Unwrapped(p), s, true).0
    ensures Run(Unwrapped(p), s, true).1.Plain? ==> Run(Transaction(p), s, false).0 == s
  {
    NestedTransactionsVanish(p, s, true);
  }
}
