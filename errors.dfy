/**
 * Error values of the storage layer. Go builds them by wrapping a root
 * cause with `fmt.Errorf("%s: %w", context, err)`; callers classify them
 * with `errors.Is`, which walks the wrapping chain.
 */
module Errors {

  /** The sentinel errors of package internal/storage (imported as `er`). */
  datatype Sentinel =
    | ErrInvalidTaskData
    | ErrInvalidDeveloperData
    | ErrDeveloperNotFound
    | ErrReportNotFound
    | ErrProjectNotFound

  /** Failures raised beneath the repository, by database/sql or the PostgreSQL server. */
  datatype DriverError =
    | ErrNoRows                      // sql.ErrNoRows: QueryRow(...).Scan saw no row
    | ArgCount(want: nat, got: nat)  // database/sql: the statement has `want` placeholders, `got` values were bound
    | SyntaxError                    // the server rejected the statement text when it was prepared
    | UniqueViolation                // an INSERT repeated a primary key
    | ScanError                      // Scan could not convert a column's value to its destination's type
    | Unavailable                    // connection loss, timeout or any other I/O failure

  datatype Cause = Sentinel(sentinel: Sentinel) | Driver(driver: DriverError)

  /** A root cause under zero or more wrapping contexts. */
  datatype Error = Leaf(cause: Cause) | Wrapped(context: string, inner: Error)

  /** The cause at the bottom of the wrapping chain. */
  function Root(e: Error): Cause {
    match e
    case Leaf(c) => c
    case Wrapped(_, inner) => Root(inner)
  }

  /**
   * errors.Is(e, target) for a sentinel target: some link of the chain is
   * the target itself. A wrapping link is a fresh value and never equals a
   * sentinel, so only the leaf can match.
   */
  predicate Is(e: Error, target: Cause) {
    match e
    case Leaf(c) => c == target
    case Wrapped(_, inner) => Is(inner, target)
  }

  /** `fmt.Errorf("%s: %w", context, cause)`. */
  function Fail(context: string, cause: Cause): Error {
    Wrapped(context, Leaf(cause))
  }

  /** errors.Is answers "yes" for exactly one sentinel: the root cause. */
  lemma {:induction false} IsRoot(e: Error, target: Cause)
    ensures Is(e, target) <==> Root(e) == target
  {
    match e
    case Leaf(_) =>
    case Wrapped(_, inner) => IsRoot(inner, target);
  }
}
