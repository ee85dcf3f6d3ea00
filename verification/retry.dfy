/** The bounded retry loops of the cookie fetcher
    (internal/browser/chrome_fetcher.go) and of the account loader
    (cmd/server/main.go), run sequentially: attempt `k` (counted from 1) has
    an outcome given by the caller, and the sleeps between attempts are left
    out. */
module Retry {
  import opened Wrappers

  /** Both loops try at most three times. */
  const MaxAttempts: nat := 3

  /** Attempts `k`, `k + 1`, ... up to `limit`, stopping at the first success;
      the outcome returned is the one of the last attempt made, and the number
      is how many were made in all. */
  function From<T>(attempt: nat -> Result<T, string>, k: nat, limit: nat): (r: (Result<T, string>, nat))
    requires 1 <= k <= limit
    ensures k <= r.1 <= limit && r.0 == attempt(r.1)
    ensures forall j :: k <= j < r.1 ==> attempt(j).Err?
    ensures r.0.Err? ==> r.1 == limit
    decreases limit - k
  {
    if attempt(k).Ok? || k == limit then (attempt(k), k)
    else From(attempt, k + 1, limit)
  }

  /** Up to `MaxAttempts` attempts: the outcome and the number of attempts made. */
  function Attempts<T>(attempt: nat -> Result<T, string>): (r: (Result<T, string>, nat))
    ensures 1 <= r.1 <= MaxAttempts && r.0 == attempt(r.1)
    ensures forall j :: 1 <= j < r.1 ==> attempt(j).Err?
    ensures r.0.Err? ==> r.1 == MaxAttempts
  {
    From(attempt, 1, MaxAttempts)
  }

  /** The loop succeeds exactly when one of the first three attempts does, and
      then with the first success. */
  lemma {:induction false} AttemptsFindFirstSuccess<T>(attempt: nat -> Result<T, string>, k: nat)
    requires 1 <= k <= MaxAttempts && attempt(k).Ok?
    requires forall j :: 1 <= j < k ==> attempt(j).Err?
    ensures Attempts(attempt) == (attempt(k), k)
  {
  }
}
