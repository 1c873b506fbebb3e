/** Optional values, coded failures and facts about finite sets shared by every component of the model. */
module Wrappers {

  datatype Option<+T> = None | Some(value: T)

  /** A JavaScript call that either returns or throws an error carrying a code. */
  datatype Result<+T, +E> = Ok(value: T) | Err(error: E)

  function Min(a: int, b: int): int {
    if a <= b then a else b
  }

  function Max(a: int, b: int): int {
    if a >= b then a else b
  }

  lemma SubsetIsSmaller<T>(a: set<T>, b: set<T>)
    requires a <= b
    ensures |a| <= |b|
  {
    assert b == a + (b - a);
  }

  /** A loop over a set has visited one element more. */
  lemma OneLess<T>(all: set<T>, todo: set<T>, x: T)
    requires todo <= all && x in todo
    ensures all - (todo - {x}) == (all - todo) + {x} && |todo - {x}| < |todo|
  {
  }
}
