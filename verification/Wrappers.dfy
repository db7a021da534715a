/**
 What several models share: an optional value, and thread numbers that are still free.
 */
module Wrappers {
  datatype Option<+T> = None | Some(value: T)

  /** A number outside a finite set, for a thread that has not been seen yet. */
  lemma {:induction false} Fresh(ts: set<nat>) returns (t: nat)
    ensures t !in ts
  {
    t := 0;
    var rest := ts;
    while rest != {}
      invariant forall u :: u in ts && u !in rest ==> u < t
      decreases |rest|
    {
      var u :| u in rest;
      if u >= t {
        t := u + 1;
      }
      rest := rest - {u};
    }
  }
}
