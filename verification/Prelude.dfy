/** The result shapes every other module uses, and the first row of an ordered query. */
module Prelude {
  /** A nullable column or an optional return value. */
  datatype Option<+T> = None | Some(value: T)

  /** A call that returns a value or raises. */
  datatype Result<+T, +E> = Ok(value: T) | Err(error: E)

  lemma MinExists(s: set<nat>)
    requires s != {}
    ensures exists m :: m in s && forall x :: x in s ==> m <= x
  {
    var m :| m in s;
    if y :| y in s && y < m {
      var rest := s - {m};
      assert |rest| < |s|;
      MinExists(rest);
      var k :| k in rest && forall x :: x in rest ==> k <= x;
      assert forall x :: x in s ==> x == m || x in rest;
      assert k in s && forall x :: x in s ==> k <= x;
    }
  }

  function MinOf(s: set<nat>): (m: nat)
    requires s != {}
    ensures m in s && forall x :: x in s ==> m <= x
  {
    MinExists(s);
    var m :| m in s && forall x :: x in s ==> m <= x;
    m
  }
}
