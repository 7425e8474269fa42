/** The usual optional value, used where the program has a nil pointer or an empty string; and loops over sets. */
module Wrappers {
  datatype Option<+T> = None | Some(value: T)

  /** Some element of a set: iteration over a map or set takes them in no particular order. */
  method AnyOf<T>(s: set<T>) returns (x: T)
    requires s != {}
    ensures x in s
  {
    x :| x in s;
  }

  /** What is done grows by x as x is taken from what is to do. */
  lemma OneLess<T>(all: set<T>, todo: set<T>, x: T)
    requires todo <= all && x in todo
    ensures (all - todo) + {x} == all - (todo - {x})
  {
  }
}
