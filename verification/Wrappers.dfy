// Result types shared by the other modules.

module Wrappers {

  datatype Option<+T> = None | Some(value: T)

  datatype Result<+T> = Ok(value: T) | Err

  /** Any element of a set, as the iteration over a Go map yields any key next. */
  method Pick<T>(s: set<T>) returns (x: T)
    requires s != {}
    ensures x in s
  {
    x :| x in s;
  }

  /** Taking an element off the set that is left to do adds it to what is done. */
  lemma OneMoreDone<T>(all: set<T>, todo: set<T>, x: T)
    requires todo <= all && x in todo
    ensures x in all && x !in all - todo
    ensures all - (todo - {x}) == (all - todo) + {x}
  {
  }

  lemma InitAndLast<T>(s: seq<T>)
    requires s != []
    ensures s[..|s| - 1] + [s[|s| - 1]] == s
    ensures forall x :: x in s <==> x in s[..|s| - 1] || x == s[|s| - 1]
  {
  }

  lemma Regroup<T>(a: seq<T>, b: seq<T>, c: seq<T>)
    ensures a + b + c == a + (b + c)
  {
  }
}
