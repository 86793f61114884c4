/** Sequence steps that proofs spell out. */
module Sequences {
  lemma Assoc<T>(a: seq<T>, b: seq<T>, c: seq<T>)
    ensures (a + b) + c == a + (b + c)
  {
  }

  /** Appending, seen from the first element. */
  lemma SnocFirst<T>(a: seq<T>, x: T)
    ensures a == [] ==> a + [x] == [x]
    ensures a != [] ==> (a + [x])[0] == a[0] && (a + [x])[1..] == a[1..] + [x]
  {
  }

  lemma NoneLeft<T>(x: T)
    ensures [x][1..] == []
  {
  }
}
