/**
  * Generic facts about sequence concatenation. Stated once over an
  * arbitrary element type, they keep the proofs about byte strings and
  * field lists from re-deriving them in a large context.
  */
module SeqFacts {

  lemma ConsParts<T>(x: T, rest: seq<T>)
    ensures ([x] + rest)[0] == x && ([x] + rest)[1..] == rest
  {
  }

  lemma HeadOfAppend<T>(a: seq<T>, b: seq<T>)
    requires a != []
    ensures a == [a[0]] + a[1..]
    ensures a + b == [a[0]] + (a[1..] + b)
  {
  }

  lemma AppendAssoc<T>(x: seq<T>, y: seq<T>, z: seq<T>)
    ensures x + (y + z) == (x + y) + z
  {
  }

  /** `[o] + e + [c] + rest` with its first element split off. */
  lemma Enclosed<T>(o: T, e: seq<T>, c: T, rest: seq<T>)
    ensures [o] + e + [c] + rest == [o] + (e + [c] + rest)
    ensures ([o] + e + [c] + rest)[1..] == e + [c] + rest
  {
  }
}
