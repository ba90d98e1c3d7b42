/** Facts about sequence concatenation that the proofs about text and property lists share. */
module SeqLemmas {
  /** Concatenation is associative. */
  lemma Assoc<T>(a: seq<T>, b: seq<T>, c: seq<T>)
    ensures a + b + c == a + (b + c)
  {
  }

  /** Moving the first element of `xs` onto the end of `acc`. */
  lemma ShiftFirst<T>(acc: seq<T>, xs: seq<T>)
    requires xs != []
    ensures acc + [xs[0]] + xs[1..] == acc + xs
    ensures |xs| == 1 ==> acc + [xs[0]] == acc + xs
  {
    assert [xs[0]] + xs[1..] == xs;
  }
}
