/** Facts about sequence concatenation shared by the event traces and the
    metadata lists. */
module Seqs {

  lemma AppendAssoc<T>(a: seq<T>, b: seq<T>, c: seq<T>)
    ensures (a + b) + c == a + (b + c)
  {
  }

  /** Appending `tail` after `t0 + p` is appending `p + tail` after `t0`. */
  lemma AppendChain<T>(t0: seq<T>, t1: seq<T>, t2: seq<T>, p: seq<T>, q: seq<T>, tail: seq<T>)
    requires t1 == t0 + p && t2 == t1 + tail && q == p + tail
    ensures t2 == t0 + q
  {
    AppendAssoc(t0, p, tail);
  }
}
