/** Sequences: leaving out an element, and regrouping concatenations, which proofs ask for by name. */
module Sequences {

  lemma Associative<T>(a: seq<T>, b: seq<T>, c: seq<T>)
    ensures a + b + c == a + (b + c)
  {
  }

  lemma Regroup<T>(a: seq<T>, b: seq<T>, c: seq<T>, d: seq<T>)
    ensures a + (b + c) + d == a + (b + (c + d))
    ensures a + b + c + d == a + (b + c + d)
  {
    Associative(a, b + c, d);
    Associative(b, c, d);
    Associative(a, b, c);
  }

  /** The elements without the k-th. */
  function Without<T>(s: seq<T>, k: nat): seq<T>
    requires k < |s|
  {
    s[..k] + s[k + 1..]
  }
}
