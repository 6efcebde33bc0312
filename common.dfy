/** Small shared definitions used by every component of the birthday page. */
module Common {

  /** The numeric id the page builds from `Date.now()` plus random jitter.
      The model only ever compares ids for equality, so any type with
      equality serves; uniqueness is never assumed unless a lemma asks for it. */
  type Id = int

  /** A nullable value, such as the lightbox's focused index. */
  datatype Option<T> = None | Some(value: T)

  /** Multiplication by a natural number is monotone. */
  lemma {:induction false} MulMono(a: nat, b: nat, m: nat)
    requires a <= b
    ensures a * m <= b * m
  {
    if a < b {
      MulMono(a, b - 1, m);
      assert (b - 1) * m + m == b * m;
    }
  }
}
