/** Strict total orders, the kind of order used both to compare names and to sort group keys. */
module Order {

  /** `less` is irreflexive, transitive and total on K. */
  ghost predicate StrictTotalOrder<K(!new)>(less: (K, K) -> bool)
  {
    && (forall a :: !less(a, a))
    && (forall a, b, c :: less(a, b) && less(b, c) ==> less(a, c))
    && (forall a, b :: a != b ==> less(a, b) || less(b, a))
  }
}
