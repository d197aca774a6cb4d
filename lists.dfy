/** Facts about lists shared by the stores and the catalogue. */
module Lists {

  /** `a` is `b` with some elements left out, the rest in their order: what `filter` produces. */
  ghost predicate IsSubsequence<T>(a: seq<T>, b: seq<T>) {
    a == [] || (b != [] && (IsSubsequence(a, b[1..]) || (a[0] == b[0] && IsSubsequence(a[1..], b[1..]))))
  }
}
