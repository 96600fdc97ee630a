/** Small shared vocabulary. */
module Common {

  datatype Option<+T> = None | Some(value: T)

  datatype Result<+T, +E> = Ok(value: T) | Err(error: E)

  /** Code-point order of strings. */
  predicate TextLess(a: string, b: string) {
    if b == [] then false
    else if a == [] then true
    else a[0] < b[0] || (a[0] == b[0] && TextLess(a[1..], b[1..]))
  }

  lemma {:induction false} TextLessTransitive(a: string, b: string, c: string)
    ensures TextLess(a, b) && TextLess(b, c) ==> TextLess(a, c)
    ensures !TextLess(b, a) && !TextLess(c, b) ==> !TextLess(c, a)
  {
    if a == [] || b == [] || c == [] || !(a[0] == b[0] == c[0]) {
    } else {
      TextLessTransitive(a[1..], b[1..], c[1..]);
    }
  }

  lemma {:induction false} TextLessTotal(a: string, b: string)
    ensures TextLess(a, b) ==> !TextLess(b, a)
    ensures a == b || TextLess(a, b) || TextLess(b, a)
  {
    if a == [] || b == [] || a[0] != b[0] {
    } else {
      TextLessTotal(a[1..], b[1..]);
      assert a == [a[0]] + a[1..] && b == [b[0]] + b[1..];
    }
  }

  // ---------------------------------------------------------------- sequences

  lemma Associate<T>(a: seq<T>, b: seq<T>, c: seq<T>)
    ensures a + b + c == a + (b + c)
  {}

  lemma LastApart<T>(a: seq<T>, b: seq<T>)
    requires b != []
    ensures (a + b[..|b| - 1]) + [b[|b| - 1]] == a + b
  {}
}
