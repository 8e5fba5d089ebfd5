/** Failure-carrying values and substring search, shared by the component modules. */
module Prelude {
  datatype Option<+T> = None | Some(value: T)

  datatype Result<+T, +E> = Ok(value: T) | Err(error: E)

  predicate OccursAt(text: string, p: int, part: string) {
    0 <= p <= |text| - |part| && text[p..p + |part|] == part
  }

  predicate Contains(text: string, part: string) {
    exists p | 0 <= p <= |text| :: OccursAt(text, p, part)
  }

  lemma ContainsTransitive(a: string, b: string, c: string)
    requires Contains(a, b) && Contains(b, c)
    ensures Contains(a, c)
  {
    var p :| 0 <= p <= |a| && OccursAt(a, p, b);
    var q :| 0 <= q <= |b| && OccursAt(b, q, c);
    forall k | 0 <= k < |c| ensures a[p + q + k] == c[k] {
      assert a[p..p + |b|][q + k] == b[q + k] && b[q..q + |c|][k] == c[k];
    }
    assert a[p + q..p + q + |c|] == c;
    assert OccursAt(a, p + q, c);
  }
}
