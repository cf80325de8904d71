/** What several of the models share. */
module Common {

  datatype Option<+T> = None | Some(value: T)

  /** The separator of joined keys. */
  const NUL: char := '\0'

  predicate NulFree(s: string) { NUL !in s }

  /** The first NUL splits a joined key, so the parts can be told apart. */
  lemma {:induction false} JoinedKeysDiffer(a: string, b: string, c: string, d: string)
    requires NulFree(a) && NulFree(c) && a + [NUL] + b == c + [NUL] + d
    ensures a == c && b == d
  {
    var left, right := a + [NUL] + b, c + [NUL] + d;
    assert left[|a|] == NUL && right[|c|] == NUL;
    assert forall k :: 0 <= k < |a| ==> left[k] == a[k];
    assert forall k :: 0 <= k < |c| ==> right[k] == c[k];
    assert a == left[..|a|] == right[..|c|] == c;
    assert b == left[|a| + 1..] == right[|c| + 1..] == d;
  }
}
