/** Facts that one event starts and another ends, over a run. */
module History {
  /** `cause` holds at i and nothing ends it up to n. */
  ghost predicate Stands(cause: nat -> bool, ends: nat -> bool, i: nat, n: nat) {
    i <= n && cause(i) && forall j :: i <= j < n ==> !ends(j)
  }

  /** A fact that step k starts, or keeps unless it ends it, holds at n exactly when some
      cause still stands. */
  lemma {:induction false} LastCause(p: nat -> bool, cause: nat -> bool, ends: nat -> bool, n: nat)
    requires p(0) == cause(0)
    requires forall k :: 0 <= k < n ==> (p(k + 1) <==> cause(k + 1) || (p(k) && !ends(k)))
    ensures p(n) <==> exists i :: Stands(cause, ends, i, n)
  {
    if n == 0 {
      assert cause(0) ==> Stands(cause, ends, 0, 0);
    } else {
      LastCause(p, cause, ends, n - 1);
      assert p(n - 1 + 1) <==> cause(n - 1 + 1) || (p(n - 1) && !ends(n - 1));
      if cause(n) {
        assert Stands(cause, ends, n, n);
      } else if p(n) {
        var i :| Stands(cause, ends, i, n - 1);
        assert Stands(cause, ends, i, n);
      } else if i :| Stands(cause, ends, i, n) {
        assert Stands(cause, ends, i, n - 1);
      }
    }
  }
}
