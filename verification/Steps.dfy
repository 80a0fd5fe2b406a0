/** What is so after a run because it was given at one step and not taken at a later one. */
module Steps {

  ghost predicate GivenAt(gives: nat -> bool, takes: nat -> bool, n: nat, i: nat) {
    i < n && gives(i) && forall j: nat :: i < j < n ==> !takes(j)
  }

  /** Given at a step before n, and not taken since. */
  ghost predicate Since(gives: nat -> bool, takes: nat -> bool, n: nat) {
    exists i: nat :: GivenAt(gives, takes, n, i)
  }

  lemma SinceNext(gives: nat -> bool, takes: nat -> bool, n: nat)
    ensures Since(gives, takes, n + 1) <==> gives(n) || (Since(gives, takes, n) && !takes(n))
  {
    if gives(n) {
      assert GivenAt(gives, takes, n + 1, n);
    } else if Since(gives, takes, n) && !takes(n) {
      var i: nat :| GivenAt(gives, takes, n, i);
      assert GivenAt(gives, takes, n + 1, i);
    }
    if Since(gives, takes, n + 1) {
      var i: nat :| GivenAt(gives, takes, n + 1, i);
      assert i < n ==> GivenAt(gives, takes, n, i) && !takes(n);
    }
  }

  /** What starts out false, and each step gives, takes or leaves. */
  lemma {:induction false} HoldsSince(holds: nat -> bool, gives: nat -> bool, takes: nat -> bool, n: nat)
    requires !holds(0)
    requires forall k: nat :: k < n ==> (holds(k + 1) <==> gives(k) || (holds(k) && !takes(k)))
    ensures holds(n) <==> Since(gives, takes, n)
  {
    if n > 0 {
      HoldsSince(holds, gives, takes, n - 1);
      SinceNext(gives, takes, n - 1);
      assert holds(n - 1 + 1) <==> gives(n - 1) || (holds(n - 1) && !takes(n - 1));
    }
  }

  /** Given at a step before n. */
  ghost predicate Ever(gives: nat -> bool, n: nat) {
    exists i: nat :: i < n && gives(i)
  }

  /** What starts out false, and is for good once given. */
  lemma {:induction false} HoldsOnce(holds: nat -> bool, gives: nat -> bool, n: nat)
    requires !holds(0)
    requires forall k: nat :: k < n ==> (holds(k + 1) <==> holds(k) || gives(k))
    ensures holds(n) <==> Ever(gives, n)
  {
    if n > 0 {
      HoldsOnce(holds, gives, n - 1);
      assert holds(n - 1 + 1) <==> holds(n - 1) || gives(n - 1);
    }
  }

  /** How many of the first n steps are such. */
  function Count(p: nat -> bool, n: nat): nat {
    if n == 0 then 0 else Count(p, n - 1) + if p(n - 1) then 1 else 0
  }
}
