/** A list of conditions asked one after the other, each with the error of not meeting it. */
module Checks {
  import opened Common

  datatype Check<+E> = Check(passed: bool, error: E)

  ghost predicate AllPassed<E>(checks: seq<Check<E>>) {
    forall k :: 0 <= k < |checks| ==> checks[k].passed
  }

  /** Check `k` is the first that fails. */
  ghost predicate FailsAt<E>(checks: seq<Check<E>>, k: int) {
    0 <= k < |checks| && !checks[k].passed && forall j :: 0 <= j < k ==> checks[j].passed
  }

  /** The error is that of the first check that fails, and there is none if all pass. */
  ghost predicate Tells<E>(checks: seq<Check<E>>, error: Option<E>) {
    match error
    case None => AllPassed(checks)
    case Some(e) => exists k :: FailsAt(checks, k) && checks[k].error == e
  }

  /** Checks asked one list after the other. */
  lemma TellsTogether<E>(a: seq<Check<E>>, b: seq<Check<E>>, error: Option<E>)
    requires (error.Some? && Tells(a, error)) || (Tells(a, None) && Tells(b, error))
    ensures Tells(a + b, error)
  {
    if error.Some? && Tells(a, error) {
      var k :| FailsAt(a, k) && a[k].error == error.value;
      assert FailsAt(a + b, k);
    } else if error.Some? {
      var k :| FailsAt(b, k) && b[k].error == error.value;
      assert FailsAt(a + b, |a| + k);
    }
  }

  /** One check more in front. */
  lemma TellsFirst<E>(first: Check<E>, rest: seq<Check<E>>, error: Option<E>)
    requires if first.passed then Tells(rest, error) else error == Some(first.error)
    ensures Tells([first] + rest, error)
  {
    if !first.passed {
      assert FailsAt([first], 0);
      assert Tells([first], error);
    }
    TellsTogether([first], rest, error);
  }
}
