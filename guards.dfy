/**
 * The validating factories are each a fixed-order list of guards: the first
 * guard whose condition fails decides the error that is thrown.
 */
module Guards {
  import opened Wrappers
  import opened Errors

  /** One `if (!ok) throw error` line. */
  datatype Guard = Guard(ok: bool, error: Cause)

  predicate AllPass(guards: seq<Guard>) {
    forall i :: 0 <= i < |guards| ==> guards[i].ok
  }

  /** The error the first failing guard throws, if any guard fails. */
  function FirstFailure(guards: seq<Guard>): (r: Option<Cause>) {
    if |guards| == 0 then None
    else if !guards[0].ok then Some(guards[0].error)
    else FirstFailure(guards[1..])
  }

  /** Guard i is the first one to fail. */
  predicate FailsFirstAt(guards: seq<Guard>, i: int) {
    0 <= i < |guards| && !guards[i].ok && AllPass(guards[..i])
  }

  /** Nothing is thrown exactly when every guard passes; otherwise the error is the first failing guard's. */
  lemma {:induction false} FirstFailureSpec(guards: seq<Guard>)
    ensures FirstFailure(guards).None? <==> AllPass(guards)
    ensures FirstFailure(guards).Some? ==>
      exists i :: FailsFirstAt(guards, i) && FirstFailure(guards).value == guards[i].error
  {
    if |guards| > 0 {
      FirstFailureSpec(guards[1..]);
      if guards[0].ok {
        assert AllPass(guards) <==> AllPass(guards[1..]) by {
          if AllPass(guards[1..]) {
            forall i | 0 <= i < |guards| ensures guards[i].ok {
              if i > 0 { assert guards[i] == guards[1..][i - 1]; }
            }
          }
        }
        if FirstFailure(guards).Some? {
          var j :| FailsFirstAt(guards[1..], j) && FirstFailure(guards[1..]).value == guards[1..][j].error;
          assert guards[..j + 1][1..] == guards[1..][..j];
          assert FailsFirstAt(guards, j + 1);
        }
      } else {
        assert FailsFirstAt(guards, 0);
      }
    }
  }

  /** A guard that fails after all earlier ones passed decides the error. */
  lemma {:induction false} FirstFailureAt(guards: seq<Guard>, i: int)
    requires FailsFirstAt(guards, i)
    ensures FirstFailure(guards) == Some(guards[i].error)
  {
    if i > 0 {
      assert guards[..i][0] == guards[0];
      var tail := guards[1..];
      assert tail[..i - 1] == guards[..i][1..];
      assert FailsFirstAt(tail, i - 1);
      FirstFailureAt(tail, i - 1);
    }
  }
}
