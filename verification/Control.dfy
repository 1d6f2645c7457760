/** Cooperative cancellation: a token linked to its parents, and a deadline on a monotonic clock. */
module Control {
  import opened Models

  datatype Interrupt = WorkloadCancelled | WorkloadTimeout

  class CancellationToken {
    var isSet: bool
    const parent: CancellationToken?
    ghost const depth: nat
    ghost const chain: set<CancellationToken>

    /** The parent chain is finite and acyclic. */
    ghost predicate Valid()
      decreases depth
    {
      && (parent == null ==> chain == {this})
      && (parent != null ==>
            && parent.depth < depth
            && this !in parent.chain
            && chain == parent.chain + {this}
            && parent.Valid())
    }

    constructor (parent: CancellationToken?)
      requires parent != null ==> parent.Valid()
      ensures Valid() && this.parent == parent && !isSet
    {
      this.parent := parent;
      isSet := false;
      depth := if parent == null then 0 else parent.depth + 1;
      chain := if parent == null then {this} else parent.chain + {this};
    }

    predicate Cancelled()
      requires Valid()
      reads chain
      decreases depth
    {
      isSet || (parent != null && parent.Cancelled())
    }

    /** Cancelling a token cancels it for good and leaves the tokens above it as they were. */
    method Cancel()
      requires Valid()
      modifies this
      ensures isSet && Cancelled()
      ensures parent != null ==> parent.Cancelled() == old(parent.Cancelled())
    {
      isSet := true;
    }
  }

  /** A token is cancelled exactly when some token of its chain was set: cancelling a parent
      reaches every token below it. */
  lemma {:induction false} CancelledMeansSomeoneSet(token: CancellationToken)
    requires token.Valid()
    ensures token.Cancelled() <==> exists t :: t in token.chain && t.isSet
    decreases token.depth
  {
    if token.parent == null {
      assert token in token.chain;
    } else {
      CancelledMeansSomeoneSet(token.parent);
      assert token in token.chain;
    }
  }

  class WorkloadContext {
    const token: CancellationToken
    const deadline: real

    constructor (token: CancellationToken, deadline: real)
      ensures this.token == token && this.deadline == deadline
    {
      this.token := token;
      this.deadline := deadline;
    }

    /** Raises at once when cancelled; at or past the deadline it first cancels its own token. */
    method Checkpoint(now: real) returns (raised: Option<Interrupt>)
      requires token.Valid()
      modifies token
      ensures raised == if old(token.Cancelled()) then Some(WorkloadCancelled)
                        else if now >= deadline then Some(WorkloadTimeout)
                        else None
      ensures token.isSet == (old(token.isSet) || raised == Some(WorkloadTimeout))
      ensures token.parent != null ==> token.parent.Cancelled() == old(token.parent.Cancelled())
      ensures raised.None? <==> !token.Cancelled()
    {
      if token.Cancelled() {
        return Some(WorkloadCancelled);
      }
      if now >= deadline {
        token.Cancel();
        return Some(WorkloadTimeout);
      }
      raised := None;
    }

    /** The clock is read twice: once by the checkpoint, once for the difference. A context that
        passes the checkpoint can still report that nothing remains. */
    method RemainingSeconds(checked: real, now: real) returns (r: Result<real, Interrupt>)
      requires token.Valid()
      requires checked <= now
      modifies token
      ensures r.Err? <==> old(token.Cancelled()) || checked >= deadline
      ensures r.Ok? ==> r.value == if now <= deadline then deadline - now else 0.0
      ensures r.Ok? ==> 0.0 <= r.value <= deadline - checked && (r.value == 0.0 <==> now >= deadline)
    {
      var raised := Checkpoint(checked);
      if raised.Some? {
        return Err(raised.value);
      }
      r := Ok(if deadline - now > 0.0 then deadline - now else 0.0);
    }
  }
}
