/**
 The order lifecycle: which status changes `updateOrderStatus` accepts, the
 same rule written as an explicit transition table, and what follows for runs
 of successive transitions.
 */
module Lifecycle {
  import opened Models

  /**
   `isValidStatusTransition`: staying in the same status is always allowed;
   otherwise PENDING may move to SHIPPED or CANCELLED, SHIPPED only to
   DELIVERED, and DELIVERED and CANCELLED nowhere.
   */
  predicate IsValidStatusTransition(current: OrderStatus, next: OrderStatus)
    ensures IsValidStatusTransition(current, next) <==> (current, next) in TransitionTable
    ensures IsValidStatusTransition(current, next) && current != next ==> Stage(current) < Stage(next)
  {
    if current == next then DiagonalInTable(current); true
    else
      match current
      case Pending => next == Shipped || next == Cancelled
      case Shipped => next == Delivered
      case Delivered => false
      case Cancelled => false
  }

  /** The transition table, one pair (current, next) per allowed move. */
  const TransitionTable: set<(OrderStatus, OrderStatus)> :=
    { (Pending, Pending), (Pending, Shipped), (Pending, Cancelled),
      (Shipped, Shipped), (Shipped, Delivered),
      (Delivered, Delivered),
      (Cancelled, Cancelled) }

  /** The table lets every status stay where it is. */
  lemma DiagonalInTable(s: OrderStatus)
    ensures (s, s) in TransitionTable
  {
  }

  /** A transition to the same status is always valid. */
  lemma SameStatusIsValid(s: OrderStatus)
    ensures IsValidStatusTransition(s, s)
  {
  }

  /** From PENDING the valid targets are PENDING, SHIPPED and CANCELLED; DELIVERED is not one. */
  lemma PendingTargets(next: OrderStatus)
    ensures IsValidStatusTransition(Pending, next) <==> next != Delivered
  {
  }

  /** From SHIPPED the only valid different target is DELIVERED. */
  lemma ShippedTargets(next: OrderStatus)
    ensures IsValidStatusTransition(Shipped, next) <==> next == Shipped || next == Delivered
  {
  }

  /** A status with no way out except to itself. */
  predicate IsTerminal(s: OrderStatus)
  {
    forall next: OrderStatus :: IsValidStatusTransition(s, next) ==> next == s
  }

  /** DELIVERED and CANCELLED are the terminal statuses, and the only ones. */
  lemma TerminalStatuses(s: OrderStatus)
    ensures IsTerminal(s) <==> s == Delivered || s == Cancelled
  {
    if s == Pending {
      assert IsValidStatusTransition(s, Shipped);
    } else if s == Shipped {
      assert IsValidStatusTransition(s, Delivered);
    }
  }

  /** No different status can move into PENDING: it is only ever the initial status. */
  lemma PendingIsInitialOnly(current: OrderStatus)
    ensures IsValidStatusTransition(current, Pending) <==> current == Pending
  {
  }

  /** How far along the happy path a status is; both terminal statuses sit at the end. */
  function Stage(s: OrderStatus): nat
  {
    match s
    case Pending => 0
    case Shipped => 1
    case Delivered => 2
    case Cancelled => 2
  }

  /** Every valid change of status moves strictly forward. */
  lemma TransitionsMoveForward(current: OrderStatus, next: OrderStatus)
    requires IsValidStatusTransition(current, next)
    ensures current != next ==> Stage(current) < Stage(next)
    ensures Stage(current) <= Stage(next)
  {
  }

  /** A sequence of statuses in which every step is a valid transition. */
  predicate IsRun(run: seq<OrderStatus>)
  {
    forall i :: 0 <= i < |run| - 1 ==> IsValidStatusTransition(run[i], run[i + 1])
  }

  /** Along a run the stage never goes back. */
  lemma {:induction false} RunStagesGrow(run: seq<OrderStatus>, i: nat, j: nat)
    requires IsRun(run)
    requires i <= j < |run|
    ensures Stage(run[i]) <= Stage(run[j])
    decreases j - i
  {
    if i < j {
      TransitionsMoveForward(run[i], run[i + 1]);
      RunStagesGrow(run, i + 1, j);
    }
  }

  /** A run that ends where it started never left its first status: the lifecycle has no cycles. */
  lemma {:induction false} RunsHaveNoCycles(run: seq<OrderStatus>)
    requires IsRun(run)
    requires |run| > 0 && run[0] == run[|run| - 1]
    ensures forall i :: 0 <= i < |run| ==> run[i] == run[0]
  {
    forall i | 0 <= i < |run|
      ensures run[i] == run[0]
    {
      StaysPut(run, i);
    }
  }

  /** Helper for `RunsHaveNoCycles`: every status up to `k` equals the first one. */
  lemma {:induction false} StaysPut(run: seq<OrderStatus>, k: nat)
    requires IsRun(run)
    requires |run| > 0 && run[0] == run[|run| - 1]
    requires k < |run|
    ensures run[k] == run[0]
  {
    if k > 0 {
      StaysPut(run, k - 1);
      RunStagesGrow(run, k, |run| - 1);
      RunStagesGrow(run, 0, k);
      TransitionsMoveForward(run[k - 1], run[k]);
    }
  }
}
