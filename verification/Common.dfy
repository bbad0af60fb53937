/** Vocabulary shared by the service models. */
module Common {

  datatype Option<+T> = None | Some(value: T)

  datatype Result<+T, +E> = Ok(value: T) | Err(error: E)

  /** The order state machine of the shop. */
  datatype OrderStatus =
    | PendingPayment
    | WaitingAdmin
    | Approved
    | ProvisioningPending
    | Rejected
    | Cancelled
    | Failed
    | Delivered
  {
    /** Paid for but not handed over yet: the states a delivery may start from. */
    predicate AwaitingDelivery() {
      this == Approved || this == ProvisioningPending
    }

    /** The money side is settled. */
    predicate Paid() {
      AwaitingDelivery() || this == Delivered
    }
  }

  /** f(0) + f(1) + ... + f(n - 1) */
  function Sum(n: nat, f: nat -> int): int {
    if n == 0 then 0 else Sum(n - 1, f) + f(n - 1)
  }

  /** Changing one term, if it is among those added, changes the sum by as much. */
  lemma {:induction false} SumChanges(n: nat, f: nat -> int, g: nat -> int, k: nat, change: int)
    requires forall i: nat :: i < n ==> g(i) == f(i) + (if i == k then change else 0)
    ensures Sum(n, g) == Sum(n, f) + (if k < n then change else 0)
  {
    if n == 0 {
    } else {
      SumChanges(n - 1, f, g, k, change);
    }
  }

  lemma SumAgrees(n: nat, f: nat -> int, g: nat -> int)
    requires forall i: nat :: i < n ==> g(i) == f(i)
    ensures Sum(n, g) == Sum(n, f)
  {
    SumChanges(n, f, g, n, 0);
  }

  lemma {:induction false} SumOfNothing(n: nat, f: nat -> int)
    requires forall i: nat :: i < n ==> f(i) == 0
    ensures Sum(n, f) == 0
  {
    if n == 0 {
    } else {
      SumOfNothing(n - 1, f);
    }
  }

  lemma {:induction false} SumNegates(n: nat, f: nat -> int, g: nat -> int)
    requires forall i: nat :: i < n ==> g(i) == -f(i)
    ensures Sum(n, g) == -Sum(n, f)
  {
    if n == 0 {
    } else {
      SumNegates(n - 1, f, g);
    }
  }
}
