/** The licence operations in place, over the tables they update. */
module LicenseService {
  import opened Common
  import opened LicensePool

  class LicenseTables {
    var orders: seq<Order>
    var licenses: seq<License>

    constructor ()
      ensures Snapshot() == Db([], []) && Safe(Snapshot())
    {
      orders, licenses := [], [];
    }

    function Snapshot(): Db
      reads this
    {
      Db(orders, licenses)
    }

    /**
     Reserves, sends and sells one licence for an order. `hidden` are the rows the picking
     query skips, `sent` is whether Telegram took the message.
     */
    method DeliverLicenseForOrder(oid: nat, hidden: set<nat>, sent: bool) returns (report: Report)
      modifies this
      ensures (Snapshot(), report) == Deliver(old(Snapshot()), oid, hidden, sent)
      ensures old(Safe(Snapshot())) ==> Safe(Snapshot()) && Kept(old(Snapshot()), Snapshot())
    {
      ghost var before := Snapshot();
      if Safe(before) {
        DeliverSafe(before, oid, hidden, sent);
      }
      if oid >= |orders| {
        return Err(OrderNotFound);
      }
      var order := orders[oid];
      if !order.isLicenseProduct {
        return Err(NotLicenseOrder);
      }
      var active := ActiveLicense(licenses, oid);
      if order.status == Delivered {
        return Ok(Already(active));
      }
      if order.status != Approved && order.status != ProvisioningPending {
        return Err(NotApproved);
      }
      if active.None? {
        active := FirstFree(licenses, order.product, hidden);
        if active.None? {
          orders := orders[oid := order.(deliveryError := Some(NoStock))];
          return Ok(OutOfStock);
        }
        licenses := licenses[active.value := Reserve(licenses[active.value], oid, order.user)];
      }
      var lid := active.value;
      if !sent {
        orders := orders[oid := order.(deliveryError := Some(SendFailed))];
        return Ok(NotSent(lid));
      }
      licenses := licenses[lid := licenses[lid].(status := Sold)];
      orders := orders[oid := order.(status := Delivered, deliveryError := None, payload := Some(lid))];
      return Ok(Sale(lid));
    }

    /** Sends a sold licence again, or finishes a delivery whose send failed. */
    method RedeliverLicense(oid: nat, hidden: set<nat>, sent: bool) returns (report: Report)
      modifies this
      ensures (Snapshot(), report) == Redeliver(old(Snapshot()), oid, hidden, sent)
      ensures old(Safe(Snapshot())) ==> Safe(Snapshot()) && Kept(old(Snapshot()), Snapshot())
    {
      var active := ActiveLicense(licenses, oid);
      if active.None? {
        return Err(NoDeliverableLicense);
      }
      if licenses[active.value].status == Reserved {
        report := DeliverLicenseForOrder(oid, hidden, sent);
        return;
      }
      return Ok(if sent then Resent(active.value) else NotSent(active.value));
    }

    /** Swaps the sold licence of an order for a fresh one of the same product. */
    method ReplaceLicense(oid: nat, chosen: Option<nat>, hidden: set<nat>, sent: bool) returns (report: Report)
      modifies this
      ensures (Snapshot(), report) == Replace(old(Snapshot()), oid, chosen, hidden, sent)
      ensures old(Safe(Snapshot())) ==> Safe(Snapshot()) && Kept(old(Snapshot()), Snapshot())
    {
      ghost var before := Snapshot();
      if Safe(before) {
        ReplaceSafe(before, oid, chosen, hidden, sent);
      }
      if oid >= |orders| {
        return Err(OrderNotFound);
      }
      var order := orders[oid];
      if order.status != Delivered {
        return Err(NotDelivered);
      }
      var active := ActiveLicense(licenses, oid);
      if active.None? || licenses[active.value].status != Sold {
        return Err(NoDeliverableLicense);
      }
      var pick := chosen;
      if chosen.Some? {
        if chosen.value >= |licenses| || !licenses[chosen.value].FreeFor(order.product) {
          return Err(NewNotAvailable);
        }
      } else {
        pick := FirstFree(licenses, order.product, hidden);
        if pick.None? {
          return Err(NoLicenseAvailable);
        }
      }
      licenses := licenses[pick.value := Reserve(licenses[pick.value], oid, order.user).(status := Sold)];
      licenses := licenses[active.value := licenses[active.value].(status := Replaced, replacedBy := pick)];
      orders := orders[oid := order.(payload := pick)];
      return Ok(Swapped(active.value, pick.value, sent));
    }

    method ReserveAvailableLicense(p: nat, oid: nat, user: nat, hidden: set<nat>) returns (r: Result<nat, Refusal>)
      modifies this
      ensures (Snapshot(), r) == ReserveAvailable(old(Snapshot()), p, oid, user, hidden)
      ensures r.Err? ==> Snapshot() == old(Snapshot())
      ensures old(Safe(Snapshot())) && r.Ok? ==>
                (Safe(Snapshot()) <==>
                 && oid < |orders| && orders[oid].status.AwaitingDelivery()
                 && orders[oid].product == p && orders[oid].user == user
                 && ActiveLicense(old(licenses), oid).None?)
    {
      ghost var before := Snapshot();
      if Safe(before) && FirstFree(licenses, p, hidden).Some? {
        ReserveAvailableSafeIff(before, p, oid, user, hidden);
      }
      var free := FirstFree(licenses, p, hidden);
      if free.None? {
        return Err(NoLicenseAvailable);
      }
      licenses := licenses[free.value := Reserve(licenses[free.value], oid, user)];
      return Ok(free.value);
    }

    method MarkLicenseBroken(lid: nat)
      modifies this`licenses
      ensures Snapshot() == MarkBroken(old(Snapshot()), lid)
      ensures old(Safe(Snapshot())) ==> Safe(Snapshot()) && Kept(old(Snapshot()), Snapshot())
    {
      if lid < |licenses| {
        licenses := licenses[lid := licenses[lid].(status := Broken)];
      }
    }

    method BlockLicense(lid: nat) returns (r: Result<bool, Refusal>)
      modifies this`licenses
      ensures (Snapshot(), r) == Block(old(Snapshot()), lid)
      ensures old(Safe(Snapshot())) ==> Safe(Snapshot()) && Kept(old(Snapshot()), Snapshot())
    {
      if lid >= |licenses| {
        return Ok(false);
      }
      if licenses[lid].status == Sold {
        return Err(AlreadySold);
      }
      licenses := licenses[lid := licenses[lid].(status := Blocked)];
      return Ok(true);
    }
  }
}
