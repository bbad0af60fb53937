/**
 Expiry arithmetic of renewals: each renewal starts from the later of now and the current
 expiry. Times are microseconds, as Python's datetimes count them.
 */
module Renewal {
  import opened Common

  /** A number of days as a timedelta. */
  function Days(n: int): int {
    n * 86_400_000_000
  }

  datatype Renewed = Renewed(at: int, days: int)

  /** New expiry of one renewal. */
  function RenewedExpiry(current: Option<int>, now: int, days: int): int {
    var base := if current.Some? && current.value > now then current.value else now;
    base + Days(days)
  }

  /** The expiry after a whole history of renewals. */
  function RenewAll(start: Option<int>, rs: seq<Renewed>): Option<int> {
    if rs == [] then start
    else
      var last := rs[|rs| - 1];
      Some(RenewedExpiry(RenewAll(start, rs[..|rs| - 1]), last.at, last.days))
  }

  /** The time bought by a history of renewals. */
  function Bought(rs: seq<Renewed>): int {
    if rs == [] then 0 else Bought(rs[..|rs| - 1]) + Days(rs[|rs| - 1].days)
  }

  lemma {:induction false} BoughtSplit(rs: seq<Renewed>, j: nat)
    requires j <= |rs|
    ensures Bought(rs) == Bought(rs[..j]) + Bought(rs[j..])
  {
    if j == |rs| {
      assert rs[..j] == rs && rs[j..] == [];
    } else {
      var init := rs[..|rs| - 1];
      BoughtSplit(init, j);
      assert rs[..j] == init[..j];
      assert rs[j..][..|rs[j..]| - 1] == init[j..];
    }
  }

  /** Where the expiry would be had the service lapsed for the last time before renewal `j`. */
  function From(rs: seq<Renewed>, j: nat): int
    requires j < |rs|
  {
    rs[j].at + Bought(rs[j..])
  }

  /**
   Closed form: after any renewals at any times, the expiry is the largest of the start plus
   all time bought, and, for every renewal, its moment plus the time bought from it on.
   */
  lemma {:induction false} RenewalClosedForm(start: Option<int>, rs: seq<Renewed>)
    requires rs != []
    ensures var e := RenewAll(start, rs).value;
            && (start.Some? ==> e >= start.value + Bought(rs))
            && (forall j :: 0 <= j < |rs| ==> e >= From(rs, j))
            && ((start.Some? && e == start.value + Bought(rs)) || exists j :: 0 <= j < |rs| && e == From(rs, j))
  {
    var n := |rs| - 1;
    var init := rs[..n];
    var e := RenewAll(start, rs).value;
    assert rs[n..] == [rs[n]];
    assert Bought([rs[n]]) == Bought([]) + Days(rs[n].days) by {
      assert [rs[n]][..0] == [];
    }
    assert From(rs, n) == rs[n].at + Days(rs[n].days);
    if init == [] {
    } else {
      RenewalClosedForm(start, init);
      forall j | 0 <= j < n
        ensures From(rs, j) == From(init, j) + Days(rs[n].days)
      {
        assert rs[j..][..|rs[j..]| - 1] == init[j..];
      }
      if e != From(rs, n) && !(start.Some? && e == start.value + Bought(rs)) {
        var j :| 0 <= j < |init| && RenewAll(start, init).value == From(init, j);
        assert e == From(rs, j);
      }
    }
  }

  /** Renewal `j` came before the service lapsed, exactly if counting from it gains nothing. */
  lemma LapsedOrNot(start: int, rs: seq<Renewed>, j: nat)
    requires j < |rs|
    ensures From(rs, j) <= start + Bought(rs) <==> rs[j].at <= start + Bought(rs[..j])
  {
    BoughtSplit(rs, j);
  }

  /** Paid time is never lost, and it is exactly additive if and only if the service never lapsed. */
  lemma AdditiveIffNeverLapsed(start: int, rs: seq<Renewed>)
    ensures RenewAll(Some(start), rs).Some? && RenewAll(Some(start), rs).value >= start + Bought(rs)
    ensures RenewAll(Some(start), rs) == Some(start + Bought(rs)) <==>
            forall j :: 0 <= j < |rs| ==> rs[j].at <= start + Bought(rs[..j])
  {
    if rs != [] {
      RenewalClosedForm(Some(start), rs);
      forall j | 0 <= j < |rs|
        ensures From(rs, j) <= RenewAll(Some(start), rs).value
        ensures From(rs, j) <= start + Bought(rs) <==> rs[j].at <= start + Bought(rs[..j])
      {
        LapsedOrNot(start, rs, j);
      }
    }
  }
}
