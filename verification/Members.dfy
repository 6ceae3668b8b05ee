/** Organization membership rows, as far as more than one service reads them. */
module Members {
  datatype Role = Owner | Admin | Manager | Member | Billing

  datatype Status = Invited | Accepted | Confirmed | Suspended | Provisioned

  predicate IsActive(s: Status) {
    s == Accepted || s == Confirmed
  }

  datatype Membership = Membership(org: nat, status: Status)

  /** The organizations a user actively belongs to, in membership order. */
  function ActiveOrgs(ms: seq<Membership>): (orgs: seq<nat>)
    ensures forall o :: o in orgs <==> exists i :: 0 <= i < |ms| && ms[i].org == o && IsActive(ms[i].status)
  {
    if ms == [] then []
    else
      var rest := ActiveOrgs(ms[..|ms| - 1]);
      var m := ms[|ms| - 1];
      assert forall i :: 0 <= i < |ms| - 1 ==> ms[i] == ms[..|ms| - 1][i];
      if IsActive(m.status) then rest + [m.org] else rest
  }

  /** Memberships are read one by one, in order, and count when accepted or confirmed. */
  lemma {:induction false} ActiveOrgsInOrder(ms: seq<Membership>, m: Membership)
    ensures ActiveOrgs([]) == []
    ensures ActiveOrgs(ms + [m]) == ActiveOrgs(ms) + if m.status in {Accepted, Confirmed} then [m.org] else []
  {
    assert (ms + [m])[..|ms + [m]| - 1] == ms;
  }

  method GetUserOrgIDs(ms: seq<Membership>) returns (ids: seq<nat>)
    ensures ids == ActiveOrgs(ms)
  {
    ids := [];
    for i := 0 to |ms|
      invariant ids == ActiveOrgs(ms[..i])
    {
      assert ms[..i + 1][..|ms[..i + 1]| - 1] == ms[..i];
      if ms[i].status == Accepted || ms[i].status == Confirmed {
        ids := ids + [ms[i].org];
      }
    }
    assert ms[..|ms|] == ms;
  }
}
