/** The per-agent capacity authorizer: policy check, reservation loop, dry-run check. */
module Slime {
  import opened Common

  type DomainId = string

  datatype Verdict = Authorized | Impossible

  datatype Policy = Policy(enabled: bool, maxMagnitude: nat)

  /** Known domain, enabled, and within the per-action ceiling. */
  predicate PolicyAllows(policies: map<DomainId, Policy>, domain: DomainId, magnitude: nat) {
    domain in policies && policies[domain].enabled && magnitude <= policies[domain].maxMagnitude
  }

  /** The capacity test shared by the reservation loop and the dry run. */
  predicate Fits(maxCapacity: nat, used: nat, magnitude: nat) {
    match CheckedAdd(used, magnitude)
    case Some(total) => total <= maxCapacity
    case None => false
  }

  /** The sequential specification of one decision, taken while `used` units are reserved. */
  function Decide(
      maxCapacity: nat, policies: map<DomainId, Policy>, used: nat, domain: DomainId, magnitude: nat): Verdict {
    if PolicyAllows(policies, domain, magnitude) && Fits(maxCapacity, used, magnitude) then Authorized else Impossible
  }

  /** Below a `u64` ceiling the overflow test never decides anything. */
  lemma FitsIsCeiling(maxCapacity: nat, used: nat, magnitude: nat)
    requires maxCapacity <= U64_MAX
    ensures Fits(maxCapacity, used, magnitude) <==> used + magnitude <= maxCapacity
  {
  }

  /** What rivals do between one load and the exchange that follows it. */
  datatype Interference = Interference(added: nat, spurious: bool)

  /** Units reserved by rivals. */
  function Added(others: seq<Interference>): nat {
    if others == [] then 0 else Added(others[..|others| - 1]) + others[|others| - 1].added
  }

  /** Rounds in which the weak exchange fails for no reason. */
  function Spurious(others: seq<Interference>): nat {
    if others == [] then 0
    else Spurious(others[..|others| - 1]) + if others[|others| - 1].spurious then 1 else 0
  }

  lemma {:induction false} AddedMonotone(others: seq<Interference>, n: nat)
    requires n <= |others|
    ensures Added(others[..n]) <= Added(others)
  {
    if n < |others| {
      assert others[..|others| - 1][..n] == others[..n];
      AddedMonotone(others[..|others| - 1], n);
    } else {
      assert others[..n] == others;
    }
  }

  class P0Authorizer {
    var capacity: nat
    const maxCapacity: nat
    const domains: map<DomainId, Policy>

    ghost predicate Valid()
      reads this
    {
      capacity <= maxCapacity <= U64_MAX
    }

    constructor (maxCapacity: nat, domains: map<DomainId, Policy>)
      requires maxCapacity <= U64_MAX
      ensures Valid() && capacity == 0 && this.maxCapacity == maxCapacity && this.domains == domains
    {
      this.capacity, this.maxCapacity, this.domains := 0, maxCapacity, domains;
    }

    /**
     * The load / compare-exchange loop under arbitrary interference. `others[i]` happens between the
     * load and the exchange of round `i`; rivals run this same method, so they respect the ceiling.
     * The call takes effect after `lost` failed exchanges: its verdict is the sequential one for the
     * capacity of that moment, it adds its magnitude exactly once or not at all, and every failure
     * that is not spurious is paid for by a unit a rival reserved.
     */
    method TryReserve(domain: DomainId, magnitude: nat, others: seq<Interference>) returns (verdict: Verdict, lost: nat)
      requires Valid()
      requires capacity + Added(others) <= maxCapacity
      modifies this`capacity
      ensures Valid()
      ensures lost <= |others|
      ensures verdict == Decide(maxCapacity, domains, old(capacity) + Added(others[..lost]), domain, magnitude)
      ensures capacity == old(capacity) + Added(others[..lost]) + (if verdict == Authorized then magnitude else 0)
      ensures !PolicyAllows(domains, domain, magnitude) ==> lost == 0
      ensures lost <= Spurious(others[..lost]) + (maxCapacity - old(capacity))
    {
      lost := 0;
      if !PolicyAllows(domains, domain, magnitude) {
        return Impossible, 0;
      }
      while true
        invariant lost <= |others|
        invariant capacity == old(capacity) + Added(others[..lost])
        invariant lost <= Spurious(others[..lost]) + Added(others[..lost])
        invariant Valid()
        decreases |others| - lost
      {
        var current := capacity;
        var total := CheckedAdd(current, magnitude);
        if total.None? || total.value > maxCapacity {
          return Impossible, lost;
        }
        var rivals := if lost < |others| then others[lost] else Interference(0, false);
        AddedMonotone(others, if lost < |others| then lost + 1 else lost);
        if lost < |others| {
          assert others[..lost + 1][..lost] == others[..lost];
        }
        capacity := capacity + rivals.added;
        if capacity == current && !rivals.spurious {
          capacity := total.value;
          return Authorized, lost;
        }
        lost := lost + 1;
      }
    }

    /** The dry run reads the counter once and reserves nothing. */
    method CheckOnly(domain: DomainId, magnitude: nat) returns (verdict: Verdict)
      requires Valid()
      ensures verdict == Decide(maxCapacity, domains, capacity, domain, magnitude)
    {
      if !PolicyAllows(domains, domain, magnitude) {
        return Impossible;
      }
      var total := CheckedAdd(capacity, magnitude);
      verdict := if total.Some? && total.value <= maxCapacity then Authorized else Impossible;
    }
  }
}
