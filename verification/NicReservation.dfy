/** Reservation of network bandwidth: several interfaces may share the budget of one device. */
module NicReservation {
  import opened BulkioTypes

  /** NicState. The interface name is also the key it is filed under. */
  datatype Nic = Nic(interface: string, device: string, speedMbit: real, v4Address: string, v4Netmask: string,
                     multicast: bool)

  datatype Multicast = Unspecified | Wanted(yes: bool) | Malformed

  /** nic_allocation_struct. */
  datatype Allocation = Allocation(identifier: string, dataRate: real, dataSize: real, multicastSupport: Multicast,
                                   ipAddressable: string, interface: string)

  /** DeviceThroughputCapacity. */
  datatype Capacity = Capacity(device: string, maximum: real, reserved: real)

  /** What does not change: the interfaces in key order, the percentage, and how a string is read
      as an IPv4 address, if it is one. */
  datatype Setup = Setup(nics: seq<Nic>, percent: real, parse: string -> Option<bv32>)

  datatype Book = Book(allocations: map<string, Allocation>, capacities: map<string, Capacity>)

  datatype Reply = Allocated | Refused | Invalid

  const MBITS_TO_BITS := 1000000.0

  /** get_throughput. */
  function Throughput(a: Allocation): real { a.dataRate * a.dataSize }

  /** Interfaces have names, and each its own; devices have names; nothing negative is configured. */
  ghost predicate Proper(s: Setup) {
    && s.percent >= 0.0
    && (forall i :: 0 <= i < |s.nics| ==>
          s.nics[i].interface != "" && s.nics[i].device != "" && s.nics[i].speedMbit >= 0.0)
    && (forall i, j :: 0 <= i < j < |s.nics| ==> s.nics[i].interface != s.nics[j].interface)
  }

  /** Whether validate_allocation lets an allocation pass. */
  predicate Sensible(s: Setup, a: Allocation) {
    a.identifier != "" && (a.ipAddressable != "" ==> s.parse(a.ipAddressable).Some?) && a.multicastSupport != Malformed
  }

  /** IsAddressableV4; None stands for the exception on a string that is no address. */
  function IsAddressable(s: Setup, a: string, b: string, netmask: string): Option<bool> {
    match (s.parse(a), s.parse(b), s.parse(netmask))
    case (Some(x), Some(y), Some(m)) => Some(SameNet(x, y, m))
    case _ => None
  }

  /** Two addresses agree under a mask. */
  predicate SameNet(x: bv32, y: bv32, mask: bv32) { (x & mask) == (y & mask) }

  /** Two addresses agree under a mask exactly where their masked parts are equal. */
  lemma SameNetIs(x: bv32, y: bv32, mask: bv32)
    ensures SameNet(x, y, mask) <==> x & mask == y & mask
  {
  }

  /** MergeAllocationStructs: everything is as newly asked for, but an interface once found stays. */
  function Merge(previous: Option<Allocation>, a: Allocation): Allocation {
    if previous.Some? && previous.value.interface != "" then a.(interface := previous.value.interface) else a
  }

  /** lookup_nic_throughput_capacity: the first interface of a device to be looked at sets its maximum. */
  function Looked(b: Book, nic: Nic): Book {
    if nic.device in b.capacities && b.capacities[nic.device].device != "" then b
    else
      var was := if nic.device in b.capacities then b.capacities[nic.device].reserved else 0.0;
      b.(capacities := b.capacities[nic.device := Capacity(nic.device, nic.speedMbit * MBITS_TO_BITS, was)])
  }

  /** The four tests on an interface, in order. */
  function Suits(s: Setup, b: Book, a: Allocation, delta: real, nic: Nic, current: real): Option<bool>
    requires nic.device in b.capacities
  {
    var addressable := if a.ipAddressable == "" then Some(true)
        else IsAddressable(s, a.ipAddressable, nic.v4Address, nic.v4Netmask);
    if addressable.None? then None
    else Some(addressable.value
              && (a.multicastSupport.Wanted? ==> a.multicastSupport.yes == nic.multicast)
              && (a.interface == "" || a.interface == nic.interface)
              && WithinBudget(s, b.capacities[nic.device], delta, current))
  }

  /** allocatable_by_data_rate. */
  predicate WithinBudget(s: Setup, c: Capacity, delta: real, current: real) {
    var requested := c.reserved + delta;
    (if current > requested then current else requested) <= Budget(s, c)
  }

  function Budget(s: Setup, c: Capacity): real { c.maximum * s.percent / 100.0 }

  function Booked(b: Book, a: Allocation, delta: real, nic: Nic): Book
    requires nic.device in b.capacities
  {
    var c := b.capacities[nic.device];
    Book(b.allocations[a.identifier := a.(interface := nic.interface)],
         b.capacities[nic.device := c.(reserved := c.reserved + delta)])
  }

  /** The loop of allocate_capacity from the i-th interface on. */
  function Search(s: Setup, b: Book, a: Allocation, delta: real, i: nat, current: string -> real): (Book, Reply)
    requires i <= |s.nics|
    decreases |s.nics| - i
  {
    if i == |s.nics| then (b, Refused)
    else
      var nic := s.nics[i];
      var looked := Looked(b, nic);
      match Suits(s, looked, a, delta, nic, current(nic.device))
      case None => (looked, Invalid)
      case Some(suits) => if suits then (Booked(looked, a, delta, nic), Allocated)
          else Search(s, looked, a, delta, i + 1, current)
  }

  function Previous(b: Book, id: string): Option<Allocation> {
    if id in b.allocations then Some(b.allocations[id]) else None
  }

  function Delta(b: Book, a: Allocation): real {
    Throughput(a) - if a.identifier in b.allocations then Throughput(b.allocations[a.identifier]) else 0.0
  }

  /** allocate_capacity. */
  function Allocate(s: Setup, b: Book, a: Allocation, current: string -> real): (Book, Reply) {
    if !Sensible(s, a) then (b, Invalid)
    else Search(s, b, Merge(Previous(b, a.identifier), a), Delta(b, a), 0, current)
  }

  /** The interface of a name. */
  function NicOf(nics: seq<Nic>, interface: string): Option<Nic> {
    if nics == [] then None else if nics[0].interface == interface then Some(nics[0]) else NicOf(nics[1..], interface)
  }

  /** deallocate_capacity; false is the exception. */
  function Deallocate(s: Setup, b: Book, a: Allocation): (Book, bool) {
    if !Sensible(s, a) || a.identifier !in b.allocations then (b, false)
    else
      var kept := b.allocations[a.identifier];
      var nic := NicOf(s.nics, kept.interface);
      var paid := if nic.Some? then Paid(Looked(b, nic.value), nic.value.device, Throughput(kept)) else b;
      (paid.(allocations := b.allocations - {a.identifier}), true)
  }

  function Paid(b: Book, device: string, amount: real): Book {
    if device in b.capacities then
      var c := b.capacities[device];
      b.(capacities := b.capacities[device := c.(reserved := c.reserved - amount)])
    else b
  }

  // ---------- the account of a device ----------

  /** An allocation's share of a device's budget. */
  function Share(s: Setup, a: Allocation, device: string): real {
    var nic := NicOf(s.nics, a.interface);
    if nic.Some? && nic.value.device == device then Throughput(a) else 0.0
  }

  /** The sum of the shares of all allocations. */
  ghost function Reserved(s: Setup, m: map<string, Allocation>, device: string): real
    decreases |m|
  {
    if m == map[] then 0.0
    else
      var id :| id in m;
      Share(s, m[id], device) + Reserved(s, m - {id}, device)
  }

  lemma {:induction false} ReservedRemove(s: Setup, m: map<string, Allocation>, device: string, id: string)
    requires id in m
    ensures Reserved(s, m, device) == Share(s, m[id], device) + Reserved(s, m - {id}, device)
    decreases |m|
  {
    hide Share;
    var first := Chosen(s, m, device);
    if first != id {
      ReservedRemove(s, m - {first}, device, id);
      ReservedRemove(s, m - {id}, device, first);
      assert m - {first} - {id} == m - {id} - {first};
    }
  }

  lemma Chosen(s: Setup, m: map<string, Allocation>, device: string) returns (id: string)
    requires m != map[]
    ensures id in m && Reserved(s, m, device) == Share(s, m[id], device) + Reserved(s, m - {id}, device)
  {
    id :| id in m && Reserved(s, m, device) == Share(s, m[id], device) + Reserved(s, m - {id}, device);
  }

  function AllocatedOn(b: Book, device: string): real {
    if device in b.capacities then b.capacities[device].reserved else 0.0
  }

  /** Every device has given out exactly what the allocations on its interfaces take. */
  ghost predicate Conserved(s: Setup, b: Book) {
    && (forall device :: AllocatedOn(b, device) == Reserved(s, b.allocations, device))
    && (forall id :: id in b.allocations ==>
          b.allocations[id].identifier == id && NicOf(s.nics, b.allocations[id].interface).Some?)
    && (forall device :: device in b.capacities ==> b.capacities[device].device == device)
  }

  /** No device has given out more than its percentage, and no allocation is negative. */
  ghost predicate Capped(s: Setup, b: Book) {
    && (forall device :: device in b.capacities ==> b.capacities[device].reserved <= Budget(s, b.capacities[device]))
    && (forall id :: id in b.allocations ==> Throughput(b.allocations[id]) >= 0.0)
  }

  lemma {:induction false} NicOfAt(nics: seq<Nic>, i: nat)
    requires i < |nics| && (forall i, j :: 0 <= i < j < |nics| ==> nics[i].interface != nics[j].interface)
    ensures NicOf(nics, nics[i].interface) == Some(nics[i])
  {
    if i > 0 {
      assert nics[0].interface != nics[i].interface;
      NicOfAt(nics[1..], i - 1);
    }
  }

  lemma {:induction false} NicOfIs(nics: seq<Nic>, interface: string)
    ensures NicOf(nics, interface).Some? ==>
              exists i :: 0 <= i < |nics| && nics[i] == NicOf(nics, interface).value && nics[i].interface == interface
  {
    if nics != [] {
      if nics[0].interface != interface {
        NicOfIs(nics[1..], interface);
        if NicOf(nics, interface).Some? {
          var i :| 0 <= i < |nics[1..]| && nics[1..][i] == NicOf(nics, interface).value
              && nics[1..][i].interface == interface;
          assert nics[i + 1] == nics[1..][i];
        }
      } else {
        assert nics[0] == NicOf(nics, interface).value;
      }
    }
  }

  /** Looking at an interface gives nothing out. */
  lemma LookedKeeps(s: Setup, b: Book, nic: Nic)
    requires Proper(s) && nic in s.nics && Conserved(s, b)
    ensures Conserved(s, Looked(b, nic)) && nic.device in Looked(b, nic).capacities
    ensures Looked(b, nic).allocations == b.allocations
    ensures forall device :: AllocatedOn(Looked(b, nic), device) == AllocatedOn(b, device)
    ensures Capped(s, b) ==> Capped(s, Looked(b, nic))
  {
    hide Reserved, NicOf, Throughput;
    if nic.device !in b.capacities {
      assert AllocatedOn(b, nic.device) == 0.0;
      BudgetPositive(s, Looked(b, nic).capacities[nic.device]);
    }
  }

  lemma BudgetPositive(s: Setup, c: Capacity)
    requires s.percent >= 0.0 && c.maximum >= 0.0
    ensures Budget(s, c) >= 0.0
  {
  }

  lemma ReservedPut(s: Setup, m: map<string, Allocation>, device: string, id: string, a: Allocation)
    ensures Reserved(s, m[id := a], device)
            == Reserved(s, m, device) + Share(s, a, device) - if id in m then Share(s, m[id], device) else 0.0
  {
    hide Share, Reserved;
    ReservedRemove(s, m[id := a], device, id);
    if id in m {
      ReservedRemove(s, m, device, id);
      assert m[id := a] - {id} == m - {id};
    } else {
      assert m[id := a] - {id} == m;
    }
  }

  /** Booking an allocation, or a change of one, on the interface it has to be on. */
  lemma BookedConserves(s: Setup, b: Book, a: Allocation, nic: Nic)
    requires Proper(s) && nic in s.nics && nic.device in b.capacities && Conserved(s, b)
    requires a.identifier in b.allocations ==> b.allocations[a.identifier].interface == nic.interface
    ensures Conserved(s, Booked(b, a, Delta(b, a), nic))
  {
    hide Reserved, NicOf, Throughput;
    var i :| 0 <= i < |s.nics| && s.nics[i] == nic;
    NicOfAt(s.nics, i);
    var after, kept := Booked(b, a, Delta(b, a), nic), a.(interface := nic.interface);
    forall device ensures AllocatedOn(after, device) == Reserved(s, after.allocations, device) {
      ReservedPut(s, b.allocations, device, a.identifier, kept);
      assert Throughput(kept) == Throughput(a) by { SameThroughput(a, nic.interface); }
    }
  }

  lemma SameThroughput(a: Allocation, interface: string)
    ensures Throughput(a.(interface := interface)) == Throughput(a)
  {
  }

  lemma BookedCaps(s: Setup, b: Book, a: Allocation, delta: real, nic: Nic, current: real)
    requires nic.device in b.capacities && Capped(s, b) && Throughput(a) >= 0.0
    requires WithinBudget(s, b.capacities[nic.device], delta, current)
    ensures Capped(s, Booked(b, a, delta, nic))
  {
    SameThroughput(a, nic.interface);
    hide Throughput;
    var c := b.capacities[nic.device];
    assert Budget(s, c.(reserved := c.reserved + delta)) == Budget(s, c);
  }

  /** The allocation may only go where the one of the same identifier is. */
  predicate Stays(b: Book, a: Allocation) {
    a.identifier in b.allocations ==> a.interface == b.allocations[a.identifier].interface != ""
  }

  lemma {:induction false} SearchKeeps(s: Setup, b: Book, a: Allocation, delta: real, i: nat, current: string -> real)
    requires Proper(s) && i <= |s.nics| && Conserved(s, b) && Stays(b, a) && delta == Delta(b, a)
    ensures Conserved(s, Search(s, b, a, delta, i, current).0)
    ensures Capped(s, b) && Throughput(a) >= 0.0 ==> Capped(s, Search(s, b, a, delta, i, current).0)
    decreases |s.nics| - i
  {
    hide Conserved, Capped, Looked, Throughput, Booked, WithinBudget, IsAddressable;
    if i < |s.nics| {
      var nic := s.nics[i];
      var looked := Looked(b, nic);
      LookedKeeps(s, b, nic);
      var suits := Suits(s, looked, a, delta, nic, current(nic.device));
      if suits == Some(false) {
        SearchKeeps(s, looked, a, delta, i + 1, current);
      } else if suits == Some(true) {
        BookedConserves(s, looked, a, nic);
        if Capped(s, b) && Throughput(a) >= 0.0 {
          BookedCaps(s, looked, a, delta, nic, current(nic.device));
        }
      }
    }
  }

  lemma InterfaceNamed(s: Setup, b: Book, id: string)
    requires Proper(s) && Conserved(s, b) && id in b.allocations
    ensures b.allocations[id].interface != ""
  {
    NicOfIs(s.nics, b.allocations[id].interface);
  }

  /** allocate_capacity keeps the account of every device, whether it allocates, moves the amount
      of an allocation up or down, refuses or throws; and within the caps. */
  lemma AllocateKeeps(s: Setup, b: Book, a: Allocation, current: string -> real)
    requires Proper(s) && Conserved(s, b)
    ensures Conserved(s, Allocate(s, b, a, current).0)
    ensures Capped(s, b) && Throughput(a) >= 0.0 ==> Capped(s, Allocate(s, b, a, current).0)
  {
    hide Conserved, Capped, Throughput, Search, Proper;
    if Sensible(s, a) {
      var merged := Merge(Previous(b, a.identifier), a);
      SameThroughput(a, merged.interface);
      if a.identifier in b.allocations { InterfaceNamed(s, b, a.identifier); }
      SearchKeeps(s, b, merged, Delta(b, a), 0, current);
    }
  }

  /** deallocate_capacity keeps the account too, and returns exactly the share of the allocation. */
  lemma DeallocateKeeps(s: Setup, b: Book, a: Allocation)
    requires Proper(s) && Conserved(s, b)
    ensures Conserved(s, Deallocate(s, b, a).0)
    ensures Deallocate(s, b, a).1 ==> forall device ::
              AllocatedOn(Deallocate(s, b, a).0, device)
              == AllocatedOn(b, device) - Share(s, b.allocations[a.identifier], device)
    ensures Capped(s, b) ==> Capped(s, Deallocate(s, b, a).0)
  {
    hide Reserved, NicOf, Throughput, Looked, Capped;
    if Deallocate(s, b, a).1 {
      var kept := b.allocations[a.identifier];
      var nic := NicOf(s.nics, kept.interface).value;
      NicOfIs(s.nics, kept.interface);
      LookedKeeps(s, b, nic);
      var looked, after := Looked(b, nic), Deallocate(s, b, a).0;
      forall device ensures AllocatedOn(after, device) == Reserved(s, after.allocations, device)
                    ensures AllocatedOn(after, device) == AllocatedOn(b, device) - Share(s, kept, device)
      {
        ReservedRemove(s, b.allocations, device, a.identifier);
      }
      if Capped(s, b) { PaidCaps(s, looked, nic.device, a.identifier); }
    }
  }

  lemma PaidCaps(s: Setup, b: Book, device: string, id: string)
    requires Capped(s, b) && id in b.allocations
    ensures var paid := Paid(b, device, Throughput(b.allocations[id]));
            Capped(s, paid.(allocations := b.allocations - {id}))
  {
    hide Throughput;
    if device in b.capacities {
      var c := b.capacities[device];
      assert Budget(s, c.(reserved := c.reserved - Throughput(b.allocations[id]))) == Budget(s, c);
    }
  }

  // ---------- runs ----------

  /** A call, and what the devices carry at that moment. */
  datatype Call = AllocateCall(a: Allocation, current: string -> real) | DeallocateCall(a: Allocation)

  function Step(s: Setup, b: Book, call: Call): Book {
    match call
    case AllocateCall(a, current) => Allocate(s, b, a, current).0
    case DeallocateCall(a) => Deallocate(s, b, a).0
  }

  function Run(s: Setup, calls: seq<Call>): Book {
    if calls == [] then Book(map[], map[]) else Step(s, Run(s, calls[..|calls| - 1]), calls[|calls| - 1])
  }

  /** In every run, each device has given out the sum of what is allocated on its interfaces; and
      when no negative rate is asked for, never more than the configured percentage of its speed. */
  lemma {:induction false} RunConserved(s: Setup, calls: seq<Call>)
    requires Proper(s)
    ensures Conserved(s, Run(s, calls))
    ensures (forall call :: call in calls && call.AllocateCall? ==> Throughput(call.a) >= 0.0) ==>
            Capped(s, Run(s, calls))
    decreases |calls|
  {
    hide Throughput, Proper, Conserved, Capped, Allocate, Deallocate;
    if calls == [] {
      NothingReserved(s);
    } else {
      var before, last := calls[..|calls| - 1], calls[|calls| - 1];
      RunConserved(s, before);
      match last
      case AllocateCall(a, current) => AllocateKeeps(s, Run(s, before), a, current);
      case DeallocateCall(a) => DeallocateKeeps(s, Run(s, before), a);
    }
  }

  lemma NothingReserved(s: Setup)
    ensures Conserved(s, Book(map[], map[])) && Capped(s, Book(map[], map[]))
  {
  }

  /** Deallocating what has just been allocated under a new identifier undoes it. */
  lemma DeallocateUndoes(s: Setup, b: Book, a: Allocation, current: string -> real)
    requires Proper(s) && Conserved(s, b) && a.identifier !in b.allocations
    requires Allocate(s, b, a, current).1 == Allocated
    ensures var after := Deallocate(s, Allocate(s, b, a, current).0, a);
            after.1 && after.0.allocations == b.allocations
                && (forall device :: AllocatedOn(after.0, device) == AllocatedOn(b, device))
  {
    hide Reserved, Throughput, Suits, Looked, Share, Search;
    var made := Allocate(s, b, a, current).0;
    AllocateKeeps(s, b, a, current);
    SearchBooks(s, b, a, Delta(b, a), 0, current);
    DeallocateKeeps(s, made, a);
    var after := Deallocate(s, made, a).0;
    assert after.allocations == b.allocations;
    forall device ensures AllocatedOn(after, device) == AllocatedOn(b, device) {
      assert Conserved(s, after);
    }
  }

  /** A search that succeeds changes the allocation of that identifier alone. */
  lemma {:induction false} SearchBooks(s: Setup, b: Book, a: Allocation, delta: real, i: nat, current: string -> real)
    requires i <= |s.nics| && Search(s, b, a, delta, i, current).1 == Allocated
    ensures var after := Search(s, b, a, delta, i, current).0;
            && a.identifier in after.allocations
            && after.allocations == b.allocations[a.identifier := after.allocations[a.identifier]]
            && after.allocations[a.identifier] == a.(interface := after.allocations[a.identifier].interface)
    decreases |s.nics| - i
  {
    hide Throughput, WithinBudget, IsAddressable;
    if Suits(s, Looked(b, s.nics[i]), a, delta, s.nics[i], current(s.nics[i].device)) == Some(false) {
      SearchBooks(s, Looked(b, s.nics[i]), a, delta, i + 1, current);
    }
  }

  // ---------- where an allocation goes ----------

  /** The tests on an interface, given what its device has given out and may give out at most. */
  function Verdict(s: Setup, a: Allocation, delta: real, nic: Nic, current: real, reserved: real,
                   maximum: real): Option<bool> {
    if a.ipAddressable != "" && (s.parse(a.ipAddressable).None? || s.parse(nic.v4Address).None?
                                 || s.parse(nic.v4Netmask).None?) then None
    else
      var budget := maximum * s.percent / 100.0;
      Some((a.ipAddressable == ""
            || SameNet(s.parse(a.ipAddressable).value, s.parse(nic.v4Address).value, s.parse(nic.v4Netmask).value))
           && (a.multicastSupport.Wanted? ==> a.multicastSupport.yes == nic.multicast)
           && (a.interface == "" || a.interface == nic.interface)
           && current <= budget && reserved + delta <= budget)
  }

  lemma SuitsIs(s: Setup, b: Book, a: Allocation, delta: real, nic: Nic, current: real)
    requires nic.device in b.capacities
    ensures Suits(s, b, a, delta, nic, current)
            == Verdict(s, a, delta, nic, current, b.capacities[nic.device].reserved, b.capacities[nic.device].maximum)
  {
    hide Budget, WithinBudget, IsAddressable;
    var c := b.capacities[nic.device];
    BudgetIs(s, c, delta, current);
    if a.ipAddressable != "" { AddressIs(s, a.ipAddressable, nic); }
  }

  lemma BudgetIs(s: Setup, c: Capacity, delta: real, current: real)
    ensures var budget := c.maximum * s.percent / 100.0;
            WithinBudget(s, c, delta, current) <==> current <= budget && c.reserved + delta <= budget
  {
  }

  lemma AddressIs(s: Setup, address: string, nic: Nic)
    ensures var readable := s.parse(address).Some? && s.parse(nic.v4Address).Some? && s.parse(nic.v4Netmask).Some?;
            IsAddressable(s, address, nic.v4Address, nic.v4Netmask)
            == if readable
               then Some(SameNet(s.parse(address).value, s.parse(nic.v4Address).value, s.parse(nic.v4Netmask).value))
               else None
  {
  }

  /** Devices that have been looked at keep their maximum. */
  ghost predicate Settled(b: Book, after: Book) {
    forall d :: d in b.capacities && b.capacities[d].device != "" ==>
      d in after.capacities && after.capacities[d].device != ""
          && after.capacities[d].maximum == b.capacities[d].maximum
  }

  lemma LookedSettles(b: Book, nic: Nic)
    requires nic.device != ""
    ensures Settled(b, Looked(b, nic)) && nic.device in Looked(b, nic).capacities
    ensures Looked(b, nic).capacities[nic.device].device != "" && Looked(b, nic).allocations == b.allocations
    ensures forall d :: AllocatedOn(Looked(b, nic), d) == AllocatedOn(b, d)
  {
  }

  lemma SettledTwice(a: Book, b: Book, c: Book)
    requires Settled(a, b) && Settled(b, c)
    ensures Settled(a, c)
  {
  }

  lemma BookedSettles(b: Book, a: Allocation, delta: real, nic: Nic)
    requires nic.device in b.capacities
    ensures Settled(b, Booked(b, a, delta, nic))
    ensures Booked(b, a, delta, nic).capacities[nic.device].maximum == b.capacities[nic.device].maximum
  {
  }

  lemma Itself(b: Book)
    ensures Settled(b, b)
  {
  }

  /** The search stops at the first interface that does not fail a test. */
  lemma {:induction false} SearchWhere(s: Setup, b: Book, a: Allocation, delta: real, i: nat, current: string -> real)
    returns (j: nat)
    requires i <= |s.nics| && forall k :: 0 <= k < |s.nics| ==> s.nics[k].device != ""
    ensures var (after, reply) := Search(s, b, a, delta, i, current);
            && i <= j <= |s.nics| && Settled(b, after) && (reply == Refused <==> j == |s.nics|)
            && (forall k :: i <= k <= j && k < |s.nics| ==> s.nics[k].device in after.capacities)
            && (forall k :: i <= k < j ==>
                  var nic := s.nics[k];
                  Verdict(s, a, delta, nic, current(nic.device), AllocatedOn(b, nic.device),
                          after.capacities[nic.device].maximum) == Some(false))
            && (j < |s.nics| ==>
                  var nic := s.nics[j];
                  var verdict := Verdict(s, a, delta, nic, current(nic.device), AllocatedOn(b, nic.device),
                                         after.capacities[nic.device].maximum);
                  && (reply == Allocated <==> verdict == Some(true)) && (reply == Invalid <==> verdict == None))
            && after.allocations == (if reply == Allocated
                                     then b.allocations[a.identifier := a.(interface := s.nics[j].interface)]
                                     else b.allocations)
    decreases |s.nics| - i
  {
    hide Suits, Looked, Verdict, Booked, Settled;
    if i == |s.nics| {
      j := i;
      Itself(b);
    } else {
      var nic := s.nics[i];
      var looked := Looked(b, nic);
      LookedSettles(b, nic);
      SuitsIs(s, looked, a, delta, nic, current(nic.device));
      if Suits(s, looked, a, delta, nic, current(nic.device)) == Some(false) {
        j := SearchWhere(s, looked, a, delta, i + 1, current);
        var after := Search(s, looked, a, delta, i + 1, current).0;
        SettledTwice(b, looked, after);
        Kept(looked, after, nic.device);
      } else {
        j := i;
        if Suits(s, looked, a, delta, nic, current(nic.device)) == Some(true) {
          BookedSettles(looked, a, delta, nic);
          SettledTwice(b, looked, Booked(looked, a, delta, nic));
          BookedAllocations(looked, a, delta, nic);
        }
      }
    }
  }

  lemma Kept(b: Book, after: Book, d: string)
    requires Settled(b, after) && d in b.capacities && b.capacities[d].device != ""
    ensures d in after.capacities && after.capacities[d].maximum == b.capacities[d].maximum
  {
  }

  lemma BookedAllocations(b: Book, a: Allocation, delta: real, nic: Nic)
    requires nic.device in b.capacities
    ensures Booked(b, a, delta, nic).allocations == b.allocations[a.identifier := a.(interface := nic.interface)]
  {
  }

  /** The interface on which an allocation lands, or the first with an unreadable address, by the tests
      on the request itself. */
  lemma AllocateWhere(s: Setup, b: Book, a: Allocation, current: string -> real) returns (j: nat)
    requires forall k :: 0 <= k < |s.nics| ==> s.nics[k].device != ""
    ensures var (after, reply) := Allocate(s, b, a, current);
            var asked := if a.identifier in b.allocations && b.allocations[a.identifier].interface != ""
                         then b.allocations[a.identifier].interface else a.interface;
            var more := a.dataRate * a.dataSize
                        - if a.identifier in b.allocations
                          then b.allocations[a.identifier].dataRate * b.allocations[a.identifier].dataSize else 0.0;
            && (!Sensible(s, a) ==> reply == Invalid && after == b)
            && (Sensible(s, a) ==>
                  && j <= |s.nics| && (reply == Refused <==> j == |s.nics|)
                  && (forall k :: 0 <= k <= j && k < |s.nics| ==> s.nics[k].device in after.capacities)
                  && (forall k :: 0 <= k < j ==> Lands(s, b, after, a, asked, more, s.nics[k], current) == Some(false))
                  && (j < |s.nics| ==>
                        && (reply == Allocated
                            <==> Lands(s, b, after, a, asked, more, s.nics[j], current) == Some(true))
                        && (reply == Invalid <==> Lands(s, b, after, a, asked, more, s.nics[j], current) == None))
                  && after.allocations == if reply != Allocated then b.allocations else
                       b.allocations[a.identifier := a.(interface := s.nics[j].interface)])
  {
    hide Search, Verdict, Merge, Delta, Lands;
    j := 0;
    MergeIs(b, a);
    DeltaIs(b, a);
    if Sensible(s, a) {
      var merged, delta := Merge(Previous(b, a.identifier), a), Delta(b, a);
      j := SearchWhere(s, b, merged, delta, 0, current);
      var after := Allocate(s, b, a, current).0;
      forall k | 0 <= k <= j && k < |s.nics|
        ensures Verdict(s, merged, delta, s.nics[k], current(s.nics[k].device), AllocatedOn(b, s.nics[k].device),
                        after.capacities[s.nics[k].device].maximum)
                == Lands(s, b, after, a, merged.interface, delta, s.nics[k], current)
      {
        LandsIs(s, b, after, a, merged, delta, s.nics[k], current);
      }
    }
  }

  function Lands(s: Setup, b: Book, after: Book, a: Allocation, asked: string, more: real, nic: Nic,
                 current: string -> real): Option<bool>
    requires nic.device in after.capacities
  {
    if a.ipAddressable == "" || (s.parse(nic.v4Address).Some? && s.parse(nic.v4Netmask).Some?)
    then Some(Passes(s, a, asked, nic, current(nic.device), AllocatedOn(b, nic.device) + more,
                     after.capacities[nic.device].maximum * s.percent / 100.0))
    else None
  }

  lemma LandsIs(s: Setup, b: Book, after: Book, a: Allocation, merged: Allocation, delta: real, nic: Nic,
                current: string -> real)
    requires nic.device in after.capacities && Sensible(s, a) && merged == a.(interface := merged.interface)
    ensures Verdict(s, merged, delta, nic, current(nic.device), AllocatedOn(b, nic.device),
                    after.capacities[nic.device].maximum)
            == Lands(s, b, after, a, merged.interface, delta, nic, current)
  {
    hide Verdict, SameNet;
    VerdictIs(s, a, merged, delta, nic, current(nic.device), AllocatedOn(b, nic.device),
              after.capacities[nic.device].maximum);
  }

  /** The answer to a request. One without identifier, or with an address or a multicast wish that
      cannot be read, is invalid and changes nothing. Otherwise the interfaces are gone through in
      order up to the first, the j-th, that passes all tests or has an address that cannot be read: the
      addresses agree under the interface's mask, multicast is as wished, the interface is the one kept
      from before or else the one asked for, and neither what the device carries nor what it has given
      out, with this request in place of the one before, exceeds its percentage. Allocated is on that
      interface alone; refused is when there is none. */
  lemma AllocateFigures(s: Setup, b: Book, a: Allocation, current: string -> real) returns (j: nat)
    requires forall k :: 0 <= k < |s.nics| ==> s.nics[k].device != ""
    ensures var (after, reply) := Allocate(s, b, a, current);
            var sensible := a.identifier != "" && (a.ipAddressable != "" ==> s.parse(a.ipAddressable).Some?)
                            && a.multicastSupport != Malformed;
            var readable := (nic: Nic) =>
                  a.ipAddressable == "" || (s.parse(nic.v4Address).Some? && s.parse(nic.v4Netmask).Some?);
            var asked := if a.identifier in b.allocations && b.allocations[a.identifier].interface != ""
                         then b.allocations[a.identifier].interface else a.interface;
            var more := a.dataRate * a.dataSize
                        - if a.identifier in b.allocations
                          then b.allocations[a.identifier].dataRate * b.allocations[a.identifier].dataSize else 0.0;
            var passes := (nic: Nic) =>
                  && (a.ipAddressable == ""
                      || (s.parse(a.ipAddressable).Some? && s.parse(nic.v4Address).Some? && s.parse(nic.v4Netmask).Some?
                          && SameNet(s.parse(a.ipAddressable).value, s.parse(nic.v4Address).value,
                                     s.parse(nic.v4Netmask).value)))
                  && (a.multicastSupport == Wanted(true) ==> nic.multicast)
                  && (a.multicastSupport == Wanted(false) ==> !nic.multicast)
                  && (asked == "" || asked == nic.interface)
                  && nic.device in after.capacities
                  && var most := after.capacities[nic.device].maximum * s.percent / 100.0;
                     && current(nic.device) <= most
                     && (if nic.device in b.capacities then b.capacities[nic.device].reserved else 0.0) + more <= most;
            && (!sensible ==> reply == Invalid && after == b)
            && (sensible ==>
                  && j <= |s.nics| && (forall k :: 0 <= k < j ==> readable(s.nics[k]) && !passes(s.nics[k]))
                  && (reply == Refused <==> j == |s.nics|)
                  && (reply == Invalid <==> j < |s.nics| && !readable(s.nics[j]))
                  && (reply == Allocated <==> j < |s.nics| && readable(s.nics[j]) && passes(s.nics[j]))
                  && after.allocations == if reply != Allocated then b.allocations else
                       b.allocations[a.identifier := a.(interface := s.nics[j].interface)])
  {
    hide Allocate, SameNet, Sensible;
    SensibleIs(s, a);
    j := AllocateWhere(s, b, a, current);
  }

  lemma SensibleIs(s: Setup, a: Allocation)
    ensures Sensible(s, a) == (a.identifier != "" && (a.ipAddressable != "" ==> s.parse(a.ipAddressable).Some?)
                               && a.multicastSupport != Malformed)
  {
  }

  lemma MergeIs(b: Book, a: Allocation)
    ensures var asked := if a.identifier in b.allocations && b.allocations[a.identifier].interface != ""
                         then b.allocations[a.identifier].interface else a.interface;
            Merge(Previous(b, a.identifier), a) == a.(interface := asked)
  {
  }

  lemma DeltaIs(b: Book, a: Allocation)
    ensures Delta(b, a) == a.dataRate * a.dataSize
                           - if a.identifier in b.allocations
                             then b.allocations[a.identifier].dataRate * b.allocations[a.identifier].dataSize else 0.0
  {
  }

  lemma VerdictIs(s: Setup, a: Allocation, merged: Allocation, delta: real, nic: Nic, current: real, reserved: real,
                  maximum: real)
    requires Sensible(s, a) && merged == a.(interface := merged.interface)
    ensures Verdict(s, merged, delta, nic, current, reserved, maximum)
            == if a.ipAddressable == "" || (s.parse(nic.v4Address).Some? && s.parse(nic.v4Netmask).Some?)
               then Some(Passes(s, a, merged.interface, nic, current, reserved + delta, maximum * s.percent / 100.0))
               else None
  {
    hide SameNet;
  }

  predicate Passes(s: Setup, a: Allocation, asked: string, nic: Nic, current: real, requested: real, most: real) {
    && (a.ipAddressable == ""
        || (s.parse(a.ipAddressable).Some? && s.parse(nic.v4Address).Some? && s.parse(nic.v4Netmask).Some?
            && SameNet(s.parse(a.ipAddressable).value, s.parse(nic.v4Address).value, s.parse(nic.v4Netmask).value)))
    && (a.multicastSupport == Wanted(true) ==> nic.multicast)
    && (a.multicastSupport == Wanted(false) ==> !nic.multicast)
    && (asked == "" || asked == nic.interface)
    && current <= most && requested <= most
  }

  /** What a device may give out at most is set, in bits, by the first interface of it that is looked
      at, and stays. */
  lemma {:induction false} MaximumFigures(s: Setup, b: Book, a: Allocation, delta: real, i: nat,
                                          current: string -> real)
    requires i <= |s.nics| && forall k :: 0 <= k < |s.nics| ==> s.nics[k].device != ""
    ensures var after := Search(s, b, a, delta, i, current).0;
            forall d :: d in after.capacities ==>
              if d in b.capacities && b.capacities[d].device != ""
              then after.capacities[d].maximum == b.capacities[d].maximum
              else (d in b.capacities && after.capacities[d].maximum == b.capacities[d].maximum)
                   || exists k :: i <= k < |s.nics| && s.nics[k].device == d
                                  && (forall m :: i <= m < k ==> s.nics[m].device != d)
                                  && after.capacities[d].maximum == s.nics[k].speedMbit * 1000000.0
    decreases |s.nics| - i
  {
    hide Suits;
    if i < |s.nics| {
      var nic := s.nics[i];
      var looked := Looked(b, nic);
      if Suits(s, looked, a, delta, nic, current(nic.device)) == Some(false) {
        MaximumFigures(s, looked, a, delta, i + 1, current);
        var after := Search(s, looked, a, delta, i + 1, current).0;
        forall d | d in after.capacities && !(d in b.capacities && b.capacities[d].device != "")
                   && !(d in b.capacities && after.capacities[d].maximum == b.capacities[d].maximum)
          ensures exists k :: i <= k < |s.nics| && s.nics[k].device == d
                              && (forall m :: i <= m < k ==> s.nics[m].device != d)
                              && after.capacities[d].maximum == s.nics[k].speedMbit * 1000000.0
        {
          if d != nic.device {
            var k :| i + 1 <= k < |s.nics| && s.nics[k].device == d
                     && (forall m :: i + 1 <= m < k ==> s.nics[m].device != d)
                     && after.capacities[d].maximum == s.nics[k].speedMbit * 1000000.0;
            assert forall m :: i <= m < k ==> s.nics[m].device != d;
          }
        }
      }
    }
  }

  class NicAllocator {
    const setup: Setup
    var allocations: map<string, Allocation>
    var capacities: map<string, Capacity>

    constructor (setup: Setup)
      ensures this.setup == setup && State() == Book(map[], map[])
    {
      this.setup, allocations, capacities := setup, map[], map[];
    }

    function State(): Book
      reads this
    {
      Book(allocations, capacities)
    }

    method AllocateCapacity(input: Allocation, current: string -> real) returns (reply: Reply)
      modifies this
      ensures (State(), reply) == Allocate(setup, old(State()), input, current)
    {
      hide Throughput, Suits, Looked, Booked, Sensible;
      if !Sensible(setup, input) {
        return Invalid;
      }
      var alloc, delta := input, Throughput(input);
      if input.identifier in allocations {
        var before := allocations[input.identifier];
        delta := delta - Throughput(before);
        if before.interface != "" {
          alloc := alloc.(interface := before.interface);
        }
      }
      for i := 0 to |setup.nics|
        invariant Search(setup, State(), alloc, delta, i, current) == Allocate(setup, old(State()), input, current)
      {
        var nic := setup.nics[i];
        LookUp(nic);
        var suits := Suits(setup, State(), alloc, delta, nic, current(nic.device));
        if suits == None {
          return Invalid;
        }
        if suits.value {
          Enter(alloc, delta, nic);
          return Allocated;
        }
      }
      return Refused;
    }

    /** The updates of a successful allocation. */
    method Enter(alloc: Allocation, delta: real, nic: Nic)
      requires nic.device in capacities
      modifies this
      ensures State() == Booked(old(State()), alloc, delta, nic)
    {
      allocations := allocations[alloc.identifier := alloc.(interface := nic.interface)];
      var capacity := capacities[nic.device];
      capacities := capacities[nic.device := capacity.(reserved := capacity.reserved + delta)];
    }

    /** lookup_nic_throughput_capacity. */
    method LookUp(nic: Nic)
      modifies this`capacities
      ensures State() == Looked(old(State()), nic) && nic.device in capacities
    {
      var capacity := if nic.device in capacities then capacities[nic.device] else Capacity("", 0.0, 0.0);
      if capacity.device == "" {
        capacity := Capacity(nic.device, nic.speedMbit * MBITS_TO_BITS, capacity.reserved);
        capacities := capacities[nic.device := capacity];
      }
    }

    method DeallocateCapacity(a: Allocation) returns (known: bool)
      modifies this
      ensures (State(), known) == Deallocate(setup, old(State()), a)
      ensures known <==> a.identifier != "" && (a.ipAddressable != "" ==> setup.parse(a.ipAddressable).Some?)
                         && a.multicastSupport != Malformed && a.identifier in old(allocations)
      ensures allocations == if known then old(allocations) - {a.identifier} else old(allocations)
      ensures !known ==> capacities == old(capacities)
    {
      hide Throughput, Looked;
      if !Sensible(setup, a) || a.identifier !in allocations {
        return false;
      }
      var kept := allocations[a.identifier];
      var nic := NicOf(setup.nics, kept.interface);
      if nic.Some? {
        LookUp(nic.value);
        var capacity := capacities[nic.value.device];
        capacities := capacities[nic.value.device := capacity.(reserved := capacity.reserved - Throughput(kept))];
      }
      allocations := allocations - {a.identifier};
      return true;
    }
  }
}
