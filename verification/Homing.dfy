// Overlay homing: where a client's fixed VLAN is defined and its subnet advertised.
// The pure functions say what one appliance ends up with; OverlayNetwork.dfy runs them.
module Homing {
  import opened Common

  datatype DhcpSettings = DhcpSettings(leaseSeconds: int, dnsServers: seq<string>)

  datatype VlanConfig = VlanConfig(
    vlanId: int, name: string, subnet: string, applianceIp: string, dhcp: DhcpSettings)

  datatype VpnRole = Hub | Spoke | Disabled

  datatype VpnHub = VpnHub(name: string, useDefaultRoute: bool)

  datatype VpnSubnet = VpnSubnet(subnet: string, advertise: bool)

  datatype VpnConfig = VpnConfig(role: VpnRole, hubs: seq<VpnHub>, subnets: seq<VpnSubnet>)

  // What the LAN and overlay capabilities of one appliance hold.
  datatype ApplianceState = ApplianceState(vlans: map<int, VlanConfig>, vpn: VpnConfig)

  type Appliance = nat

  datatype HomeAssignment = HomeAssignment(vlan: VlanConfig, target: Appliance)

  // ---------------------------------------------------------------- one appliance, one step

  function OtherThan(subnet: string): VpnSubnet -> bool {
    (entry: VpnSubnet) => entry.subnet != subnet
  }

  function WithoutSubnet(cfg: VpnConfig, subnet: string): VpnConfig {
    cfg.(subnets := Filter(cfg.subnets, OtherThan(subnet)))
  }

  // The configuration _set_advertise writes back.
  function WithAdvertise(cfg: VpnConfig, subnet: string, advertise: bool): VpnConfig {
    var kept := WithoutSubnet(cfg, subnet);
    if advertise then kept.(subnets := kept.subnets + [VpnSubnet(subnet, true)]) else kept
  }

  function Withdraw(s: ApplianceState, vlan: VlanConfig): ApplianceState {
    ApplianceState(s.vlans - {vlan.vlanId}, WithAdvertise(s.vpn, vlan.subnet, false))
  }

  function Define(s: ApplianceState, vlan: VlanConfig): ApplianceState {
    ApplianceState(s.vlans[vlan.vlanId := vlan], WithAdvertise(s.vpn, vlan.subnet, true))
  }

  lemma WithdrawTwice(s: ApplianceState, vlan: VlanConfig)
    ensures Withdraw(Withdraw(s, vlan), vlan) == Withdraw(s, vlan)
  {
    var other := OtherThan(vlan.subnet);
    FilterFilter(s.vpn.subnets, other, other, other);
  }

  lemma DefineAfterWithdraw(s: ApplianceState, vlan: VlanConfig)
    ensures Define(Withdraw(s, vlan), vlan) == Define(s, vlan)
  {
    var other := OtherThan(vlan.subnet);
    FilterFilter(s.vpn.subnets, other, other, other);
  }

  // ---------------------------------------------------------------- one appliance, one topology

  // What an assignment does to appliance d, when d is among the listed appliances or not.
  function Settle(s: ApplianceState, d: Appliance, a: HomeAssignment, listed: bool): ApplianceState {
    if a.target == d then Define(s, a.vlan)
    else if listed then Withdraw(s, a.vlan)
    else s
  }

  function SettleAll(s: ApplianceState, d: Appliance, plan: seq<HomeAssignment>, listed: bool): ApplianceState {
    if plan == [] then s
    else Settle(SettleAll(s, d, plan[..|plan| - 1], listed), d, plan[|plan| - 1], listed)
  }

  function VlanIds(plan: seq<HomeAssignment>): set<int> {
    set a | a in plan :: a.vlan.vlanId
  }

  function Subnets(plan: seq<HomeAssignment>): set<string> {
    set a | a in plan :: a.vlan.subnet
  }

  function OutsidePlan(plan: seq<HomeAssignment>): VpnSubnet -> bool {
    (entry: VpnSubnet) => entry.subnet !in Subnets(plan)
  }

  function AssignedTo(d: Appliance): HomeAssignment -> bool {
    (a: HomeAssignment) => a.target == d
  }

  function Advertised(a: HomeAssignment): VpnSubnet {
    VpnSubnet(a.vlan.subnet, true)
  }

  // The entries the plan leaves on d: each subnet's last assignment decides where it lives.
  function LastWord(plan: seq<HomeAssignment>, d: Appliance): seq<VpnSubnet> {
    if plan == [] then [] else Unless(Subnets(plan[1..]), plan[0], d) + LastWord(plan[1..], d)
  }

  // The entry of an assignment to d, unless a later assignment names the same subnet.
  function Unless(later: set<string>, a: HomeAssignment, d: Appliance): seq<VpnSubnet> {
    if a.target == d && a.vlan.subnet !in later then [Advertised(a)] else []
  }

  // The VLANs the plan leaves on d: each VLAN id's last assignment decides where it lives.
  ghost predicate VlansSettled(before: map<int, VlanConfig>, after: map<int, VlanConfig>,
                               d: Appliance, plan: seq<HomeAssignment>)
  {
    && (forall id :: id !in VlanIds(plan) ==>
          && (id in after <==> id in before)
          && (id in after ==> after[id] == before[id]))
    && (forall i :: 0 <= i < |plan| && plan[i].vlan.vlanId !in VlanIds(plan[i + 1..]) ==>
          var id := plan[i].vlan.vlanId;
          && (id in after <==> plan[i].target == d)
          && (id in after ==> after[id] == plan[i].vlan))
  }

  lemma UnlessDrops(later: set<string>, a: HomeAssignment, d: Appliance, subnet: string)
    ensures Unless(later + {subnet}, a, d) == Filter(Unless(later, a, d), OtherThan(subnet))
  {
    FilterSnoc([], Advertised(a), OtherThan(subnet));
    assert [] + [Advertised(a)] == [Advertised(a)];
  }

  lemma {:induction false} LastWordDrops(plan: seq<HomeAssignment>, a: HomeAssignment, d: Appliance)
    ensures LastWord(plan + [a], d)
         == Filter(LastWord(plan, d), OtherThan(a.vlan.subnet)) + Unless({}, a, d)
  {
    var whole, other := plan + [a], OtherThan(a.vlan.subnet);
    if plan == [] {
      assert whole[1..] == [];
      assert LastWord(whole[1..], d) == [];
      assert Subnets(whole[1..]) == {};
    } else {
      var rest := plan[1..];
      assert whole[1..] == rest + [a];
      calc {
        LastWord(whole, d);
        { assert Subnets(rest + [a]) == Subnets(rest) + {a.vlan.subnet}; }
        Unless(Subnets(rest) + {a.vlan.subnet}, plan[0], d) + LastWord(rest + [a], d);
        { UnlessDrops(Subnets(rest), plan[0], d, a.vlan.subnet); LastWordDrops(rest, a, d); }
        Filter(Unless(Subnets(rest), plan[0], d), other) + (Filter(LastWord(rest, d), other) + Unless({}, a, d));
        (Filter(Unless(Subnets(rest), plan[0], d), other) + Filter(LastWord(rest, d), other)) + Unless({}, a, d);
        { FilterConcat(Unless(Subnets(rest), plan[0], d), LastWord(rest, d), other); }
        Filter(LastWord(plan, d), other) + Unless({}, a, d);
      }
    }
  }

  // Whatever the plan repeats, a run leaves role and hubs alone, keeps every unassigned
  // VLAN and overlay entry in place, and lets each id's and each subnet's last assignment win.
  lemma {:induction false} SettledForm(s: ApplianceState, d: Appliance, plan: seq<HomeAssignment>)
    ensures var r := SettleAll(s, d, plan, true);
      && VlansSettled(s.vlans, r.vlans, d, plan)
      && r.vpn.role == s.vpn.role && r.vpn.hubs == s.vpn.hubs
      && r.vpn.subnets == Filter(s.vpn.subnets, OutsidePlan(plan)) + LastWord(plan, d)
  {
    if plan == [] {
      FilterAll(s.vpn.subnets, OutsidePlan(plan));
    } else {
      var front, a := plan[..|plan| - 1], plan[|plan| - 1];
      SettledForm(s, d, front);
      assert plan == front + [a];
      SettledVlans(s, d, front, a);
      SettledSubnets(s.vpn.subnets, d, front, a);
    }
  }

  lemma SettledSubnets(entries: seq<VpnSubnet>, d: Appliance, front: seq<HomeAssignment>, a: HomeAssignment)
    ensures Filter(Filter(entries, OutsidePlan(front)) + LastWord(front, d), OtherThan(a.vlan.subnet))
            + Unless({}, a, d)
         == Filter(entries, OutsidePlan(front + [a])) + LastWord(front + [a], d)
  {
    var other := OtherThan(a.vlan.subnet);
    var kept, last := Filter(entries, OutsidePlan(front)), LastWord(front, d);
    FilterConcat(kept, last, other);
    OutsideLonger(entries, front, a);
    LastWordDrops(front, a, d);
  }

  lemma OutsideLonger(entries: seq<VpnSubnet>, front: seq<HomeAssignment>, a: HomeAssignment)
    ensures Filter(Filter(entries, OutsidePlan(front)), OtherThan(a.vlan.subnet))
            == Filter(entries, OutsidePlan(front + [a]))
  {
    assert Subnets(front + [a]) == Subnets(front) + {a.vlan.subnet};
    FilterFilter(entries, OutsidePlan(front), OtherThan(a.vlan.subnet), OutsidePlan(front + [a]));
  }

  lemma SettledVlans(s: ApplianceState, d: Appliance, front: seq<HomeAssignment>, a: HomeAssignment)
    requires VlansSettled(s.vlans, SettleAll(s, d, front, true).vlans, d, front)
    ensures VlansSettled(s.vlans, Settle(SettleAll(s, d, front, true), d, a, true).vlans, d, front + [a])
  {
    VlansStep(s.vlans, SettleAll(s, d, front, true), d, front, a);
  }

  lemma VlansStep(before: map<int, VlanConfig>, mid: ApplianceState, d: Appliance,
                  front: seq<HomeAssignment>, a: HomeAssignment)
    requires VlansSettled(before, mid.vlans, d, front)
    ensures VlansSettled(before, Settle(mid, d, a, true).vlans, d, front + [a])
  {
    var plan, after := front + [a], Settle(mid, d, a, true).vlans;
    assert VlanIds(plan) == VlanIds(front) + {a.vlan.vlanId};
    forall i | 0 <= i < |plan| && plan[i].vlan.vlanId !in VlanIds(plan[i + 1..])
      ensures var id := plan[i].vlan.vlanId;
        && (id in after <==> plan[i].target == d)
        && (id in after ==> after[id] == plan[i].vlan)
    {
      if i < |front| {
        assert plan[i + 1..] == front[i + 1..] + [a];
        assert VlanIds(plan[i + 1..]) == VlanIds(front[i + 1..]) + {a.vlan.vlanId};
        assert plan[i] == front[i];
      }
    }
  }

  // ---------------------------------------------------------------- distinct assignments

  ghost predicate DistinctAssignments(plan: seq<HomeAssignment>) {
    forall i, j :: 0 <= i < j < |plan| ==>
      plan[i].vlan.vlanId != plan[j].vlan.vlanId && plan[i].vlan.subnet != plan[j].vlan.subnet
  }

  lemma {:induction false} LastWordDistinct(plan: seq<HomeAssignment>, d: Appliance)
    requires DistinctAssignments(plan)
    ensures LastWord(plan, d) == Map(Filter(plan, AssignedTo(d)), Advertised)
  {
    if plan != [] {
      var rest := plan[1..];
      FirstWord(plan, d);
      LastWordDistinct(rest, d);
      FilterCons(plan[0], rest, AssignedTo(d));
      assert plan == [plan[0]] + rest;
      MapConcat(Filter([plan[0]], AssignedTo(d)), Filter(rest, AssignedTo(d)), Advertised);
    }
  }

  lemma FirstWord(plan: seq<HomeAssignment>, d: Appliance)
    requires plan != [] && DistinctAssignments(plan)
    ensures DistinctAssignments(plan[1..])
    ensures Unless(Subnets(plan[1..]), plan[0], d) == Map(Filter([plan[0]], AssignedTo(d)), Advertised)
  {
    assert plan[0].vlan.subnet !in Subnets(plan[1..]);
    FilterSnoc([], plan[0], AssignedTo(d));
    assert [] + [plan[0]] == [plan[0]];
  }

  lemma FilterCons<T>(x: T, s: seq<T>, keep: T -> bool)
    ensures Filter([x] + s, keep) == Filter([x], keep) + Filter(s, keep)
    ensures Filter([x], keep) == if keep(x) then [x] else []
  {
    FilterConcat([x], s, keep);
    FilterSnoc([], x, keep);
    assert [] + [x] == [x];
  }

  // The closed form for a plan that names each VLAN and each subnet once: d keeps what
  // was not assigned, in order, then carries exactly its own assignments, in plan order.
  lemma DistinctPlanForm(s: ApplianceState, d: Appliance, plan: seq<HomeAssignment>)
    requires DistinctAssignments(plan)
    ensures var r := SettleAll(s, d, plan, true);
      && r.vpn.role == s.vpn.role && r.vpn.hubs == s.vpn.hubs
      && r.vpn.subnets == Filter(s.vpn.subnets, OutsidePlan(plan))
                          + Map(Filter(plan, AssignedTo(d)), Advertised)
      && r.vlans.Keys == (s.vlans.Keys - VlanIds(plan)) + VlanIds(Filter(plan, AssignedTo(d)))
      && (forall id :: id in s.vlans && id !in VlanIds(plan) ==> r.vlans[id] == s.vlans[id])
      && (forall a :: a in plan && a.target == d ==> a.vlan.vlanId in r.vlans && r.vlans[a.vlan.vlanId] == a.vlan)
  {
    SettledForm(s, d, plan);
    LastWordDistinct(plan, d);
    var r := SettleAll(s, d, plan, true);
    forall a | a in plan
      ensures a.vlan.vlanId in r.vlans <==> a.target == d
      ensures a.target == d ==> r.vlans[a.vlan.vlanId] == a.vlan
    {
      var i :| 0 <= i < |plan| && plan[i] == a;
      assert plan[i].vlan.vlanId !in VlanIds(plan[i + 1..]);
    }
    forall id ensures id in r.vlans.Keys
                <==> id in (s.vlans.Keys - VlanIds(plan)) + VlanIds(Filter(plan, AssignedTo(d)))
    {
      forall a: HomeAssignment ensures a in Filter(plan, AssignedTo(d)) <==> a in plan && a.target == d {
        FilterMember(plan, AssignedTo(d), a);
      }
      if id in VlanIds(plan) && id in r.vlans {
        var a :| a in plan && a.vlan.vlanId == id;
        assert a in Filter(plan, AssignedTo(d));
      }
    }
  }

  // ---------------------------------------------------------------- re-running

  lemma {:induction false} LastWordSubnets(plan: seq<HomeAssignment>, d: Appliance, entry: VpnSubnet)
    requires entry in LastWord(plan, d)
    ensures entry.subnet in Subnets(plan)
  {
    if entry in LastWord(plan[1..], d) {
      LastWordSubnets(plan[1..], d, entry);
    }
  }

  // A last index with a given VLAN id exists whenever the id is assigned at all.
  lemma {:induction false} LastIndex(plan: seq<HomeAssignment>, id: int) returns (i: nat)
    requires id in VlanIds(plan)
    ensures i < |plan| && plan[i].vlan.vlanId == id && id !in VlanIds(plan[i + 1..])
  {
    if id in VlanIds(plan[1..]) {
      var j := LastIndex(plan[1..], id);
      i := j + 1;
      assert plan[1..][j + 1..] == plan[i + 1..];
    } else {
      i := 0;
    }
  }

  lemma ResettledVlans(before: map<int, VlanConfig>, once: map<int, VlanConfig>, twice: map<int, VlanConfig>,
                       d: Appliance, plan: seq<HomeAssignment>)
    requires VlansSettled(before, once, d, plan) && VlansSettled(once, twice, d, plan)
    ensures once == twice
  {
    forall id
      ensures id in twice <==> id in once
      ensures id in twice ==> twice[id] == once[id]
    {
      if id in VlanIds(plan) {
        var i := LastIndex(plan, id);
      }
    }
  }

  lemma ResettledSubnets(entries: seq<VpnSubnet>, plan: seq<HomeAssignment>, d: Appliance)
    ensures Filter(Filter(entries, OutsidePlan(plan)) + LastWord(plan, d), OutsidePlan(plan))
         == Filter(entries, OutsidePlan(plan))
  {
    var outside := OutsidePlan(plan);
    FilterConcat(Filter(entries, outside), LastWord(plan, d), outside);
    FilterFilter(entries, outside, outside, outside);
    forall entry | entry in LastWord(plan, d) ensures !outside(entry) {
      LastWordSubnets(plan, d, entry);
    }
    FilterNone(LastWord(plan, d), outside);
  }

  // The assignments a run lets d see: all of them when d is listed, else those that target it.
  function Reaching(plan: seq<HomeAssignment>, d: Appliance, listed: bool): seq<HomeAssignment> {
    if listed then plan else Filter(plan, AssignedTo(d))
  }

  // An appliance outside the list ends as a listed one would under its own assignments alone.
  lemma {:induction false} ReachingSettles(s: ApplianceState, d: Appliance, plan: seq<HomeAssignment>, listed: bool)
    ensures SettleAll(s, d, plan, listed) == SettleAll(s, d, Reaching(plan, d, listed), true)
  {
    if !listed && plan != [] {
      var front, a := plan[..|plan| - 1], plan[|plan| - 1];
      ReachingSettles(s, d, front, false);
      var mine := Filter(front, AssignedTo(d));
      assert (mine + [a])[..|mine|] == mine;
      assert a.target != d ==> Filter(plan, AssignedTo(d)) == mine;
    }
  }

  // Applying the same plan to its own result changes nothing, list order included.
  lemma SettleIdempotent(s: ApplianceState, d: Appliance, plan: seq<HomeAssignment>, listed: bool)
    ensures SettleAll(SettleAll(s, d, plan, listed), d, plan, listed) == SettleAll(s, d, plan, listed)
  {
    var reaching := Reaching(plan, d, listed);
    ReachingSettles(s, d, plan, listed);
    ReachingSettles(SettleAll(s, d, plan, listed), d, plan, listed);
    SettleAgain(s, d, reaching);
  }

  lemma SettleAgain(s: ApplianceState, d: Appliance, plan: seq<HomeAssignment>)
    ensures SettleAll(SettleAll(s, d, plan, true), d, plan, true) == SettleAll(s, d, plan, true)
  {
    var once := SettleAll(s, d, plan, true);
    SettledForm(s, d, plan);
    SettledForm(once, d, plan);
    ResettledSubnets(s.vpn.subnets, plan, d);
    ResettledVlans(s.vlans, once.vlans, SettleAll(once, d, plan, true).vlans, d, plan);
  }

  // ---------------------------------------------------------------- what a run leaves verifiable

  // The last assignment of the VLAN id puts it on d, with this subnet and gateway.
  ghost predicate LastDefines(plan: seq<HomeAssignment>, d: Appliance, vlan: VlanConfig) {
    exists i :: 0 <= i < |plan| && plan[i].vlan.vlanId == vlan.vlanId && vlan.vlanId !in VlanIds(plan[i + 1..])
                && plan[i].target == d
                && plan[i].vlan.subnet == vlan.subnet && plan[i].vlan.applianceIp == vlan.applianceIp
  }

  // The last assignment of the subnet puts it on d.
  ghost predicate LastAdvertises(plan: seq<HomeAssignment>, d: Appliance, subnet: string) {
    exists i :: 0 <= i < |plan| && plan[i].vlan.subnet == subnet && subnet !in Subnets(plan[i + 1..])
                && plan[i].target == d
  }

  lemma SettledDefines(before: map<int, VlanConfig>, after: map<int, VlanConfig>, d: Appliance,
                       plan: seq<HomeAssignment>, vlan: VlanConfig)
    requires VlansSettled(before, after, d, plan) && vlan.vlanId in VlanIds(plan)
    ensures (vlan.vlanId in after && after[vlan.vlanId].subnet == vlan.subnet
             && after[vlan.vlanId].applianceIp == vlan.applianceIp)
       <==> LastDefines(plan, d, vlan)
  {
    var i := LastIndex(plan, vlan.vlanId);
  }

  lemma {:induction false} LastWordHolds(plan: seq<HomeAssignment>, d: Appliance, subnet: string)
    ensures VpnSubnet(subnet, true) in LastWord(plan, d) <==> LastAdvertises(plan, d, subnet)
  {
    if plan != [] {
      var rest := plan[1..];
      LastWordHolds(rest, d, subnet);
      if LastAdvertises(rest, d, subnet) {
        var i :| 0 <= i < |rest| && rest[i].vlan.subnet == subnet && subnet !in Subnets(rest[i + 1..])
                 && rest[i].target == d;
        assert plan[i + 1] == rest[i] && plan[i + 1 + 1..] == rest[i + 1..];
      }
      if LastAdvertises(plan, d, subnet) {
        var i :| 0 <= i < |plan| && plan[i].vlan.subnet == subnet && subnet !in Subnets(plan[i + 1..])
                 && plan[i].target == d;
        if i > 0 {
          assert rest[i - 1] == plan[i] && rest[i - 1 + 1..] == plan[i + 1..];
        }
      }
    }
  }

  lemma SettledAdvertises(entries: seq<VpnSubnet>, plan: seq<HomeAssignment>, d: Appliance, subnet: string)
    requires subnet in Subnets(plan)
    ensures VpnSubnet(subnet, true) in Filter(entries, OutsidePlan(plan)) + LastWord(plan, d)
       <==> LastAdvertises(plan, d, subnet)
  {
    FilterMember(entries, OutsidePlan(plan), VpnSubnet(subnet, true));
    LastWordHolds(plan, d, subnet);
  }
}
