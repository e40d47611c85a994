// The homing operations, run against the appliances' LAN and overlay capabilities.
module OverlayNetwork {
  import opened Common
  import opened Homing

  type World = map<Appliance, ApplianceState>

  datatype VpnPeerState = Reachable | Unreachable | Unknown

  datatype VpnPeerStatus = VpnPeerStatus(name: string, state: VpnPeerState)

  datatype HomeVerification = HomeVerification(
    vlanDefined: bool,
    subnetAdvertised: bool,
    peersReachable: bool,
    definedSubnet: Option<string>,
    definedGateway: Option<string>,
    peerStates: map<string, VpnPeerState>)

  // {p.name: p.state for p in peers}
  function PeerStates(peers: seq<VpnPeerStatus>): map<string, VpnPeerState> {
    if peers == [] then map[]
    else PeerStates(peers[..|peers| - 1])[peers[|peers| - 1].name := peers[|peers| - 1].state]
  }

  ghost predicate Named(peers: seq<VpnPeerStatus>, i: nat, name: string) {
    i < |peers| && peers[i].name == name
  }

  // No later status names the same peer.
  ghost predicate LastNamed(peers: seq<VpnPeerStatus>, i: nat) {
    i < |peers| && forall j :: i < j < |peers| ==> peers[j].name != peers[i].name
  }

  // A peer is known by the last status that names it, and no other peer is known.
  ghost predicate StatesOf(states: map<string, VpnPeerState>, peers: seq<VpnPeerStatus>) {
    && (forall name :: name in states <==> exists i: nat :: Named(peers, i, name))
    && (forall i: nat :: LastNamed(peers, i) ==>
          peers[i].name in states && states[peers[i].name] == peers[i].state)
  }

  lemma {:induction false} PeerKnown(peers: seq<VpnPeerStatus>, name: string)
    ensures name in PeerStates(peers) <==> exists i: nat :: Named(peers, i, name)
  {
    if peers != [] {
      var front, last := peers[..|peers| - 1], peers[|peers| - 1];
      PeerKnown(front, name);
      forall i: nat | Named(front, i, name) ensures Named(peers, i, name) {
      }
      if exists i: nat :: Named(peers, i, name) {
        var i: nat :| Named(peers, i, name);
        assert i < |front| ==> Named(front, i, name);
      }
      if last.name == name {
        assert Named(peers, |peers| - 1, name);
      }
    }
  }

  lemma {:induction false} PeerState(peers: seq<VpnPeerStatus>, i: nat)
    requires LastNamed(peers, i)
    ensures peers[i].name in PeerStates(peers) && PeerStates(peers)[peers[i].name] == peers[i].state
  {
    var front := peers[..|peers| - 1];
    if i < |front| {
      assert forall j :: i <= j < |front| ==> front[j] == peers[j];
      PeerState(front, i);
    }
  }

  lemma PeerStatesHold(peers: seq<VpnPeerStatus>)
    ensures StatesOf(PeerStates(peers), peers)
  {
    forall name ensures name in PeerStates(peers) <==> exists i: nat :: Named(peers, i, name) {
      PeerKnown(peers, name);
    }
    forall i: nat | LastNamed(peers, i)
      ensures peers[i].name in PeerStates(peers) && PeerStates(peers)[peers[i].name] == peers[i].state
    {
      PeerState(peers, i);
    }
  }

  // The configuration set_subnet_advertised rebuilds: an existing entry keeps its position.
  function Reflagged(cfg: VpnConfig, subnet: string, advertise: bool): VpnConfig {
    var flip := (e: VpnSubnet) => if e.subnet == subnet then VpnSubnet(subnet, advertise) else e;
    var flipped := Map(cfg.subnets, flip);
    if advertise && forall e :: e in cfg.subnets ==> e.subnet != subnet
    then cfg.(subnets := flipped + [VpnSubnet(subnet, true)])
    else cfg.(subnets := flipped)
  }

  ghost predicate Advertises(s: ApplianceState, subnet: string) {
    VpnSubnet(subnet, true) in s.vpn.subnets
  }

  // At most one of the listed appliances defines the VLAN and at most one advertises its subnet.
  ghost predicate SingleHome(w: World, listed: set<Appliance>, vlan: VlanConfig) {
    && (forall d, e | d in listed && e in listed && d in w && e in w ::
          vlan.vlanId in w[d].vlans && vlan.vlanId in w[e].vlans ==> d == e)
    && (forall d, e | d in listed && e in listed && d in w && e in w ::
          Advertises(w[d], vlan.subnet) && Advertises(w[e], vlan.subnet) ==> d == e)
  }

  ghost predicate SingleDefiner(w: World, listed: set<Appliance>, plan: seq<HomeAssignment>) {
    forall a :: a in plan ==> SingleHome(w, listed, a.vlan)
  }

  function Listed(all: seq<Appliance>): set<Appliance> {
    set d | d in all
  }

  // ---------------------------------------------------------------- the writes of a run

  ghost predicate Known(w: World, ds: seq<Appliance>) {
    forall d :: d in ds ==> d in w
  }

  function VlanDeleted(w: World, d: Appliance, id: int): World
    requires d in w
  {
    w[d := w[d].(vlans := w[d].vlans - {id})]
  }

  function VlanSet(w: World, d: Appliance, vlan: VlanConfig): World
    requires d in w
  {
    w[d := w[d].(vlans := w[d].vlans[vlan.vlanId := vlan])]
  }

  function VpnSet(w: World, d: Appliance, cfg: VpnConfig): World
    requires d in w
  {
    w[d := w[d].(vpn := cfg)]
  }

  function AdvertiseSet(w: World, d: Appliance, subnet: string, advertise: bool): World
    requires d in w
  {
    VpnSet(w, d, WithAdvertise(w[d].vpn, subnet, advertise))
  }

  // The world after each write of withdrawing a VLAN from d: an absent VLAN is not deleted.
  function WithdrawTrace(w: World, d: Appliance, vlan: VlanConfig): seq<World>
    requires d in w
  {
    var deleted := VlanDeleted(w, d, vlan.vlanId);
    (if vlan.vlanId in w[d].vlans then [deleted] else [])
    + [AdvertiseSet(deleted, d, vlan.subnet, false)]
  }

  function DefineTrace(w: World, d: Appliance, vlan: VlanConfig): seq<World>
    requires d in w
  {
    var defined := VlanSet(w, d, vlan);
    [defined, AdvertiseSet(defined, d, vlan.subnet, true)]
  }

  // The world after a trace that began at w.
  function LastOf(w: World, trace: seq<World>): World {
    if trace == [] then w else trace[|trace| - 1]
  }

  // The inner loop: every listed appliance but the target lets go of the VLAN.
  function ElsewhereTrace(w: World, a: HomeAssignment, all: seq<Appliance>): (t: seq<World>)
    requires Known(w, all)
    ensures LastOf(w, t).Keys == w.Keys
  {
    if all == [] then []
    else
      var before := ElsewhereTrace(w, a, all[..|all| - 1]);
      var d := all[|all| - 1];
      if d == a.target then before else before + WithdrawTrace(LastOf(w, before), d, a.vlan)
  }

  // One pass of the outer loop: withdraw elsewhere, then define on the target.
  function AssignTrace(w: World, a: HomeAssignment, all: seq<Appliance>): (t: seq<World>)
    requires Known(w, all) && a.target in w
    ensures LastOf(w, t).Keys == w.Keys
  {
    var withdrawn := ElsewhereTrace(w, a, all);
    withdrawn + DefineTrace(LastOf(w, withdrawn), a.target, a.vlan)
  }

  function RealizeTrace(w: World, plan: seq<HomeAssignment>, all: seq<Appliance>): (t: seq<World>)
    requires Known(w, all) && forall a :: a in plan ==> a.target in w
    ensures LastOf(w, t).Keys == w.Keys
  {
    if plan == [] then []
    else
      var before := RealizeTrace(w, plan[..|plan| - 1], all);
      before + AssignTrace(LastOf(w, before), plan[|plan| - 1], all)
  }

  // One assignment more.
  lemma RealizeExtends(w: World, h: seq<World>, plan: seq<HomeAssignment>, i: nat, all: seq<Appliance>)
    requires Known(w, all) && (forall a :: a in plan ==> a.target in w) && i < |plan|
    ensures var before, longer := RealizeTrace(w, plan[..i], all), RealizeTrace(w, plan[..i + 1], all);
      var next := AssignTrace(LastOf(w, before), plan[i], all);
      && h + before + next == h + longer
      && LastOf(LastOf(w, before), next) == LastOf(w, longer)
  {
    TakeOneMore(plan, i);
  }

  // ---------------------------------------------------------------- where a run ends

  lemma {:induction false} ElsewhereStates(w: World, a: HomeAssignment, all: seq<Appliance>, d: Appliance)
    requires Known(w, all) && d in w
    ensures LastOf(w, ElsewhereTrace(w, a, all))[d]
         == if d in all && d != a.target then Withdraw(w[d], a.vlan) else w[d]
  {
    if all != [] {
      var front, e := all[..|all| - 1], all[|all| - 1];
      ElsewhereStates(w, a, front, d);
      assert all == front + [e];
      WithdrawTwice(w[d], a.vlan);
    }
  }

  lemma AssignStates(w: World, a: HomeAssignment, all: seq<Appliance>, d: Appliance)
    requires Known(w, all) && a.target in w && d in w
    ensures LastOf(w, AssignTrace(w, a, all))[d] == Settle(w[d], d, a, d in all)
  {
    ElsewhereStates(w, a, all, d);
  }

  // A run ends with every appliance holding its own share of the plan.
  lemma {:induction false} RealizeStates(w: World, plan: seq<HomeAssignment>, all: seq<Appliance>, d: Appliance)
    requires Known(w, all) && d in w && forall a :: a in plan ==> a.target in w
    ensures LastOf(w, RealizeTrace(w, plan, all))[d] == SettleAll(w[d], d, plan, d in all)
  {
    if plan != [] {
      var front := plan[..|plan| - 1];
      RealizeStates(w, front, all, d);
      AssignStates(LastOf(w, RealizeTrace(w, front, all)), plan[|plan| - 1], all, d);
    }
  }

  // A second run of the same topology ends where it began, list order included.
  lemma RealizeIdempotent(w: World, plan: seq<HomeAssignment>, all: seq<Appliance>)
    requires Known(w, all) && forall a :: a in plan ==> a.target in w
    ensures var once := LastOf(w, RealizeTrace(w, plan, all));
      LastOf(once, RealizeTrace(once, plan, all)) == once
  {
    var once := LastOf(w, RealizeTrace(w, plan, all));
    var twice := LastOf(once, RealizeTrace(once, plan, all));
    forall d | d in w ensures twice[d] == once[d] {
      RealizeStates(w, plan, all, d);
      RealizeStates(once, plan, all, d);
      SettleIdempotent(w[d], d, plan, d in all);
    }
  }

  // ---------------------------------------------------------------- single definer, write by write

  // Taking VLANs and entries away from one appliance cannot break the invariant.
  lemma RemovalKeepsSingle(w: World, d: Appliance, s: ApplianceState,
                           listed: set<Appliance>, plan: seq<HomeAssignment>)
    requires d in w && SingleDefiner(w, listed, plan)
    requires s.vlans.Keys <= w[d].vlans.Keys
    requires forall e :: e in s.vpn.subnets ==> e in w[d].vpn.subnets
    ensures SingleDefiner(w[d := s], listed, plan)
  {
    forall a | a in plan ensures SingleHome(w[d := s], listed, a.vlan) {
      assert SingleHome(w, listed, a.vlan);
    }
  }

  // No listed appliance but d defines the VLAN (or advertises its subnet).
  ghost predicate WithdrawnElsewhere(w: World, listed: set<Appliance>, d: Appliance, vlan: VlanConfig) {
    forall e :: e in listed && e in w && e != d ==>
      vlan.vlanId !in w[e].vlans && !Advertises(w[e], vlan.subnet)
  }

  lemma DefinitionKeepsSingle(w: World, d: Appliance, vlan: VlanConfig,
                              listed: set<Appliance>, plan: seq<HomeAssignment>)
    requires d in w && SingleDefiner(w, listed, plan) && WithdrawnElsewhere(w, listed, d, vlan)
    ensures SingleDefiner(VlanSet(w, d, vlan), listed, plan)
  {
    var after := VlanSet(w, d, vlan);
    forall a | a in plan ensures SingleHome(after, listed, a.vlan) {
      assert SingleHome(w, listed, a.vlan);
    }
  }

  lemma AdvertisedEntries(cfg: VpnConfig, subnet: string, advertise: bool)
    ensures forall e :: e in WithAdvertise(cfg, subnet, advertise).subnets <==>
              (e in cfg.subnets && e.subnet != subnet) || (advertise && e == VpnSubnet(subnet, true))
  {
    forall e: VpnSubnet
      ensures e in Filter(cfg.subnets, OtherThan(subnet)) <==> e in cfg.subnets && e.subnet != subnet
    {
      FilterMember(cfg.subnets, OtherThan(subnet), e);
    }
  }

  lemma AdvertisementKeepsSingle(w: World, d: Appliance, vlan: VlanConfig,
                                 listed: set<Appliance>, plan: seq<HomeAssignment>)
    requires d in w && SingleDefiner(w, listed, plan) && WithdrawnElsewhere(w, listed, d, vlan)
    ensures SingleDefiner(AdvertiseSet(w, d, vlan.subnet, true), listed, plan)
  {
    var after := AdvertiseSet(w, d, vlan.subnet, true);
    AdvertisedEntries(w[d].vpn, vlan.subnet, true);
    forall a | a in plan ensures SingleHome(after, listed, a.vlan) {
      assert SingleHome(w, listed, a.vlan);
    }
  }

  ghost predicate AlwaysSingle(trace: seq<World>, listed: set<Appliance>, plan: seq<HomeAssignment>) {
    forall k :: 0 <= k < |trace| ==> SingleDefiner(trace[k], listed, plan)
  }

  lemma WithdrawKeepsSingle(w: World, d: Appliance, vlan: VlanConfig,
                            listed: set<Appliance>, plan: seq<HomeAssignment>)
    requires d in w && SingleDefiner(w, listed, plan)
    ensures AlwaysSingle(WithdrawTrace(w, d, vlan), listed, plan)
  {
    var deleted := VlanDeleted(w, d, vlan.vlanId);
    RemovalKeepsSingle(w, d, deleted[d], listed, plan);
    AdvertisedEntries(deleted[d].vpn, vlan.subnet, false);
    RemovalKeepsSingle(deleted, d, AdvertiseSet(deleted, d, vlan.subnet, false)[d], listed, plan);
  }

  lemma {:induction false} ElsewhereKeepsSingle(w: World, a: HomeAssignment, all: seq<Appliance>,
                                                listed: set<Appliance>, plan: seq<HomeAssignment>)
    requires Known(w, all) && SingleDefiner(w, listed, plan)
    ensures AlwaysSingle(ElsewhereTrace(w, a, all), listed, plan)
  {
    if all != [] {
      var front := all[..|all| - 1];
      ElsewhereKeepsSingle(w, a, front, listed, plan);
      if all[|all| - 1] != a.target {
        WithdrawKeepsSingle(LastOf(w, ElsewhereTrace(w, a, front)), all[|all| - 1], a.vlan, listed, plan);
      }
    }
  }

  lemma ElsewhereWithdrawn(w: World, a: HomeAssignment, all: seq<Appliance>)
    requires Known(w, all)
    ensures WithdrawnElsewhere(LastOf(w, ElsewhereTrace(w, a, all)), Listed(all), a.target, a.vlan)
  {
    forall e | e in Listed(all) && e != a.target
      ensures a.vlan.vlanId !in LastOf(w, ElsewhereTrace(w, a, all))[e].vlans
      ensures !Advertises(LastOf(w, ElsewhereTrace(w, a, all))[e], a.vlan.subnet)
    {
      ElsewhereStates(w, a, all, e);
      AdvertisedEntries(w[e].vpn, a.vlan.subnet, false);
    }
  }

  lemma DefineKeepsSingle(w: World, d: Appliance, vlan: VlanConfig,
                          listed: set<Appliance>, plan: seq<HomeAssignment>)
    requires d in w && SingleDefiner(w, listed, plan) && WithdrawnElsewhere(w, listed, d, vlan)
    ensures AlwaysSingle(DefineTrace(w, d, vlan), listed, plan)
  {
    DefinitionKeepsSingle(w, d, vlan, listed, plan);
    AdvertisementKeepsSingle(VlanSet(w, d, vlan), d, vlan, listed, plan);
  }

  lemma AlwaysSingleConcat(a: seq<World>, b: seq<World>, listed: set<Appliance>, plan: seq<HomeAssignment>)
    requires AlwaysSingle(a, listed, plan) && AlwaysSingle(b, listed, plan)
    ensures AlwaysSingle(a + b, listed, plan)
  {
  }

  lemma AssignKeepsSingle(w: World, a: HomeAssignment, all: seq<Appliance>, plan: seq<HomeAssignment>)
    requires Known(w, all) && a.target in w && SingleDefiner(w, Listed(all), plan)
    ensures AlwaysSingle(AssignTrace(w, a, all), Listed(all), plan)
  {
    var listed, withdrawn := Listed(all), ElsewhereTrace(w, a, all);
    ElsewhereKeepsSingle(w, a, all, listed, plan);
    ElsewhereWithdrawn(w, a, all);
    DefineKeepsSingle(LastOf(w, withdrawn), a.target, a.vlan, listed, plan);
    AlwaysSingleConcat(withdrawn, DefineTrace(LastOf(w, withdrawn), a.target, a.vlan), listed, plan);
  }

  // Withdrawal precedes definition, so no write of a run gives an assigned VLAN a second home.
  lemma {:induction false} RealizeKeepsSingle(w: World, done: seq<HomeAssignment>, all: seq<Appliance>,
                                              plan: seq<HomeAssignment>)
    requires Known(w, all) && forall a :: a in done ==> a.target in w
    requires SingleDefiner(w, Listed(all), plan)
    ensures AlwaysSingle(RealizeTrace(w, done, all), Listed(all), plan)
  {
    if done != [] {
      var front := done[..|done| - 1];
      RealizeKeepsSingle(w, front, all, plan);
      AssignKeepsSingle(LastOf(w, RealizeTrace(w, front, all)), done[|done| - 1], all, plan);
    }
  }

  // The writes of letting go of a previous home, where one is named.
  function LeaveTrace(w: World, vlan: VlanConfig, previousLan: Option<Appliance>, previousVpn: Option<Appliance>)
    : (t: seq<World>)
    requires previousLan.Some? ==> previousLan.value in w
    requires previousVpn.Some? ==> previousVpn.value in w
    ensures LastOf(w, t).Keys == w.Keys
  {
    var deleted := if previousLan.Some? && vlan.vlanId in w[previousLan.value].vlans
                   then [VlanDeleted(w, previousLan.value, vlan.vlanId)] else [];
    deleted
    + if previousVpn.Some? then [AdvertiseSet(LastOf(w, deleted), previousVpn.value, vlan.subnet, false)] else []
  }

  // The writes of homing one client; the capabilities are passed one by one.
  function HomeTrace(w: World, vlan: VlanConfig, targetLan: Appliance, targetVpn: Appliance,
                     previousLan: Option<Appliance>, previousVpn: Option<Appliance>): seq<World>
    requires targetLan in w && targetVpn in w
    requires previousLan.Some? ==> previousLan.value in w
    requires previousVpn.Some? ==> previousVpn.value in w
  {
    var left := LeaveTrace(w, vlan, previousLan, previousVpn);
    var defined := VlanSet(LastOf(w, left), targetLan, vlan);
    left + [defined, AdvertiseSet(defined, targetVpn, vlan.subnet, true)]
  }

  // What homing leaves of one appliance's VLANs: defined on the target, gone from the previous.
  function HomedVlans(vlans: map<int, VlanConfig>, vlan: VlanConfig, target: bool, previous: bool)
    : map<int, VlanConfig>
  {
    if target then vlans[vlan.vlanId := vlan] else if previous then vlans - {vlan.vlanId} else vlans
  }

  function HomedVpn(cfg: VpnConfig, subnet: string, target: bool, previous: bool): VpnConfig {
    if target || previous then WithAdvertise(cfg, subnet, target) else cfg
  }

  lemma LeaveStates(w: World, vlan: VlanConfig, previousLan: Option<Appliance>, previousVpn: Option<Appliance>,
                    d: Appliance)
    requires previousLan.Some? ==> previousLan.value in w
    requires previousVpn.Some? ==> previousVpn.value in w
    requires d in w
    ensures var left := LastOf(w, LeaveTrace(w, vlan, previousLan, previousVpn));
      && left[d].vlans == HomedVlans(w[d].vlans, vlan, false, previousLan == Some(d))
      && left[d].vpn == HomedVpn(w[d].vpn, vlan.subnet, false, previousVpn == Some(d))
  {
    if previousLan == Some(d) && vlan.vlanId !in w[d].vlans {
      assert w[d].vlans - {vlan.vlanId} == w[d].vlans;
    }
  }

  // Where homing one client ends, whichever appliances its four capabilities belong to.
  lemma HomeStates(w: World, vlan: VlanConfig, targetLan: Appliance, targetVpn: Appliance,
                   previousLan: Option<Appliance>, previousVpn: Option<Appliance>, d: Appliance)
    requires targetLan in w && targetVpn in w && d in w
    requires previousLan.Some? ==> previousLan.value in w
    requires previousVpn.Some? ==> previousVpn.value in w
    ensures var homed := LastOf(w, HomeTrace(w, vlan, targetLan, targetVpn, previousLan, previousVpn));
      && homed.Keys == w.Keys
      && homed[d].vlans == HomedVlans(w[d].vlans, vlan, d == targetLan, previousLan == Some(d))
      && homed[d].vpn == HomedVpn(w[d].vpn, vlan.subnet, d == targetVpn, previousVpn == Some(d))
  {
    var left := LastOf(w, LeaveTrace(w, vlan, previousLan, previousVpn));
    LeaveStates(w, vlan, previousLan, previousVpn, d);
    ArriveStates(left, vlan, targetLan, targetVpn, d);
    if d == targetVpn {
      AdvertiseAgain(w[d].vpn, vlan.subnet);
    }
  }

  lemma ArriveStates(w: World, vlan: VlanConfig, targetLan: Appliance, targetVpn: Appliance, d: Appliance)
    requires targetLan in w && targetVpn in w && d in w
    ensures var arrived := AdvertiseSet(VlanSet(w, targetLan, vlan), targetVpn, vlan.subnet, true);
      && arrived.Keys == w.Keys
      && arrived[d].vlans == (if d == targetLan then w[d].vlans[vlan.vlanId := vlan] else w[d].vlans)
      && arrived[d].vpn == (if d == targetVpn then WithAdvertise(w[d].vpn, vlan.subnet, true) else w[d].vpn)
  {
  }

  lemma AdvertiseAgain(cfg: VpnConfig, subnet: string)
    ensures WithAdvertise(WithAdvertise(cfg, subnet, false), subnet, true) == WithAdvertise(cfg, subnet, true)
  {
    FilterFilter(cfg.subnets, OtherThan(subnet), OtherThan(subnet), OtherThan(subnet));
  }

  // The client's appliances: the target, and the previous one if there is one.
  function Involved(target: Appliance, previous: Option<Appliance>): seq<Appliance> {
    match previous case Some(p) => [p, target] case None => [target]
  }

  lemma OneAssignment(w: World, vlan: VlanConfig, target: Appliance, previous: Option<Appliance>, d: Appliance)
    requires target in w && (previous.Some? ==> previous.value in w) && d in w
    ensures LastOf(w, RealizeTrace(w, [HomeAssignment(vlan, target)], Involved(target, previous)))[d]
         == Settle(w[d], d, HomeAssignment(vlan, target), d in Involved(target, previous))
  {
    var plan := [HomeAssignment(vlan, target)];
    RealizeStates(w, plan, Involved(target, previous), d);
    assert plan[..0] == [];
  }

  // Homing one client ends where realizing that one assignment over its appliances ends, with
  // or without a previous appliance, and even when the client already lives on its target.
  lemma HomeClientIsRealize(w: World, vlan: VlanConfig, target: Appliance, previous: Option<Appliance>)
    requires target in w && (previous.Some? ==> previous.value in w)
    ensures LastOf(w, HomeTrace(w, vlan, target, target, previous, previous))
         == LastOf(w, RealizeTrace(w, [HomeAssignment(vlan, target)], Involved(target, previous)))
  {
    var homed := LastOf(w, HomeTrace(w, vlan, target, target, previous, previous));
    var realized := LastOf(w, RealizeTrace(w, [HomeAssignment(vlan, target)], Involved(target, previous)));
    HomeStates(w, vlan, target, target, previous, previous, target);
    forall d | d in w ensures homed[d] == realized[d] {
      HomeStates(w, vlan, target, target, previous, previous, d);
      OneAssignment(w, vlan, target, previous, d);
    }
  }

  // ---------------------------------------------------------------- what a run promises

  // The facts verify_home reads off an appliance's own state.
  ghost predicate HomedOn(s: ApplianceState, vlan: VlanConfig) {
    && vlan.vlanId in s.vlans
    && s.vlans[vlan.vlanId].subnet == vlan.subnet
    && s.vlans[vlan.vlanId].applianceIp == vlan.applianceIp
    && Advertises(s, vlan.subnet)
  }

  // After a run an assignment verifies as homed exactly when the last assignment of its VLAN id
  // and the last one of its subnet, among those its target sees, keep them on its target.
  lemma RealizedIsVerified(w: World, plan: seq<HomeAssignment>, all: seq<Appliance>, a: HomeAssignment)
    requires Known(w, all) && (forall b :: b in plan ==> b.target in w) && a in plan
    ensures var reaching := Reaching(plan, a.target, a.target in all);
      HomedOn(LastOf(w, RealizeTrace(w, plan, all))[a.target], a.vlan)
      <==> LastDefines(reaching, a.target, a.vlan) && LastAdvertises(reaching, a.target, a.vlan.subnet)
  {
    var t, listed := a.target, a.target in all;
    var reaching := Reaching(plan, t, listed);
    RealizeStates(w, plan, all, t);
    ReachingSettles(w[t], t, plan, listed);
    SettledForm(w[t], t, reaching);
    FilterMember(plan, AssignedTo(t), a);
    assert a in reaching;
    SettledDefines(w[t].vlans, SettleAll(w[t], t, reaching, true).vlans, t, reaching, a.vlan);
    SettledAdvertises(w[t].vpn.subnets, reaching, t, a.vlan.subnet);
  }

  // In a plan that names each VLAN and each subnet once, every assignment verifies.
  lemma DistinctPlanIsVerified(w: World, plan: seq<HomeAssignment>, all: seq<Appliance>, a: HomeAssignment)
    requires Known(w, all) && (forall b :: b in plan ==> b.target in w) && a in plan && DistinctAssignments(plan)
    ensures HomedOn(LastOf(w, RealizeTrace(w, plan, all))[a.target], a.vlan)
  {
    var reaching := Reaching(plan, a.target, a.target in all);
    ReachingDistinct(plan, a.target);
    FilterMember(plan, AssignedTo(a.target), a);
    var i :| 0 <= i < |reaching| && reaching[i] == a;
    assert a.vlan.vlanId !in VlanIds(reaching[i + 1..]) && a.vlan.subnet !in Subnets(reaching[i + 1..]);
    RealizedIsVerified(w, plan, all, a);
  }

  lemma {:induction false} ReachingDistinct(plan: seq<HomeAssignment>, d: Appliance)
    requires DistinctAssignments(plan)
    ensures DistinctAssignments(Filter(plan, AssignedTo(d)))
  {
    if plan != [] {
      var front, last := plan[..|plan| - 1], plan[|plan| - 1];
      ReachingDistinct(front, d);
      var mine := Filter(front, AssignedTo(d));
      forall i | 0 <= i < |mine|
        ensures mine[i].vlan.vlanId != last.vlan.vlanId && mine[i].vlan.subnet != last.vlan.subnet
      {
        FilterMember(front, AssignedTo(d), mine[i]);
        var j :| 0 <= j < |front| && front[j] == mine[i];
        assert plan[j] == mine[i];
      }
    }
  }

  // Homing one client always verifies on its target.
  lemma HomedClientIsVerified(w: World, vlan: VlanConfig, targetLan: Appliance, targetVpn: Appliance,
                              previousLan: Option<Appliance>, previousVpn: Option<Appliance>)
    requires targetLan in w && targetVpn in w
    requires previousLan.Some? ==> previousLan.value in w
    requires previousVpn.Some? ==> previousVpn.value in w
    ensures var homed := LastOf(w, HomeTrace(w, vlan, targetLan, targetVpn, previousLan, previousVpn));
      && vlan.vlanId in homed[targetLan].vlans && homed[targetLan].vlans[vlan.vlanId] == vlan
      && Advertises(homed[targetVpn], vlan.subnet)
  {
    HomeStates(w, vlan, targetLan, targetVpn, previousLan, previousVpn, targetLan);
    HomeStates(w, vlan, targetLan, targetVpn, previousLan, previousVpn, targetVpn);
    AdvertisedEntries(w[targetVpn].vpn, vlan.subnet, true);
  }

  // Setting a subnet's flag: role, hubs and every other entry stay where they are, and the
  // flag is as asked wherever the subnet is listed.
  lemma ReflaggedFacts(cfg: VpnConfig, subnet: string, advertise: bool)
    ensures var r := Reflagged(cfg, subnet, advertise);
      && r.role == cfg.role && r.hubs == cfg.hubs
      && |cfg.subnets| <= |r.subnets| <= |cfg.subnets| + 1
      && (forall i :: 0 <= i < |cfg.subnets| ==>
            r.subnets[i] == if cfg.subnets[i].subnet == subnet then VpnSubnet(subnet, advertise) else cfg.subnets[i])
      && (|cfg.subnets| < |r.subnets| ==> r.subnets[|cfg.subnets|] == VpnSubnet(subnet, true))
      && (forall e :: e in r.subnets && e.subnet == subnet ==> e.advertise == advertise)
      && (advertise ==> VpnSubnet(subnet, true) in r.subnets)
  {
    var r := Reflagged(cfg, subnet, advertise);
    if advertise && !(forall e :: e in cfg.subnets ==> e.subnet != subnet) {
      var i :| 0 <= i < |cfg.subnets| && cfg.subnets[i].subnet == subnet;
      assert r.subnets[i] == VpnSubnet(subnet, true);
    }
  }

  // Asking for the same flag again finds nothing to change, so nothing is pushed.
  lemma ReflaggedConverges(cfg: VpnConfig, subnet: string, advertise: bool)
    ensures var r := Reflagged(cfg, subnet, advertise); Reflagged(r, subnet, advertise) == r
  {
    var r := Reflagged(cfg, subnet, advertise);
    ReflaggedFacts(cfg, subnet, advertise);
    assert Reflagged(r, subnet, advertise).subnets == r.subnets;
  }

  // The managed appliances behind their drivers. `history` holds the world after each write.
  class Network {
    var world: World
    const peers: map<Appliance, seq<VpnPeerStatus>>
    ghost var history: seq<World>

    constructor (world: World, peers: map<Appliance, seq<VpnPeerStatus>>)
      ensures this.world == world && this.peers == peers && history == []
    {
      this.world, this.peers, history := world, peers, [];
    }

    // None is the driver's KeyError.
    method GetVlan(d: Appliance, id: int) returns (r: Option<VlanConfig>)
      requires d in world
      ensures r == if id in world[d].vlans then Some(world[d].vlans[id]) else None
    {
      r := if id in world[d].vlans then Some(world[d].vlans[id]) else None;
    }

    method SetVlan(d: Appliance, vlan: VlanConfig)
      requires d in world
      modifies this
      ensures world == VlanSet(old(world), d, vlan) && history == old(history) + [world]
    {
      world := VlanSet(world, d, vlan);
      history := history + [world];
    }

    // A driver may refuse to delete a VLAN that is not there.
    method DeleteVlan(d: Appliance, id: int)
      requires d in world && id in world[d].vlans
      modifies this
      ensures world == VlanDeleted(old(world), d, id) && history == old(history) + [world]
    {
      world := VlanDeleted(world, d, id);
      history := history + [world];
    }

    method SetVpnConfig(d: Appliance, cfg: VpnConfig)
      requires d in world
      modifies this
      ensures world == VpnSet(old(world), d, cfg) && history == old(history) + [world]
    {
      world := VpnSet(world, d, cfg);
      history := history + [world];
    }

    method DeleteIfPresent(d: Appliance, id: int)
      requires d in world
      modifies this
      ensures world == VlanDeleted(old(world), d, id)
      ensures id !in old(world)[d].vlans ==> world == old(world)
      ensures history == old(history) + if id in old(world)[d].vlans then [world] else []
    {
      var present := GetVlan(d, id);
      if present == None {
        assert world[d].vlans - {id} == world[d].vlans;
        assert world == VlanDeleted(world, d, id);
        return;
      }
      DeleteVlan(d, id);
    }

    method SetAdvertise(d: Appliance, subnet: string, advertise: bool)
      requires d in world
      modifies this
      ensures world == AdvertiseSet(old(world), d, subnet, advertise)
      ensures history == old(history) + [world]
    {
      var cfg := world[d].vpn;
      var subnets := [];
      for i := 0 to |cfg.subnets|
        invariant unchanged(this)
        invariant subnets == Filter(cfg.subnets[..i], OtherThan(subnet))
      {
        TakeOneMore(cfg.subnets, i);
        if cfg.subnets[i].subnet != subnet {
          subnets := subnets + [cfg.subnets[i]];
        }
      }
      assert cfg.subnets[..|cfg.subnets|] == cfg.subnets;
      if advertise {
        subnets := subnets + [VpnSubnet(subnet, true)];
      }
      SetVpnConfig(d, VpnConfig(cfg.role, cfg.hubs, subnets));
    }

    // A converged configuration is not pushed again.
    method SetSubnetAdvertised(d: Appliance, subnet: string, advertise: bool)
      requires d in world
      modifies this
      ensures world == VpnSet(old(world), d, Reflagged(old(world)[d].vpn, subnet, advertise))
      ensures history == old(history)
                         + if Reflagged(old(world)[d].vpn, subnet, advertise) == old(world)[d].vpn
                           then [] else [world]
    {
      var cfg := world[d].vpn;
      var rebuilt := Reflagged(cfg, subnet, advertise);
      if rebuilt == cfg {
        assert world == VpnSet(world, d, cfg);
        return;
      }
      SetVpnConfig(d, rebuilt);
    }

    method VerifyHome(vlan: VlanConfig, targetLan: Appliance, targetVpn: Appliance)
      returns (v: HomeVerification)
      requires targetLan in world && targetVpn in world && targetVpn in peers
      ensures v.vlanDefined <==> vlan.vlanId in world[targetLan].vlans
                                 && world[targetLan].vlans[vlan.vlanId].subnet == vlan.subnet
                                 && world[targetLan].vlans[vlan.vlanId].applianceIp == vlan.applianceIp
      ensures v.subnetAdvertised <==> Advertises(world[targetVpn], vlan.subnet)
      ensures v.peersReachable <==> peers[targetVpn] != []
                                    && forall p :: p in peers[targetVpn] ==> p.state == Reachable
      ensures vlan.vlanId !in world[targetLan].vlans ==> v.definedSubnet == None && v.definedGateway == None
      ensures vlan.vlanId in world[targetLan].vlans ==>
                && v.definedSubnet == Some(world[targetLan].vlans[vlan.vlanId].subnet)
                && v.definedGateway == Some(world[targetLan].vlans[vlan.vlanId].applianceIp)
      ensures StatesOf(v.peerStates, peers[targetVpn])
    {
      PeerStatesHold(peers[targetVpn]);
      var defined := GetVlan(targetLan, vlan.vlanId);
      var vlanDefined := defined.Some?
        && defined.value.subnet == vlan.subnet && defined.value.applianceIp == vlan.applianceIp;
      var subnets, statuses := world[targetVpn].vpn.subnets, peers[targetVpn];
      var subnetAdvertised := exists s :: s in subnets && s.subnet == vlan.subnet && s.advertise;
      assert subnetAdvertised ==> Advertises(world[targetVpn], vlan.subnet) by {
        if subnetAdvertised {
          var s :| s in subnets && s.subnet == vlan.subnet && s.advertise;
          assert s == VpnSubnet(vlan.subnet, true);
        }
      }
      var peersReachable := statuses != [] && forall p :: p in statuses ==> p.state == Reachable;
      v := HomeVerification(
        vlanDefined, subnetAdvertised, peersReachable,
        if defined.Some? then Some(defined.value.subnet) else None,
        if defined.Some? then Some(defined.value.applianceIp) else None,
        PeerStates(statuses));
    }

    // Withdraw where a previous appliance is named, then define and advertise on the target.
    method HomeClient(vlan: VlanConfig, targetLan: Appliance, targetVpn: Appliance,
                      previousLan: Option<Appliance>, previousVpn: Option<Appliance>)
      requires targetLan in world && targetVpn in world
      requires previousLan.Some? ==> previousLan.value in world
      requires previousVpn.Some? ==> previousVpn.value in world
      modifies this
      ensures var t := HomeTrace(old(world), vlan, targetLan, targetVpn, previousLan, previousVpn);
        history == old(history) + t && world == LastOf(old(world), t)
    {
      if previousLan.Some? {
        DeleteIfPresent(previousLan.value, vlan.vlanId);
      }
      if previousVpn.Some? {
        SetAdvertise(previousVpn.value, vlan.subnet, false);
      }
      SetVlan(targetLan, vlan);
      SetAdvertise(targetVpn, vlan.subnet, true);
    }

    // The whole topology, write by write.
    method Realize(plan: seq<HomeAssignment>, all: seq<Appliance>)
      requires Known(world, all) && forall a :: a in plan ==> a.target in world
      modifies this
      ensures history == old(history) + RealizeTrace(old(world), plan, all)
      ensures world == LastOf(old(world), RealizeTrace(old(world), plan, all))
    {
      ghost var w0, h0 := world, history;
      for i := 0 to |plan|
        invariant history == h0 + RealizeTrace(w0, plan[..i], all)
        invariant world == LastOf(w0, RealizeTrace(w0, plan[..i], all))
      {
        RealizeOne(plan[i], all);
        RealizeExtends(w0, h0, plan, i, all);
      }
      assert plan[..|plan|] == plan;
    }

    // One turn of the inner loop.
    method WithdrawFrom(d: Appliance, vlan: VlanConfig)
      requires d in world
      modifies this
      ensures history == old(history) + WithdrawTrace(old(world), d, vlan)
      ensures world == LastOf(old(world), WithdrawTrace(old(world), d, vlan))
    {
      DeleteIfPresent(d, vlan.vlanId);
      SetAdvertise(d, vlan.subnet, false);
    }

    // One pass of the outer loop.
    method RealizeOne(a: HomeAssignment, all: seq<Appliance>)
      requires Known(world, all) && a.target in world
      modifies this
      ensures history == old(history) + AssignTrace(old(world), a, all)
      ensures world == LastOf(old(world), AssignTrace(old(world), a, all))
    {
      ghost var w0, h0 := world, history;
      for j := 0 to |all|
        invariant history == h0 + ElsewhereTrace(w0, a, all[..j])
        invariant world == LastOf(w0, ElsewhereTrace(w0, a, all[..j]))
      {
        TakeOneMore(all, j);
        if all[j] == a.target {
          continue;
        }
        WithdrawFrom(all[j], a.vlan);
      }
      assert all[..|all|] == all;
      SetVlan(a.target, a.vlan);
      SetAdvertise(a.target, a.vlan.subnet, true);
    }
  }
}
