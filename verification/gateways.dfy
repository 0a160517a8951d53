/** Which gateway a MASQUE run goes to: the one that works, until its tunnels keep ending soon. */
module Gateways {
  import opened Bytes

  type Ip = nat

  datatype Peer = Peer(ip: Ip, port: nat)

  /** A tunnel that lasts this many seconds is no strike when it ends. */
  const TUNNEL_STAYED_UP: nat := 300
  const MASQUE_GATEWAY_STRIKES: nat := 2
  /** How long a gateway that was given up stays out of the scans. */
  const MASQUE_GATEWAY_REST: nat := 300

  const U32_MAX: nat := 0xFFFF_FFFF

  function CountTunnelEnd(inARow: nat, lasted: nat): nat {
    if lasted >= TUNNEL_STAYED_UP then 0 else if inARow < U32_MAX then inARow + 1 else inARow
  }

  function Unexpired(resting: map<Ip, nat>, now: nat): map<Ip, nat> {
    map ip | ip in resting && resting[ip] > now :: resting[ip]
  }

  class GatewayStrikes {
    var current: Option<Peer>
    var inARow: nat
    var resting: map<Ip, nat>

    constructor ()
      ensures current.None? && inARow == 0 && resting == map[]
    {
      current, inARow, resting := None, 0, map[];
    }

    /** Notes the gateway of a tunnel that starts; the strikes of an earlier, different gateway are dropped. */
    method Using(peer: Peer)
      modifies this
      ensures current == Some(peer) && resting == old(resting)
      ensures inARow == if old(current) == Some(peer) then old(inARow) else 0
    {
      if current != Some(peer) {
        current := Some(peer);
        inARow := 0;
      }
    }

    method Ended(lasted: nat)
      modifies this`inARow
      ensures inARow == CountTunnelEnd(old(inARow), lasted)
    {
      inARow := CountTunnelEnd(inARow, lasted);
    }

    /** The gateway in use, once it has enough strikes: it rests, and the count starts over. */
    method GiveUp(now: nat, rest: nat) returns (peer: Option<Peer>)
      modifies this
      ensures old(inARow) < MASQUE_GATEWAY_STRIKES ==>
                peer.None? && current == old(current) && inARow == old(inARow) && resting == old(resting)
      ensures old(inARow) >= MASQUE_GATEWAY_STRIKES ==> peer == old(current) && current.None? && inARow == 0
      ensures old(inARow) >= MASQUE_GATEWAY_STRIKES ==>
                resting == if peer.Some? then old(resting)[peer.value.ip := now + rest] else old(resting)
    {
      if inARow < MASQUE_GATEWAY_STRIKES {
        return None;
      }
      inARow := 0;
      peer := current;
      current := None;
      if peer.Some? {
        resting := resting[peer.value.ip := now + rest];
      }
    }

    /** What a scan at `now` has to avoid. Entries whose rest is over are removed. */
    method LeftOut(now: nat) returns (out: set<Ip>)
      modifies this`resting
      ensures resting == Unexpired(old(resting), now) && out == resting.Keys
    {
      resting := Unexpired(resting, now);
      out := resting.Keys;
    }
  }

  // ----- What a run has done -----

  datatype Tunnel = Tunnel(peer: Peer, start: nat, lasted: nat)

  /** A gateway was given up at `time`, after so many tunnels. */
  datatype GivenUp = GivenUp(peer: Peer, time: nat, tunnels: nat)

  predicate Short(t: Tunnel) {
    t.lasted < TUNNEL_STAYED_UP
  }

  /** How many tunnels in a row, up to the last, went through its gateway and ended soon. */
  function Streak(tunnels: seq<Tunnel>): nat {
    if tunnels == [] || !Short(tunnels[|tunnels| - 1]) then 0
    else
      var before := tunnels[..|tunnels| - 1];
      1 + if before != [] && before[|before| - 1].peer == tunnels[|tunnels| - 1].peer then Streak(before) else 0
  }

  /** Whether an address was given up less than the rest time before `t`. */
  ghost predicate Resting(ups: seq<GivenUp>, ip: Ip, t: nat) {
    exists i :: 0 <= i < |ups| && ups[i].peer.ip == ip && t < ups[i].time + MASQUE_GATEWAY_REST
  }

  /** From `clock` on, the addresses at rest are those given up less than the rest time ago. */
  ghost predicate RestsAre(resting: map<Ip, nat>, ups: seq<GivenUp>, clock: nat) {
    forall ip, t: nat :: t >= clock ==> ((ip in resting && resting[ip] > t) <==> Resting(ups, ip, t))
  }

  /** Each gateway given up had two tunnels in a row just before, which both ended soon. */
  ghost predicate Deserved(ups: seq<GivenUp>, tunnels: seq<Tunnel>) {
    forall i :: 0 <= i < |ups| ==>
      && 2 <= ups[i].tunnels <= |tunnels|
      && tunnels[ups[i].tunnels - 1].peer == tunnels[ups[i].tunnels - 2].peer == ups[i].peer
      && Short(tunnels[ups[i].tunnels - 1]) && Short(tunnels[ups[i].tunnels - 2])
  }

  /** No tunnel started through an address that was then at rest. */
  ghost predicate Rested(ups: seq<GivenUp>, tunnels: seq<Tunnel>) {
    forall i, k :: 0 <= i < |ups| && ups[i].tunnels <= k < |tunnels| && ups[i].peer.ip == tunnels[k].peer.ip
      ==> tunnels[k].start >= ups[i].time + MASQUE_GATEWAY_REST
  }

  ghost predicate NotResting(ups: seq<GivenUp>, ip: Ip, t: nat) {
    forall i :: 0 <= i < |ups| && ups[i].peer.ip == ip ==> t >= ups[i].time + MASQUE_GATEWAY_REST
  }

  lemma RestsAfterGiveUp(resting: map<Ip, nat>, ups: seq<GivenUp>, clock: nat, up: GivenUp)
    requires RestsAre(resting, ups, clock) && clock <= up.time
    requires forall i :: 0 <= i < |ups| ==> ups[i].time <= clock
    ensures RestsAre(resting[up.peer.ip := up.time + MASQUE_GATEWAY_REST], ups + [up], up.time)
  {
    var resting', ups' := resting[up.peer.ip := up.time + MASQUE_GATEWAY_REST], ups + [up];
    forall ip, t: nat | t >= up.time ensures (ip in resting' && resting'[ip] > t) <==> Resting(ups', ip, t) {
      assert ups'[|ups|] == up;
      if Resting(ups, ip, t) {
        var i :| 0 <= i < |ups| && ups[i].peer.ip == ip && t < ups[i].time + MASQUE_GATEWAY_REST;
        assert ups'[i].peer.ip == ip;
      }
      if Resting(ups', ip, t) {
        var i :| 0 <= i < |ups'| && ups'[i].peer.ip == ip && t < ups'[i].time + MASQUE_GATEWAY_REST;
        if i < |ups| {
          assert ups[i].peer.ip == ip && Resting(ups, ip, t);
        }
      }
    }
  }

  lemma RestsAfterScan(resting: map<Ip, nat>, ups: seq<GivenUp>, clock: nat, now: nat)
    requires RestsAre(resting, ups, clock) && clock <= now
    ensures var left := Unexpired(resting, now);
            && RestsAre(left, ups, now)
            && forall ip :: ip in left <==> Resting(ups, ip, now)
  {
    hide Resting;
  }

  /** The candidates whose address is not to be avoided. */
  function LeaveOut(candidates: seq<Peer>, avoid: set<Ip>): (left: seq<Peer>)
    ensures forall i :: 0 <= i < |left| ==> left[i].ip !in avoid && left[i] in candidates
  {
    if candidates == [] then []
    else (if candidates[0].ip in avoid then [] else [candidates[0]]) + LeaveOut(candidates[1..], avoid)
  }

  /** It leaves out those and no others. */
  lemma {:induction false} LeaveOutHas(candidates: seq<Peer>, avoid: set<Ip>, p: Peer)
    ensures p in LeaveOut(candidates, avoid) <==> p in candidates && p.ip !in avoid
  {
    if candidates != [] {
      LeaveOutHas(candidates[1..], avoid, p);
      assert candidates == [candidates[0]] + candidates[1..];
    }
  }

  /** A scan, after so many gateways were given up, and the addresses it left out. */
  datatype Scan = Scan(time: nat, ups: nat, out: set<Ip>)

  /** Each scan left out the addresses that were then at rest, and no others. */
  ghost predicate ScansExact(scans: seq<Scan>, ups: seq<GivenUp>) {
    forall i :: 0 <= i < |scans| ==> scans[i].ups <= |ups| && ScanExact(scans[i], ups[..scans[i].ups])
  }

  ghost predicate ScanExact(scan: Scan, ups: seq<GivenUp>) {
    forall ip :: ip in scan.out <==> Resting(ups, ip, scan.time)
  }

  lemma ScansGrow(scans: seq<Scan>, ups: seq<GivenUp>, scan: Scan, up: GivenUp)
    requires ScansExact(scans, ups)
    ensures scan.ups == |ups| && ScanExact(scan, ups) ==> ScansExact(scans + [scan], ups)
    ensures ScansExact(scans, ups + [up])
  {
    hide ScanExact;
    assert ups[..|ups|] == ups;
    forall i | 0 <= i < |scans| ensures scans[i].ups <= |ups| && (ups + [up])[..scans[i].ups] == ups[..scans[i].ups] {
      assert scans[i].ups <= |ups|;
    }
  }

  /**
   * What a turn of the run finds: how long each thing takes, whether the last good gateway still
   * answers, what a scan may choose from and which it chooses, and how long the tunnel lasts.
   */
  datatype Turn = Turn(
    beforeScan: nat,
    answers: bool,
    candidates: seq<Peer>,
    choice: nat,
    beforeTunnel: nat,
    lasted: nat,
    pause: nat)

  /** A gateway named by hand stays: every tunnel goes through it, and none is ever given up. */
  ghost predicate Stays(forced: Peer, tunnels: seq<Tunnel>, ups: seq<GivenUp>) {
    ups == [] && forall i :: 0 <= i < |tunnels| ==> tunnels[i].peer == forced
  }

  class MasqueRun {
    /** The gateway named by hand, if one is. */
    const forced: Option<Peer>
    const strikes: GatewayStrikes
    var quickPeer: Option<Peer>
    var lastGoodPeer: Option<Peer>
    var clock: nat

    ghost var tunnels: seq<Tunnel>
    ghost var ups: seq<GivenUp>
    ghost var scans: seq<Scan>
    /** How many tunnels there were when a gateway was last given up. */
    ghost var since: nat

    ghost predicate Valid()
      reads this, strikes
    {
      && since <= |tunnels|
      && (forced.None? ==> strikes.inARow == Streak(tunnels[since..]) <= MASQUE_GATEWAY_STRIKES)
      && (forced.Some? ==> quickPeer.None? && Stays(forced.value, tunnels, ups))
      && (forced.Some? && lastGoodPeer.Some? ==> lastGoodPeer == forced)
      && strikes.current == (if since == |tunnels| then None else Some(tunnels[|tunnels| - 1].peer))
      && (since < |tunnels| ==> lastGoodPeer == strikes.current)
      && (quickPeer.Some? ==> ups == [] && tunnels == [])
      && (forall i :: 0 <= i < |ups| ==> ups[i].time <= clock && ups[i].tunnels <= |tunnels|)
      && RestsAre(strikes.resting, ups, clock)
      && Deserved(ups, tunnels)
      && Rested(ups, tunnels)
      && ScansExact(scans, ups)
      && (lastGoodPeer.Some? ==> NotResting(ups, lastGoodPeer.value.ip, clock))
    }

    constructor (forced: Option<Peer>, quickPeer: Option<Peer>, clock: nat)
      requires forced.Some? ==> quickPeer.None?
      ensures Valid() && fresh(strikes) && tunnels == [] && ups == [] && scans == [] && this.forced == forced
    {
      this.forced := forced;
      strikes := new GatewayStrikes();
      this.quickPeer, lastGoodPeer, this.clock := quickPeer, None, clock;
      tunnels, ups, scans, since := [], [], [], 0;
    }

    /**
     * A gateway whose tunnels ended soon twice in a row is given up, and is not gone back to,
     * unless it was named by hand.
     */
    method GiveUpStruck()
      requires Valid()
      modifies this, strikes
      ensures Valid() && tunnels == old(tunnels) && quickPeer == old(quickPeer) && clock == old(clock)
      ensures scans == old(scans) && (forced.None? ==> strikes.inARow < MASQUE_GATEWAY_STRIKES)
      ensures if forced.None? && Streak(old(tunnels)[old(since)..]) == MASQUE_GATEWAY_STRIKES
              then lastGoodPeer.None? && ups == old(ups) + [GivenUp(tunnels[|tunnels| - 1].peer, clock, |tunnels|)]
              else ups == old(ups) && lastGoodPeer == old(lastGoodPeer) && since == old(since)
    {
      hide RestsAre, Deserved, Rested, NotResting, Streak, ScansExact, ScanExact;
      if forced.Some? {
        return;
      }
      StreakIsLast(tunnels[since..]);
      var up := strikes.GiveUp(clock, MASQUE_GATEWAY_REST);
      if up.Some? {
        ghost var event := GivenUp(up.value, clock, |tunnels|);
        assert tunnels[since..][|tunnels| - since - 1] == tunnels[|tunnels| - 1];
        assert tunnels[since..][|tunnels| - since - 2] == tunnels[|tunnels| - 2];
        RestsAfterGiveUp(old(strikes.resting), ups, clock, event);
        DeservedGrows(ups, tunnels, event);
        ScansGrow(scans, ups, Scan(clock, 0, {}), event);
        lastGoodPeer := None;
        ups := ups + [event];
        since := |tunnels|;
        assert tunnels[since..] == [];
        NoStreak();
      }
    }

    /**
     * Where the next tunnel goes: to the gateway remembered from the last run, to the last good one
     * if it still answers, to the one named by hand, or to one that a scan finds, if it finds any.
     * None is at rest then.
     */
    method Choose(t: Turn) returns (peer: Option<Peer>)
      requires Valid() && (forced.None? ==> strikes.inARow < MASQUE_GATEWAY_STRIKES)
      modifies this, strikes
      ensures Valid() && tunnels == old(tunnels) && ups == old(ups) && since == old(since)
      ensures strikes.inARow == old(strikes.inARow) && lastGoodPeer == old(lastGoodPeer) && quickPeer.None?
      ensures clock == if old(quickPeer).Some? then old(clock) else old(clock) + t.beforeScan
      ensures peer.Some? ==> NotResting(ups, peer.value.ip, clock)
      ensures if old(quickPeer).Some? then peer == old(quickPeer) && scans == old(scans)
              else if lastGoodPeer.Some? && t.answers then peer == lastGoodPeer && scans == old(scans)
              else if forced.Some? then peer == forced && scans == old(scans)
              else && |scans| > 0 && scans == old(scans) + [Scan(clock, |ups|, scans[|scans| - 1].out)]
                   && var left := LeaveOut(t.candidates, scans[|scans| - 1].out);
                   peer == if t.choice < |left| then Some(left[t.choice]) else None
    {
      hide RestsAre, Deserved, Rested, Streak, ScansExact;
      if quickPeer.Some? {
        peer := quickPeer;
        quickPeer := None;
        return;
      }
      clock := clock + t.beforeScan;
      RestsLater(strikes.resting, ups, old(clock), clock);
      if lastGoodPeer.Some? && t.answers {
        return lastGoodPeer;
      }
      if forced.Some? {
        return forced;
      }
      RestsAfterScan(strikes.resting, ups, clock, clock);
      var avoid := strikes.LeftOut(clock);
      ScansGrow(scans, ups, Scan(clock, |ups|, avoid), GivenUp(Peer(0, 0), 0, 0));
      scans := scans + [Scan(clock, |ups|, avoid)];
      var left := LeaveOut(t.candidates, avoid);
      if t.choice < |left| {
        peer := Some(left[t.choice]);
        NotRestingIs(ups, peer.value.ip, clock);
      } else {
        peer := None;
      }
    }

    /** A tunnel through `peer`, from now until it ends. */
    method RunTunnel(peer: Peer, lasted: nat)
      requires Valid() && quickPeer.None? && NotResting(ups, peer.ip, clock)
      requires if forced.Some? then peer == forced.value else strikes.inARow < MASQUE_GATEWAY_STRIKES
      modifies this, strikes
      ensures Valid() && ups == old(ups) && scans == old(scans)
      ensures tunnels == old(tunnels) + [Tunnel(peer, old(clock), lasted)]
      ensures clock == old(clock) + lasted && quickPeer.None? && lastGoodPeer == Some(peer)
      ensures since == old(since) <= |tunnels| && (forced.None? ==> strikes.inARow == Streak(tunnels[since..]))
    {
      hide RestsAre, Deserved, Streak, NotResting, Rested, ScansExact;
      ghost var tunnel := Tunnel(peer, clock, lasted);
      StreakSince(tunnels, since, tunnel);
      strikes.Using(peer);
      lastGoodPeer := Some(peer);
      strikes.Ended(lasted);
      RestsLater(strikes.resting, ups, clock, clock + lasted);
      DeservedLater(ups, tunnels, tunnel);
      RestedGrows(ups, tunnels, tunnel);
      tunnels := tunnels + [tunnel];
      clock := clock + lasted;
    }

    /** One turn of the run. */
    method Turn(t: Turn) returns (peer: Option<Peer>)
      requires Valid()
      modifies this, strikes
      ensures Valid() && old(ups) <= ups && old(scans) <= scans && clock >= old(clock) + t.pause
      ensures if peer.None? then tunnels == old(tunnels)
              else |tunnels| == |old(tunnels)| + 1 && old(tunnels) <= tunnels
                   && tunnels[|old(tunnels)|].peer == peer.value && tunnels[|old(tunnels)|].lasted == t.lasted
    {
      hide RestsAre, Deserved, Rested, NotResting, Streak, ScansExact;
      GiveUpStruck();
      peer := Choose(t);
      if peer.Some? {
        Wait(t.beforeTunnel);
        RunTunnel(peer.value, t.lasted);
      }
      Wait(t.pause);
    }

    method Wait(pause: nat)
      requires Valid()
      modifies this`clock
      ensures Valid() && clock == old(clock) + pause
      ensures forall ip :: NotResting(ups, ip, old(clock)) ==> NotResting(ups, ip, clock)
    {
      hide RestsAre, Deserved, Rested, NotResting, Streak, ScansExact;
      RestsLater(strikes.resting, ups, clock, clock + pause);
      clock := clock + pause;
    }
  }

  /**
   * In every run: gateways are given up for two tunnels in a row that ended soon, and no tunnel goes
   * to one at rest; and one named by hand stays.
   */
  method Run(forced: Option<Peer>, quickPeer: Option<Peer>, start: nat, turns: seq<Turn>) returns (run: MasqueRun)
    requires forced.Some? ==> quickPeer.None?
    ensures fresh(run) && run.Valid()
    ensures forced.Some? ==> Stays(forced.value, run.tunnels, run.ups)
    ensures Deserved(run.ups, run.tunnels) && Rested(run.ups, run.tunnels) && ScansExact(run.scans, run.ups)
    ensures RestsAre(run.strikes.resting, run.ups, run.clock)
  {
    hide RestsAre, Deserved, Rested, NotResting, Streak, ScansExact;
    run := new MasqueRun(forced, quickPeer, start);
    for i := 0 to |turns|
      invariant fresh(run) && fresh(run.strikes) && run.Valid() && run.forced == forced
    {
      var peer := run.Turn(turns[i]);
    }
  }

  // ----- Small facts -----

  lemma NoStreak()
    ensures Streak([]) == 0
  {
  }

  /** Two strikes are the last two tunnels. */
  lemma StreakIsLast(tunnels: seq<Tunnel>)
    ensures Streak(tunnels) >= 2 ==>
              var n := |tunnels|;
              n >= 2 && tunnels[n - 1].peer == tunnels[n - 2].peer && Short(tunnels[n - 1]) && Short(tunnels[n - 2])
    ensures Streak(tunnels) >= 1 ==> tunnels != []
  {
    if |tunnels| >= 2 {
      var before := tunnels[..|tunnels| - 1];
      assert before[|before| - 1] == tunnels[|tunnels| - 2];
    }
  }

  lemma StreakGrows(tunnels: seq<Tunnel>, t: Tunnel)
    ensures Streak(tunnels + [t]) ==
              if !Short(t) then 0
              else 1 + (if tunnels != [] && tunnels[|tunnels| - 1].peer == t.peer then Streak(tunnels) else 0)
  {
    assert (tunnels + [t])[..|tunnels|] == tunnels;
  }

  lemma StreakSince(tunnels: seq<Tunnel>, since: nat, t: Tunnel)
    requires since <= |tunnels|
    ensures since == |tunnels| ==> Streak(tunnels[since..]) == 0
    ensures Streak((tunnels + [t])[since..]) ==
              if !Short(t) then 0
              else if since < |tunnels| && tunnels[|tunnels| - 1].peer == t.peer then 1 + Streak(tunnels[since..])
              else 1
  {
    hide Streak;
    var these := tunnels[since..];
    assert (tunnels + [t])[since..] == these + [t];
    assert since < |tunnels| ==> these[|these| - 1] == tunnels[|tunnels| - 1];
    StreakGrows(these, t);
    if since == |tunnels| {
      assert these == [];
      NoStreak();
    }
  }

  lemma DeservedGrows(ups: seq<GivenUp>, tunnels: seq<Tunnel>, up: GivenUp)
    requires Deserved(ups, tunnels) && Rested(ups, tunnels) && up.tunnels == |tunnels| >= 2
    requires tunnels[|tunnels| - 1].peer == tunnels[|tunnels| - 2].peer == up.peer
    requires Short(tunnels[|tunnels| - 1]) && Short(tunnels[|tunnels| - 2])
    ensures Deserved(ups + [up], tunnels) && Rested(ups + [up], tunnels)
  {
  }

  lemma DeservedLater(ups: seq<GivenUp>, tunnels: seq<Tunnel>, t: Tunnel)
    requires Deserved(ups, tunnels)
    ensures Deserved(ups, tunnels + [t])
  {
  }

  lemma RestedGrows(ups: seq<GivenUp>, tunnels: seq<Tunnel>, t: Tunnel)
    requires Rested(ups, tunnels) && NotResting(ups, t.peer.ip, t.start)
    ensures Rested(ups, tunnels + [t])
  {
  }

  lemma RestsLater(resting: map<Ip, nat>, ups: seq<GivenUp>, clock: nat, later: nat)
    requires RestsAre(resting, ups, clock) && clock <= later
    ensures RestsAre(resting, ups, later)
    ensures forall ip :: NotResting(ups, ip, clock) ==> NotResting(ups, ip, later)
  {
    hide Resting;
  }

  lemma NotRestingIs(ups: seq<GivenUp>, ip: Ip, t: nat)
    ensures NotResting(ups, ip, t) <==> !Resting(ups, ip, t)
  {
  }
}
