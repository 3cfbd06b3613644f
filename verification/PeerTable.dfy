/**
 The peer table as a value: who has been heard, whether it still is, and which telemetry packets
 are fresh.
 */
module PeerTable {
  import opened SwarmTypes

  const HEARTBEAT_TIMEOUT_MS: int := 3000
  const RESTART_THRESHOLD: uint32 := 20

  datatype PeerStatus = Offline | Online

  datatype PeerInfo = PeerInfo(
    droneId: uint8,
    nodeType: NodeType,
    role: DroneRole,
    currentTask: TaskType,
    lastHeard: TimePoint,
    lastSeenSeq: uint32)

  datatype PeerRecord = PeerRecord(info: PeerInfo, status: PeerStatus)

  type Peers = map<uint8, PeerRecord>

  /** What operator[] inserts for an unknown key. */
  const BLANK: PeerRecord := PeerRecord(PeerInfo(0, DroneNode, Scout, InitType, 0, 0), Offline)

  // ---------------------------------------------------------------------
  //  Operations
  // ---------------------------------------------------------------------

  function OnHeartbeat(peers: Peers, hb: Heartbeat, now: TimePoint): Peers {
    var record := if hb.droneId in peers then peers[hb.droneId] else BLANK;
    var info := record.info.(droneId := hb.droneId, nodeType := hb.nodeType, role := hb.role,
                             currentTask := hb.currentTask, lastHeard := now);
    peers[hb.droneId := if record.status == Offline then PeerRecord(info.(lastSeenSeq := 0), Online)
                        else PeerRecord(info, record.status)]
  }

  /** The sequence filter on its own: the tracker afterwards, and whether the packet passes. */
  function Filter(lastSeen: uint32, seqNum: uint32): (uint32, bool) {
    var tracked := if AddWrapping(seqNum, RESTART_THRESHOLD) < lastSeen then 0 else lastSeen;
    if seqNum <= tracked then (tracked, false) else (seqNum, true)
  }

  datatype TelemetryResult = TelemetryResult(peers: Peers, accepted: bool, newStream: bool)

  function OnTelemetry(peers: Peers, t: Telemetry, now: TimePoint): TelemetryResult {
    if t.droneId !in peers then TelemetryResult(peers, false, false)
    else
      var record := peers[t.droneId];
      var jump := AddWrapping(t.seqNum, RESTART_THRESHOLD) < record.info.lastSeenSeq;
      var tracked := if jump then 0 else record.info.lastSeenSeq;
      if t.seqNum <= tracked then
        TelemetryResult(peers[t.droneId := record.(info := record.info.(lastSeenSeq := tracked))], false, false)
      else
        TelemetryResult(
          peers[t.droneId := PeerRecord(record.info.(lastSeenSeq := t.seqNum, lastHeard := now), Online)],
          true, tracked == 0)
  }

  function Refreshed(r: PeerRecord, now: TimePoint, timeoutMs: int): PeerRecord {
    if r.status == Online && ToMillis(now - r.info.lastHeard) >= timeoutMs then r.(status := Offline) else r
  }

  function Refresh(peers: Peers, now: TimePoint, timeoutMs: int): Peers {
    map id | id in peers :: Refreshed(peers[id], now, timeoutMs)
  }

  function WithStatus(peers: Peers, s: PeerStatus): set<uint8> {
    set id | id in peers && peers[id].status == s
  }

  predicate SomeoneLost(peers: Peers) {
    exists id | id in peers :: peers[id].status == Offline
  }

  lemma LostMeansCounted(peers: Peers)
    ensures SomeoneLost(peers) <==> |WithStatus(peers, Offline)| > 0
  {
    if SomeoneLost(peers) {
      var id :| id in peers && peers[id].status == Offline;
      assert id in WithStatus(peers, Offline);
    } else {
      assert WithStatus(peers, Offline) == {};
    }
  }

  predicate Votes(r: PeerRecord) {
    r.status == Online && r.info.nodeType == DroneNode
  }

  /** Identifiers of the ONLINE drones with keys in [from, 256), in key order. */
  function VotersFrom(peers: Peers, from: nat): seq<uint8>
    requires from <= 256
    decreases 256 - from, |peers|
  {
    if from == 256 then []
    else (if from in peers && Votes(peers[from]) then [peers[from].info.droneId] else []) + VotersFrom(peers, from + 1)
  }

  function OnlineDroneIds(peers: Peers): seq<uint8> {
    VotersFrom(peers, 0)
  }

  /** Every record carries its own key. */
  ghost predicate Keyed(peers: Peers) {
    forall id | id in peers :: peers[id].info.droneId == id
  }

  lemma OperationsKeepKeys(peers: Peers, hb: Heartbeat, t: Telemetry, now: TimePoint, timeoutMs: int)
    requires Keyed(peers)
    ensures Keyed(OnHeartbeat(peers, hb, now))
    ensures Keyed(OnTelemetry(peers, t, now).peers)
    ensures Keyed(Refresh(peers, now, timeoutMs))
  {
  }

  lemma {:induction false} VotersAreOnline(peers: Peers, from: nat, id: uint8)
    requires Keyed(peers) && from <= 256
    ensures id in VotersFrom(peers, from) <==> from <= id && id in peers && Votes(peers[id])
    decreases 256 - from
  {
    if from < 256 {
      VotersAreOnline(peers, from + 1, id);
    }
  }

  ghost predicate Increasing(ids: seq<uint8>) {
    forall i, j | 0 <= i < j < |ids| :: ids[i] < ids[j]
  }

  lemma IncreasingCons(first: uint8, rest: seq<uint8>)
    requires Increasing(rest) && forall i | 0 <= i < |rest| :: first < rest[i]
    ensures Increasing([first] + rest)
  {
  }

  lemma {:induction false} VotersIncrease(peers: Peers, from: nat)
    requires Keyed(peers) && from <= 256
    ensures Increasing(VotersFrom(peers, from))
    decreases 256 - from
  {
    if from < 256 {
      var rest := VotersFrom(peers, from + 1);
      VotersIncrease(peers, from + 1);
      if from in peers && Votes(peers[from]) {
        forall i | 0 <= i < |rest| ensures from < rest[i] {
          assert rest[i] in rest;
          VotersAreOnline(peers, from + 1, rest[i]);
        }
        IncreasingCons(from, rest);
        assert VotersFrom(peers, from) == [from] + rest;
      } else {
        assert VotersFrom(peers, from) == [] + rest == rest;
      }
    }
  }

  /** The voter list is the ONLINE drones, each once, in increasing order. */
  lemma VotersAreOnlineDrones(peers: Peers, from: nat)
    requires Keyed(peers) && from <= 256
    ensures var ids := VotersFrom(peers, from);
            && (forall id: uint8 :: id in ids <==> from <= id && id in peers && Votes(peers[id]))
            && (forall i, j | 0 <= i < j < |ids| :: ids[i] < ids[j])
  {
    forall id: uint8 ensures id in VotersFrom(peers, from) <==> from <= id && id in peers && Votes(peers[id]) {
      VotersAreOnline(peers, from, id);
    }
    VotersIncrease(peers, from);
  }

  // ---------------------------------------------------------------------
  //  The sequence filter against "strict running maximum"
  // ---------------------------------------------------------------------

  function Max(a: uint32, b: uint32): uint32 {
    if a >= b then a else b
  }

  /** The specification of a reordering network without restarts. */
  function RunningMax(seen: uint32, seqNum: uint32): (uint32, bool) {
    (Max(seen, seqNum), seqNum > seen)
  }

  /** A packet that is new, or at most 20 behind with no wrap-around of the threshold sum. */
  predicate Recent(seen: uint32, seqNum: uint32) {
    seqNum > seen || (seqNum + 20 < TWO_TO_THE_32 && seqNum + 20 >= seen)
  }

  /** Exactly on recent packets does one filter step agree with the running maximum. */
  lemma FilterIsRunningMax(seen: uint32, seqNum: uint32)
    ensures Filter(seen, seqNum) == RunningMax(seen, seqNum) <==> Recent(seen, seqNum)
  {
  }

  /**
   Old packets, exactly.  One that is not newer than the remembered number is accepted if and only
   if its threshold sum, after wrap-around, looks like a restart; number 0 is never accepted, but
   resets the tracker under the same condition.
   */
  lemma OldPacketAccepted(seen: uint32, seqNum: uint32)
    requires seqNum <= seen
    ensures Filter(seen, seqNum).1 <==> seqNum != 0 && AddWrapping(seqNum, 20) < seen
    ensures Filter(seen, seqNum) == (0, false) && seen != 0 <==> seqNum == 0 && seen > 20
  {
  }

  /** Near the top of the range every repeated packet is taken for a restart and accepted again. */
  lemma RepeatedPacketAccepted(seqNum: uint32)
    requires seqNum + 20 >= TWO_TO_THE_32
    ensures FilterAll(seqNum, [seqNum, seqNum]) == Stream(seqNum, [seqNum, seqNum])
    ensures MaxAll(seqNum, [seqNum, seqNum]) == Stream(seqNum, [])
  {
    var packets := [seqNum, seqNum];
    assert packets[..1][..0] == [] && packets[..1] == [seqNum];
    assert FilterAll(seqNum, packets[..1]) == Stream(seqNum, [seqNum]);
    assert MaxAll(seqNum, packets[..1]) == Stream(seqNum, []);
  }

  /** A rejected packet 0 opens the filter: any old packet right after it is accepted. */
  lemma PacketZeroOpensFilter(seen: uint32, stale: uint32)
    requires 20 < seen && 0 < stale <= seen
    ensures FilterAll(seen, [0, stale]) == Stream(stale, [stale])
    ensures MaxAll(seen, [0, stale]) == Stream(seen, [])
  {
    var packets := [0, stale];
    assert packets[..1][..0] == [] && packets[..1] == [0];
    assert FilterAll(seen, packets[..1]) == Stream(0, []);
    assert MaxAll(seen, packets[..1]) == Stream(seen, []);
  }

  datatype Stream = Stream(tracker: uint32, accepted: seq<uint32>)

  function FilterAll(seen: uint32, packets: seq<uint32>): Stream
    decreases |packets|
  {
    if packets == [] then Stream(seen, [])
    else
      var s := FilterAll(seen, packets[..|packets| - 1]);
      var p := packets[|packets| - 1];
      var (tracker, ok) := Filter(s.tracker, p);
      Stream(tracker, if ok then s.accepted + [p] else s.accepted)
  }

  function MaxAll(seen: uint32, packets: seq<uint32>): Stream
    decreases |packets|
  {
    if packets == [] then Stream(seen, [])
    else
      var s := MaxAll(seen, packets[..|packets| - 1]);
      var p := packets[|packets| - 1];
      Stream(Max(s.tracker, p), if p > s.tracker then s.accepted + [p] else s.accepted)
  }

  /** Every packet is recent with respect to the largest number before it. */
  ghost predicate AllRecent(seen: uint32, packets: seq<uint32>)
    decreases |packets|
  {
    packets != [] ==>
      && AllRecent(seen, packets[..|packets| - 1])
      && Recent(MaxAll(seen, packets[..|packets| - 1]).tracker, packets[|packets| - 1])
  }

  /** The two agree after every prefix of the arrivals. */
  ghost predicate AgreeThroughout(seen: uint32, packets: seq<uint32>)
    decreases |packets|
  {
    && FilterAll(seen, packets) == MaxAll(seen, packets)
    && (packets != [] ==> AgreeThroughout(seen, packets[..|packets| - 1]))
  }

  /**
   Over any arrival sequence the filter is the strict running maximum, at every moment, if and only
   if every packet is recent when it arrives.
   */
  lemma {:induction false} FilterRefinesRunningMax(seen: uint32, packets: seq<uint32>)
    ensures AgreeThroughout(seen, packets) <==> AllRecent(seen, packets)
    decreases |packets|
  {
    if packets != [] {
      var front, p := packets[..|packets| - 1], packets[|packets| - 1];
      FilterRefinesRunningMax(seen, front);
      if AllRecent(seen, front) {
        FilterIsRunningMax(MaxAll(seen, front).tracker, p);
      }
    }
  }

  /** The running maximum is what its name says: accepted numbers strictly increase, and exceed all before. */
  lemma {:induction false} MaxAcceptsIncreasing(seen: uint32, packets: seq<uint32>)
    ensures var s := MaxAll(seen, packets);
            && s.tracker >= seen
            && (forall p | p in packets :: p <= s.tracker)
            && (s.tracker == seen || s.tracker in packets)
            && (s.tracker == if s.accepted == [] then seen else s.accepted[|s.accepted| - 1])
            && (forall i | 0 <= i < |s.accepted| :: s.accepted[i] > seen && s.accepted[i] in packets)
            && (forall i, j | 0 <= i < j < |s.accepted| :: s.accepted[i] < s.accepted[j])
    decreases |packets|
  {
    if packets != [] {
      var front := packets[..|packets| - 1];
      MaxAcceptsIncreasing(seen, front);
      assert packets == front + [packets[|packets| - 1]];
      assert forall p | p in front :: p in packets;
    }
  }

  // ---------------------------------------------------------------------
  //  Recovery after a fast restart
  // ---------------------------------------------------------------------

  ghost predicate FreshRun(packets: seq<uint32>) {
    && (forall i | 0 <= i < |packets| :: 1 <= packets[i] && packets[i] + 20 < TWO_TO_THE_32)
    && (forall i, j | 0 <= i < j < |packets| :: packets[i] < packets[j])
  }

  lemma FilterOfFresh(seen: uint32, p: uint32)
    requires 1 <= p && p + 20 < TWO_TO_THE_32
    ensures Filter(seen, p) == if p <= seen <= p + 20 then (seen, false) else (p, true)
  {
  }

  /** The first `rejected` packets were refused, each within the threshold of `seen`; all others were accepted. */
  ghost predicate Recovered(seen: uint32, packets: seq<uint32>, rejected: nat) {
    && rejected <= |packets|
    && FilterAll(seen, packets)
       == Stream(if rejected < |packets| then packets[|packets| - 1] else seen, packets[rejected..])
    && (forall i | 0 <= i < rejected :: 0 <= seen - packets[i] <= 20)
  }

  lemma RecoveryStep(seen: uint32, front: seq<uint32>, p: uint32, rejected: nat)
    requires FreshRun(front + [p]) && Recovered(seen, front, rejected)
    ensures Recovered(seen, front + [p], if rejected == |front| && p <= seen <= p + 20
                                         then rejected + 1 else rejected)
  {
    var packets := front + [p];
    assert packets[|front|] == p && packets[..|front|] == front;
    var tracker := FilterAll(seen, front).tracker;
    FilterOfFresh(tracker, p);
    assert packets[rejected..] == front[rejected..] + [p];
    if rejected < |front| {
      assert packets[|front| - 1] < packets[|front|];
      assert Filter(tracker, p) == (p, true);
    } else if p <= seen <= p + 20 {
      assert Filter(tracker, p) == (seen, false);
      assert packets[rejected + 1..] == [] == front[rejected..];
    } else {
      assert Filter(tracker, p) == (p, true);
    }
  }

  /**
   Whatever number is remembered, a restarted counter with any gaps is rejected at most 21 times,
   all at the beginning; every packet after that is accepted, in order.
   */
  lemma {:induction false} RestartRecovery(seen: uint32, packets: seq<uint32>) returns (rejected: nat)
    requires FreshRun(packets)
    ensures Recovered(seen, packets, rejected) && rejected <= 21
    decreases |packets|
  {
    rejected := 0;
    if packets != [] {
      var front, p := packets[..|packets| - 1], packets[|packets| - 1];
      assert packets == front + [p];
      rejected := RestartRecovery(seen, front);
      RecoveryStep(seen, front, p, rejected);
      if rejected == |front| && p <= seen <= p + 20 {
        rejected := |packets|;
        IncreasingSpread(packets);
      }
    }
  }

  lemma {:induction false} IncreasingSpread(packets: seq<uint32>)
    requires packets != [] && forall i, j | 0 <= i < j < |packets| :: packets[i] < packets[j]
    ensures packets[0] + |packets| - 1 <= packets[|packets| - 1]
    decreases |packets|
  {
    if |packets| > 1 {
      IncreasingSpread(packets[..|packets| - 1]);
    }
  }

  function From(first: uint32, count: nat): (s: seq<uint32>)
    requires first + count <= TWO_TO_THE_32
  {
    seq(count, i requires 0 <= i < count => first + i)
  }

  /** The bound 21 is attained, for every remembered number that leaves room for it. */
  lemma TwentyOneIsAttained(seen: uint32)
    requires 20 < seen && seen + 20 < TWO_TO_THE_32
    ensures FreshRun(From(seen - 20, 21))
    ensures FilterAll(seen, From(seen - 20, 21)) == Stream(seen, [])
  {
    var packets := From(seen - 20, 21);
    var rejected := RestartRecovery(seen, packets);
    AllRejected(seen, packets);
  }

  lemma {:induction false} AllRejected(seen: uint32, packets: seq<uint32>)
    requires forall i | 0 <= i < |packets| :: packets[i] <= seen <= packets[i] + 20 < TWO_TO_THE_32
    ensures FilterAll(seen, packets) == Stream(seen, [])
    decreases |packets|
  {
    if packets != [] {
      AllRejected(seen, packets[..|packets| - 1]);
    }
  }

  // ---------------------------------------------------------------------
  //  Liveness: flags kept incrementally against "silent for the timeout"
  // ---------------------------------------------------------------------

  datatype PeerEvent =
    | HeartbeatAt(hb: Heartbeat, now: TimePoint)
    | TelemetryAt(t: Telemetry, now: TimePoint)
    | RefreshAt(now: TimePoint)

  function Handle(peers: Peers, e: PeerEvent, timeoutMs: int): Peers {
    match e
    case HeartbeatAt(hb, now) => OnHeartbeat(peers, hb, now)
    case TelemetryAt(t, now) => OnTelemetry(peers, t, now).peers
    case RefreshAt(now) => Refresh(peers, now, timeoutMs)
  }

  function HandleAll(peers: Peers, events: seq<PeerEvent>, timeoutMs: int): Peers
    decreases |events|
  {
    if events == [] then peers
    else Handle(HandleAll(peers, events[..|events| - 1], timeoutMs), events[|events| - 1], timeoutMs)
  }

  /** The table after these arrivals, empty at first. */
  function Replay(events: seq<PeerEvent>, timeoutMs: int): Peers {
    HandleAll(map[], events, timeoutMs)
  }

  /** Proof of life: a heartbeat, or a telemetry packet that the table accepted. */
  predicate SignOfLife(peers: Peers, e: PeerEvent, id: uint8) {
    match e
    case HeartbeatAt(hb, _) => hb.droneId == id
    case TelemetryAt(t, now) => t.droneId == id && OnTelemetry(peers, t, now).accepted
    case RefreshAt(_) => false
  }

  /** The time of the last proof of life of a peer, read off the history of arrivals. */
  function LastSign(events: seq<PeerEvent>, id: uint8, timeoutMs: int): Option<TimePoint>
    decreases |events|
  {
    if events == [] then None
    else
      var front, e := events[..|events| - 1], events[|events| - 1];
      if SignOfLife(Replay(front, timeoutMs), e, id) then Some(e.now) else LastSign(front, id, timeoutMs)
  }

  ghost predicate Chronological(events: seq<PeerEvent>) {
    forall i, j | 0 <= i < j < |events| :: events[i].now <= events[j].now
  }

  predicate HeartbeatOf(e: PeerEvent, id: uint8) {
    e.HeartbeatAt? && e.hb.droneId == id
  }

  /** The state of one peer's record, given the history. */
  ghost predicate Tracks(peers: Peers, events: seq<PeerEvent>, id: uint8, timeoutMs: int) {
    && (id in peers <==> exists i :: 0 <= i < |events| && HeartbeatOf(events[i], id))
    && (id in peers ==>
          && LastSign(events, id, timeoutMs) == Some(peers[id].info.lastHeard)
          && peers[id].info.lastHeard <= events[|events| - 1].now
          && (peers[id].status == Offline ==>
                events[|events| - 1].now - peers[id].info.lastHeard >= timeoutMs * NS_PER_MS))
  }

  lemma {:induction false} TableTracksHistory(events: seq<PeerEvent>, id: uint8, timeoutMs: int)
    requires Chronological(events) && timeoutMs > 0
    ensures Tracks(Replay(events, timeoutMs), events, id, timeoutMs)
    decreases |events|
  {
    if events != [] {
      var front, e := events[..|events| - 1], events[|events| - 1];
      TableTracksHistory(front, id, timeoutMs);
      HeardFrom(front, e, id);
      assert events == front + [e];
      if front != [] {
        assert front[|front| - 1].now <= e.now;
      }
    }
  }

  lemma HeardFrom(front: seq<PeerEvent>, e: PeerEvent, id: uint8)
    ensures (exists i :: 0 <= i < |front + [e]| && HeartbeatOf((front + [e])[i], id))
       <==> (exists i :: 0 <= i < |front| && HeartbeatOf(front[i], id)) || HeartbeatOf(e, id)
  {
    var events := front + [e];
    assert events[|front|] == e;
    assert forall i | 0 <= i < |front| :: events[i] == front[i];
  }

  /**
   Right after a refresh, for any history of arrivals: the known peers are exactly the heartbeat
   senders, and a known peer is ONLINE exactly when its last proof of life is younger than the timeout.
   */
  lemma OnlineMeansRecentlyHeard(events: seq<PeerEvent>, now: TimePoint, id: uint8, timeoutMs: int)
    requires Chronological(events + [RefreshAt(now)]) && timeoutMs > 0
    ensures var peers := Replay(events + [RefreshAt(now)], timeoutMs);
            && (id in peers <==> exists i :: 0 <= i < |events| && HeartbeatOf(events[i], id))
            && (id in peers ==>
                  && LastSign(events, id, timeoutMs).Some?
                  && (peers[id].status == Online <==>
                        now - LastSign(events, id, timeoutMs).value < timeoutMs * NS_PER_MS))
  {
    var all := events + [RefreshAt(now)];
    assert all[..|events|] == events;
    assert forall i | 0 <= i < |events| :: all[i] == events[i];
    TableTracksHistory(events, id, timeoutMs);
    var peers := Replay(events, timeoutMs);
    if id in peers {
      assert events[|events| - 1].now <= now by {
        assert all[|events| - 1].now <= all[|events|].now;
      }
      MillisReached(now - peers[id].info.lastHeard, timeoutMs);
    }
  }

  // ---------------------------------------------------------------------
  //  The filter inside the table
  // ---------------------------------------------------------------------

  /** One packet of one peer goes through the filter above and touches no other record. */
  lemma TelemetryUsesFilter(peers: Peers, t: Telemetry, now: TimePoint)
    requires t.droneId in peers
    ensures var r := OnTelemetry(peers, t, now);
            && (r.peers[t.droneId].info.lastSeenSeq, r.accepted) == Filter(peers[t.droneId].info.lastSeenSeq, t.seqNum)
            && r.peers.Keys == peers.Keys
            && (forall id | id in peers && id != t.droneId :: r.peers[id] == peers[id])
  {
  }

  /** A heartbeat that finds its sender unknown or OFFLINE: the peer comes, or comes back. */
  predicate Returns(peers: Peers, e: PeerEvent, id: uint8) {
    HeartbeatOf(e, id) && !(id in peers && peers[id].status == Online)
  }

  /**
   The telemetry of one peer since its last return: the number the count began from, the packets that
   arrived and those that on_telemetry accepted, in arrival order.
   */
  datatype Window = Window(base: uint32, packets: seq<uint32>, accepted: seq<uint32>)

  /** A return begins a new count from zero, whatever number was remembered. */
  function Since(peers: Peers, events: seq<PeerEvent>, id: uint8, timeoutMs: int): Window
    decreases |events|
  {
    if events == [] then Window(if id in peers then peers[id].info.lastSeenSeq else 0, [], [])
    else
      var front, e := events[..|events| - 1], events[|events| - 1];
      var before, w := HandleAll(peers, front, timeoutMs), Since(peers, front, id, timeoutMs);
      if Returns(before, e, id) then Window(0, [], [])
      else if e.TelemetryAt? && e.t.droneId == id then
        w.(packets := w.packets + [e.t.seqNum],
           accepted := if OnTelemetry(before, e.t, e.now).accepted then w.accepted + [e.t.seqNum] else w.accepted)
      else w
  }

  /** The record of a known peer remembers what the filter makes of the packets since its last return. */
  ghost predicate Filtered(peers: Peers, w: Window, id: uint8) {
    id in peers ==> Stream(peers[id].info.lastSeenSeq, w.accepted) == FilterAll(w.base, w.packets)
  }

  lemma FilteredPacket(peers: Peers, w: Window, t: Telemetry, now: TimePoint)
    requires Filtered(peers, w, t.droneId)
    ensures var r := OnTelemetry(peers, t, now);
            Filtered(r.peers, Window(w.base, w.packets + [t.seqNum],
                                     if r.accepted then w.accepted + [t.seqNum] else w.accepted), t.droneId)
  {
    if t.droneId in peers {
      TelemetryUsesFilter(peers, t, now);
      assert (w.packets + [t.seqNum])[..|w.packets|] == w.packets;
    }
  }

  lemma {:induction false} TableRunsFilter(peers: Peers, events: seq<PeerEvent>, id: uint8, timeoutMs: int)
    ensures Filtered(HandleAll(peers, events, timeoutMs), Since(peers, events, id, timeoutMs), id)
    decreases |events|
  {
    if events != [] {
      var front, e := events[..|events| - 1], events[|events| - 1];
      TableRunsFilter(peers, front, id, timeoutMs);
      var before, w := HandleAll(peers, front, timeoutMs), Since(peers, front, id, timeoutMs);
      match e
      case TelemetryAt(t, now) =>
        if t.droneId == id {
          FilteredPacket(before, w, t, now);
        } else if t.droneId in before {
          TelemetryUsesFilter(before, t, now);
        }
      case HeartbeatAt(hb, now) =>
      case RefreshAt(now) =>
    }
  }

  /**
   The telemetry filter of the table, from any table and over any history of arrivals.  When every
   packet that arrived since the peer's last return is recent on arrival, the packets accepted since
   then are exactly the strict running maxima, counted from zero after a return, and last_seen_seq is
   their maximum.
   */
  lemma TelemetryFilterIsRunningMax(peers: Peers, events: seq<PeerEvent>, id: uint8, timeoutMs: int)
    requires id in HandleAll(peers, events, timeoutMs)
    requires var w := Since(peers, events, id, timeoutMs); AllRecent(w.base, w.packets)
    ensures var w := Since(peers, events, id, timeoutMs);
            var seen := HandleAll(peers, events, timeoutMs)[id].info.lastSeenSeq;
            && seen == MaxAll(w.base, w.packets).tracker
            && w.accepted == MaxAll(w.base, w.packets).accepted
            && (forall p | p in w.packets :: p <= seen)
            && (forall i, j | 0 <= i < j < |w.accepted| :: w.accepted[i] < w.accepted[j])
  {
    var w := Since(peers, events, id, timeoutMs);
    TableRunsFilter(peers, events, id, timeoutMs);
    FilterRefinesRunningMax(w.base, w.packets);
    MaxAcceptsIncreasing(w.base, w.packets);
  }

  /** The flag of one packet: the tracker was zero, or was taken to be. */
  lemma NewStreamExactly(peers: Peers, t: Telemetry, now: TimePoint)
    requires t.droneId in peers && Recent(peers[t.droneId].info.lastSeenSeq, t.seqNum)
    ensures var r, seen := OnTelemetry(peers, t, now), peers[t.droneId].info.lastSeenSeq;
            && (r.accepted <==> t.seqNum > seen)
            && (r.newStream <==> t.seqNum > seen && (seen == 0 || 0 <= t.seqNum + 20 - TWO_TO_THE_32 < seen))
  {
  }

  /**
   When everything since the peer's return was recent, a packet is reported as the first of a new
   stream exactly when it is the first one accepted, or when it is so near the top of the range that
   its threshold sum wraps around to below the remembered number.
   */
  lemma NewStreamIsFirstAccepted(peers: Peers, events: seq<PeerEvent>, t: Telemetry, now: TimePoint, timeoutMs: int)
    requires t.droneId in HandleAll(peers, events, timeoutMs)
    requires var w := Since(peers, events, t.droneId, timeoutMs);
             w.base == 0 && AllRecent(0, w.packets + [t.seqNum])
    ensures var w, before := Since(peers, events, t.droneId, timeoutMs), HandleAll(peers, events, timeoutMs);
            var r, seen := OnTelemetry(before, t, now), before[t.droneId].info.lastSeenSeq;
            && (r.accepted <==> t.seqNum > 0 && forall p | p in w.accepted :: t.seqNum > p)
            && (r.newStream <==> r.accepted && (w.accepted == [] || 0 <= t.seqNum + 20 - TWO_TO_THE_32 < seen))
  {
    var w, before := Since(peers, events, t.droneId, timeoutMs), HandleAll(peers, events, timeoutMs);
    assert (w.packets + [t.seqNum])[..|w.packets|] == w.packets;
    TelemetryFilterIsRunningMax(peers, events, t.droneId, timeoutMs);
    AboveAllAccepted(w.packets, t.seqNum);
    NewStreamExactly(before, t, now);
  }

  lemma AboveAllAccepted(packets: seq<uint32>, p: uint32)
    ensures var s := MaxAll(0, packets);
            && (p > s.tracker <==> p > 0 && forall q | q in s.accepted :: p > q)
            && (s.tracker == 0 <==> s.accepted == [])
  {
    var s := MaxAll(0, packets);
    MaxAcceptsIncreasing(0, packets);
    if s.accepted != [] {
      assert s.accepted[|s.accepted| - 1] in s.accepted;
    }
    forall q | q in s.accepted && p > s.tracker ensures p > q {
      assert q in packets;
    }
  }

  // ---------------------------------------------------------------------
  //  What a record says of its peer
  // ---------------------------------------------------------------------

  /** The last heartbeat of a peer. */
  function LastHeartbeat(events: seq<PeerEvent>, id: uint8): Option<Heartbeat>
    decreases |events|
  {
    if events == [] then None
    else
      var e := events[|events| - 1];
      if HeartbeatOf(e, id) then Some(e.hb) else LastHeartbeat(events[..|events| - 1], id)
  }

  /**
   Over any history of arrivals a record shows the kind, role and task of its peer's last heartbeat;
   telemetry and refreshes change none of them.
   */
  lemma {:induction false} RecordShowsLastHeartbeat(events: seq<PeerEvent>, id: uint8, timeoutMs: int)
    ensures var peers := Replay(events, timeoutMs);
            && (id in peers <==> LastHeartbeat(events, id).Some?)
            && (id in peers ==>
                  var hb := LastHeartbeat(events, id).value;
                  && peers[id].info.droneId == hb.droneId == id && peers[id].info.nodeType == hb.nodeType
                  && peers[id].info.role == hb.role && peers[id].info.currentTask == hb.currentTask)
    decreases |events|
  {
    if events != [] {
      RecordShowsLastHeartbeat(events[..|events| - 1], id, timeoutMs);
    }
  }
}
