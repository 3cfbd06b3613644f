/** The peer table as the object the program keeps, proved against its value. */
module PeerManagers {
  import opened SwarmTypes
  import opened PeerTable

  class PeerManager {
    var peers: map<uint8, PeerRecord>
    const heartbeatTimeoutMs: int

    constructor ()
      ensures peers == map[] && heartbeatTimeoutMs == HEARTBEAT_TIMEOUT_MS
    {
      peers := map[];
      heartbeatTimeoutMs := HEARTBEAT_TIMEOUT_MS;
    }

    method OnHeartbeatReceived(hb: Heartbeat, now: TimePoint)
      modifies this
      ensures peers == OnHeartbeat(old(peers), hb, now)
    {
      var record := if hb.droneId in peers then peers[hb.droneId] else BLANK;
      var returned := record.status == Offline;
      var info := record.info.(droneId := hb.droneId, nodeType := hb.nodeType, role := hb.role,
                               currentTask := hb.currentTask);
      info := info.(lastHeard := now);
      var status := record.status;
      if returned {
        info := info.(lastSeenSeq := 0);
        status := Online;
      }
      peers := peers[hb.droneId := PeerRecord(info, status)];
    }

    method OnTelemetryReceived(t: Telemetry, now: TimePoint) returns (accepted: bool, newStream: bool)
      modifies this
      ensures TelemetryResult(peers, accepted, newStream) == OnTelemetry(old(peers), t, now)
    {
      newStream := false;
      if t.droneId !in peers {
        return false, false;
      }
      var record := peers[t.droneId];
      var largeBackwardJump := AddWrapping(t.seqNum, RESTART_THRESHOLD) < record.info.lastSeenSeq;
      if largeBackwardJump {
        record := record.(info := record.info.(lastSeenSeq := 0));
      }
      if t.seqNum <= record.info.lastSeenSeq {
        peers := peers[t.droneId := record];
        return false, false;
      }
      newStream := record.info.lastSeenSeq == 0;
      record := PeerRecord(record.info.(lastSeenSeq := t.seqNum, lastHeard := now), Online);
      peers := peers[t.droneId := record];
      accepted := true;
    }

    /** Walks the table in key order and marks the silent peers. */
    method RefreshStatus(now: TimePoint)
      modifies this
      ensures peers == Refresh(old(peers), now, heartbeatTimeoutMs)
    {
      ghost var before := peers;
      for id := 0 to 256
        invariant peers.Keys == before.Keys
        invariant forall k | k in before && k < id :: peers[k] == Refreshed(before[k], now, heartbeatTimeoutMs)
        invariant forall k | k in before && k >= id :: peers[k] == before[k]
      {
        if id in peers && peers[id].status == Online {
          var silence := now - peers[id].info.lastHeard;
          if ToMillis(silence) >= heartbeatTimeoutMs {
            peers := peers[id := peers[id].(status := Offline)];
          }
        }
      }
    }

    method CountWithStatus(s: PeerStatus) returns (counter: nat)
      ensures counter == |WithStatus(peers, s)|
    {
      counter := 0;
      ghost var seen: set<uint8> := {};
      for id := 0 to 256
        invariant seen == set k | k in peers && peers[k].status == s && k < id
        invariant counter == |seen|
      {
        if id in peers && peers[id].status == s {
          seen := seen + {id};
          counter := counter + 1;
        }
      }
      assert seen == WithStatus(peers, s);
    }

    /** Identifiers of the ONLINE drones, smallest first. */
    method CollectOnlineDroneIds() returns (ids: seq<uint8>)
      ensures ids == OnlineDroneIds(peers)
    {
      ids := [];
      ghost var left := OnlineDroneIds(peers);
      for id := 0 to 256
        invariant left == VotersFrom(peers, id)
        invariant ids + left == OnlineDroneIds(peers)
      {
        if id in peers {
          var record := peers[id];
          if record.status == Online && record.info.nodeType == DroneNode {
            assert left == [record.info.droneId] + VotersFrom(peers, id + 1);
            ids := ids + [record.info.droneId];
          }
        }
        left := VotersFrom(peers, id + 1);
      }
    }
  }
}
