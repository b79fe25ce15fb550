/**
 * The legacy single-file client (P2PClient of p2p-client.js), for the
 * operations where it differs from the split client or that the split client
 * took over from it: reconnection (three attempts five seconds apart, a saved
 * offer reused as is, a replaced connection left open), the history insert,
 * the two halves of sync, clearChat, killAllData, removePeer and
 * savePeerOffer.
 *
 * As in the split client each handler is one atomic step with awaited results
 * as inputs, and the outside world is seen through the `sent`, `timers` and
 * `closed` logs.
 */
module Legacy {
  import opened Common
  import opened History
  import opened Transport
  import opened Peers
  import opened Reconnect
  import opened Wire

  /** Everything killAllData clears apart from the history, and the local id it renews. */
  datatype Contacts = Contacts(
    localPeerId: string,
    peers: map<string, PeerRecord>,
    connections: map<string, Handle>,
    dataChannels: map<string, Channel>,
    connectedPeers: set<string>,
    peerStates: map<string, string>)

  /**
   * The legacy killAllData on the contacts: every collection is emptied and the
   * stored id is removed, so generatePeerId always makes a new one.
   */
  function Forgotten(newPeerId: string): (r: Contacts)
    ensures r.localPeerId == newPeerId
    ensures r.peers == map[] && r.connections == map[] && r.dataChannels == map[]
    ensures r.connectedPeers == {} && r.peerStates == map[]
  {
    Contacts(newPeerId, map[], map[], map[], {}, map[])
  }

  /** The legacy reconnectToPeer's guards: a known, unconnected peer below the cap (any id string). */
  predicate LegacyAdmits(cur: Reconnecting, connected: set<string>, id: string, max: nat)
  {
    id in cur.peers && id !in connected && BelowCap(cur.attempts, id, max)
  }

  /**
   * One attempt past the guards of the legacy reconnectToPeer, compared with
   * the split client's: the counter, the new connection and channel and the
   * retry are the same, but the replaced connection is never closed, and the
   * peer's record changes only when it had no saved offer and a fresh one
   * could be made (a saved offer is reused, never replaced or cleared).
   * `outcome` is the awaited signalling step: setLocalDescription of the saved
   * offer (its value then unused), or createOffer and setLocalDescription.
   */
  function LegacyTryOnce(s: Reconnecting, id: string, handle: Handle, outcome: Outcome<Desc>, now: int,
                         max: nat, delay: nat): (r: Reconnecting)
    requires id in s.peers
    ensures var split := TryOnce(s, id, handle, outcome, now, max, delay);
            && r.attempts == split.attempts && r.connections == split.connections
            && r.dataChannels == split.dataChannels && r.timers == split.timers
            && split.closed == r.closed + (if id in s.connections then [s.connections[id]] else [])
    ensures r.closed == s.closed
    ensures r.peers.Keys == s.peers.Keys
    ensures r.peers[id].lastOffer == if s.peers[id].lastOffer.None? && outcome.Done? then Some(outcome.value)
                                     else s.peers[id].lastOffer
    ensures forall other :: other != id && other in s.peers ==> r.peers[other] == s.peers[other]
  {
    Reconnecting(
      Bump(s.attempts, id),
      if s.peers[id].lastOffer.None? && outcome.Done? then LegacyOfferSaved(s.peers, id, outcome.value, now) else s.peers,
      s.connections[id := handle],
      s.dataChannels[id := Channel(Connecting)],
      s.closed,
      s.timers + (if outcome.Threw? && RetryAfterFailure(AttemptsOf(s.attempts, id), max)
                  then [ReconnectLater(id, delay)] else []))
  }

  /**
   * The pieces of one attempt as the legacy reconnectToPeer performs them
   * (raise the counter, replace the connection, save a fresh offer when there
   * was none, schedule the retry) add up to LegacyTryOnce.
   */
  lemma LegacyTryOnceByParts(s: Reconnecting, id: string, handle: Handle, outcome: Outcome<Desc>, now: int,
                             max: nat, delay: nat, r: Reconnecting)
    requires id in s.peers
    requires r.attempts == s.attempts[id := AttemptsOf(s.attempts, id) + 1]
    requires r.connections == s.connections[id := handle]
    requires r.dataChannels == s.dataChannels[id := Channel(Connecting)]
    requires r.closed == s.closed
    requires r.peers == if s.peers[id].lastOffer.None? && outcome.Done?
                        then LegacyOfferSaved(s.peers, id, outcome.value, now) else s.peers
    requires r.timers == s.timers + if outcome.Threw? && RetryAfterFailure(AttemptsOf(s.attempts, id), max)
                                    then [ReconnectLater(id, delay)] else []
    ensures r == LegacyTryOnce(s, id, handle, outcome, now, max, delay)
  {
  }

  /**
   * The number of attempts a retry chain makes when every attempt fails,
   * starting from counter `before`: an attempt goes through below the cap, and
   * its failure schedules the next one iff RetryAfterFailure holds. The chain
   * uses up exactly the attempts left under the cap, and never schedules a
   * retry that the cap would then refuse.
   */
  function FailingChain(before: nat, max: nat): (r: nat)
    ensures before <= max ==> r == max - before
    ensures before >= max ==> r == 0
    decreases max - before
  {
    if !(before < max) then 0
    else if RetryAfterFailure(before, max) then 1 + FailingChain(before + 1, max)
    else 1
  }

  /**
   * A chain of legacy reconnects to `id` in which every attempt throws `e`:
   * a call that passes the guards makes the LegacyTryOnce attempt, and the
   * chain goes on with the retry that attempt's failure scheduled, if any.
   */
  function FailingRetries(s: Reconnecting, connected: set<string>, id: string, handle: Handle, e: RtcError,
                          now: int, max: nat, delay: nat): (r: Reconnecting)
    requires id in s.peers
    ensures id in r.peers
    decreases max - AttemptsOf(s.attempts, id)
  {
    if !LegacyAdmits(s, connected, id, max) then s
    else
      var t := LegacyTryOnce(s, id, handle, Threw(e), now, max, delay);
      if |t.timers| > |s.timers| then FailingRetries(t, connected, id, handle, e, now, max, delay) else t
  }

  /**
   * A chain of failing legacy reconnects to an unconnected known peer makes
   * exactly FailingChain attempts: it stops with the counter at the cap and
   * no retry pending beyond it.
   */
  lemma {:induction false} FailingRetriesCount(s: Reconnecting, connected: set<string>, id: string, handle: Handle,
                                               e: RtcError, now: int, max: nat, delay: nat)
    requires id in s.peers && id !in connected
    ensures var r := FailingRetries(s, connected, id, handle, e, now, max, delay);
            AttemptsOf(r.attempts, id) == AttemptsOf(s.attempts, id) + FailingChain(AttemptsOf(s.attempts, id), max)
    ensures AttemptsOf(s.attempts, id) <= max ==>
              AttemptsOf(FailingRetries(s, connected, id, handle, e, now, max, delay).attempts, id) == max
    decreases max - AttemptsOf(s.attempts, id)
  {
    var before := AttemptsOf(s.attempts, id);
    if LegacyAdmits(s, connected, id, max) {
      var t := LegacyTryOnce(s, id, handle, Threw(e), now, max, delay);
      assert AttemptsOf(t.attempts, id) == before + 1;
      assert |t.timers| > |s.timers| <==> RetryAfterFailure(before, max);
      if |t.timers| > |s.timers| {
        FailingRetriesCount(t, connected, id, handle, e, now, max, delay);
      }
    }
  }

  class LegacyClient {
    var localPeerId: string
    var connections: map<string, Handle>
    var dataChannels: map<string, Channel>
    var peers: map<string, PeerRecord>
    var connectedPeers: set<string>
    var messages: seq<Message>
    var files: map<string, FileRecord>
    var lastSyncTime: int
    var peerStates: map<string, string>
    var reconnectAttempts: map<string, nat>
    const maxReconnectAttempts: nat
    const reconnectTimeout: nat
    // What the client did to the outside world.
    var sent: seq<Outgoing>
    var timers: seq<Timer>
    var closed: seq<Handle>

    /** Message ids are unique and no reconnection counter exceeds the cap. */
    ghost predicate Valid()
      reads this`messages, this`reconnectAttempts
    {
      UniqueIds(messages) && Capped(reconnectAttempts, maxReconnectAttempts)
    }

    ghost function Chat(): Log
      reads this`messages, this`lastSyncTime
    {
      Log(messages, lastSyncTime)
    }

    ghost function Known(): Contacts
      reads this`localPeerId, this`peers, this`connections, this`dataChannels, this`connectedPeers, this`peerStates
    {
      Contacts(localPeerId, peers, connections, dataChannels, connectedPeers, peerStates)
    }

    /** The state the constructor sets up before loading storage (the id comes from generatePeerId). */
    constructor (localPeerId: string)
      ensures Valid()
      ensures this.localPeerId == localPeerId && Known() == Contacts(localPeerId, map[], map[], map[], {}, map[])
      ensures Chat() == Log([], 0) && files == map[] && reconnectAttempts == map[]
      ensures maxReconnectAttempts == LegacyMaxAttempts && reconnectTimeout == LegacyRetryDelay
      ensures sent == [] && timers == [] && closed == []
    {
      this.localPeerId := localPeerId;
      connections := map[];
      dataChannels := map[];
      peers := map[];
      connectedPeers := {};
      messages := [];
      files := map[];
      lastSyncTime := 0;
      peerStates := map[];
      reconnectAttempts := map[];
      maxReconnectAttempts := LegacyMaxAttempts;
      reconnectTimeout := LegacyRetryDelay;
      sent := [];
      timers := [];
      closed := [];
    }

    // ----- Sending -----

    method SendToPeer(peerId: string, p: Payload) returns (ok: bool)
      modifies this`sent
      ensures ok <==> IsOpen(dataChannels, peerId)
      ensures sent == old(sent) + if ok then [Outgoing(peerId, p)] else []
    {
      ok := peerId in dataChannels && dataChannels[peerId].readyState == Open;
      if ok {
        sent := sent + [Outgoing(peerId, p)];
      }
    }

    /** The channels are visited in `order`, some iteration of the channel map. */
    method BroadcastToPeers(p: Payload) returns (ghost order: seq<string>)
      modifies this`sent
      ensures Enumerates(order, dataChannels.Keys)
      ensures sent == old(sent) + Broadcast(order, dataChannels, p)
    {
      var channels := dataChannels;
      var remaining := channels.Keys;
      order := [];
      while remaining != {}
        invariant Visiting(order, remaining, channels.Keys)
        invariant sent == old(sent) + Broadcast(order, channels, p)
        decreases remaining
      {
        var id :| id in remaining;
        VisitStep(order, remaining, channels.Keys, id);
        BroadcastAdvance(old(sent), order, id, channels, p, sent);
        if channels[id].readyState == Open {
          sent := sent + [Outgoing(id, p)];
        }
        order := order + [id];
        remaining := remaining - {id};
      }
      VisitDone(order, channels.Keys);
    }

    // ----- Peer registry -----

    /** savePeerOffer: no id check; only the offer and the time of the record change. */
    method SavePeerOffer(peerId: string, offer: Desc, now: int)
      modifies this`peers
      ensures peers == LegacyOfferSaved(old(peers), peerId, offer, now)
    {
      var base := if peerId in peers then peers[peerId] else PeerRecord(peerId, 0, 0, None, None);
      peers := peers[peerId := base.(lastOffer := Some(offer), lastSeen := now)];
    }

    /** removePeer: the connection is closed first; the reconnect counter and the state entry are left as they were. */
    method RemovePeer(peerId: string)
      modifies this`peers, this`connections, this`dataChannels, this`connectedPeers, this`closed
      ensures peers == old(peers) - {peerId} && connections == old(connections) - {peerId}
      ensures dataChannels == old(dataChannels) - {peerId} && connectedPeers == old(connectedPeers) - {peerId}
      ensures closed == old(closed) + if peerId in old(connections) then [old(connections)[peerId]] else []
      ensures reconnectAttempts == old(reconnectAttempts) && peerStates == old(peerStates)
    {
      peers := peers - {peerId};
      if peerId in connections {
        closed := closed + [connections[peerId]];
        connections := connections - {peerId};
      }
      if peerId in dataChannels {
        dataChannels := dataChannels - {peerId};
      }
      connectedPeers := connectedPeers - {peerId};
    }

    // ----- Reconnection -----

    /**
     * createReconnectionOffer: a new connection replaces the old one, which is
     * not closed, a new channel is registered, and the new offer is saved if
     * it could be made.
     */
    method CreateReconnectionOffer(peerId: string, handle: Handle, outcome: Outcome<Desc>, now: int)
      returns (failure: Option<RtcError>)
      modifies this`connections, this`dataChannels, this`peers
      ensures connections == old(connections)[peerId := handle]
      ensures dataChannels == old(dataChannels)[peerId := Channel(Connecting)]
      ensures peers == if outcome.Done? then LegacyOfferSaved(old(peers), peerId, outcome.value, now) else old(peers)
      ensures failure == if outcome.Threw? then Some(outcome.error) else None
    {
      connections := connections[peerId := handle];
      dataChannels := dataChannels[peerId := Channel(Connecting)];
      match outcome
      case Done(offer) =>
        SavePeerOffer(peerId, offer, now);
        failure := None;
      case Threw(e) =>
        failure := Some(e);
    }

    /**
     * connectWithSavedOffer: a new connection replaces the old one, which is
     * not closed, and a new channel is registered; the saved offer is set as
     * the local description, which may fail.
     */
    method ConnectWithSavedOffer(peerId: string, handle: Handle, outcome: Outcome<Desc>)
      returns (failure: Option<RtcError>)
      modifies this`connections, this`dataChannels
      ensures connections == old(connections)[peerId := handle]
      ensures dataChannels == old(dataChannels)[peerId := Channel(Connecting)]
      ensures failure == if outcome.Threw? then Some(outcome.error) else None
    {
      connections := connections[peerId := handle];
      dataChannels := dataChannels[peerId := Channel(Connecting)];
      failure := if outcome.Threw? then Some(outcome.error) else None;
    }

    /**
     * reconnectToPeer: past the guards the counter is raised, then the saved
     * offer is reused or a new one made; any failure schedules a retry while
     * one more attempt stays below the cap. The counters stay within the cap.
     */
    method ReconnectToPeer(peerId: string, handle: Handle, outcome: Outcome<Desc>, now: int)
      requires Capped(reconnectAttempts, maxReconnectAttempts)
      modifies this`reconnectAttempts, this`connections, this`dataChannels, this`peers, this`timers
      ensures Capped(reconnectAttempts, maxReconnectAttempts)
      ensures var before := old(Reconnecting(reconnectAttempts, peers, connections, dataChannels, closed, timers));
              Reconnecting(reconnectAttempts, peers, connections, dataChannels, closed, timers) ==
              if LegacyAdmits(before, connectedPeers, peerId, maxReconnectAttempts)
              then LegacyTryOnce(before, peerId, handle, outcome, now, maxReconnectAttempts, reconnectTimeout)
              else before
    {
      if peerId !in peers || peerId in connectedPeers {
        return;
      }
      var attempts := if peerId in reconnectAttempts then reconnectAttempts[peerId] else 0;
      if attempts >= maxReconnectAttempts {
        return;
      }
      AttemptReconnect(peerId, attempts, handle, outcome, now);
    }

    /** The body of reconnectToPeer past its guards, with the counter `attempts` it read. */
    method AttemptReconnect(peerId: string, attempts: nat, handle: Handle, outcome: Outcome<Desc>, now: int)
      requires peerId in peers && attempts == AttemptsOf(reconnectAttempts, peerId)
      modifies this`reconnectAttempts, this`connections, this`dataChannels, this`peers, this`timers
      ensures Reconnecting(reconnectAttempts, peers, connections, dataChannels, closed, timers) ==
              LegacyTryOnce(old(Reconnecting(reconnectAttempts, peers, connections, dataChannels, closed, timers)),
                            peerId, handle, outcome, now, maxReconnectAttempts, reconnectTimeout)
    {
      ghost var before := Reconnecting(reconnectAttempts, peers, connections, dataChannels, closed, timers);
      reconnectAttempts := reconnectAttempts[peerId := attempts + 1];
      var failure;
      if peers[peerId].lastOffer.Some? {
        failure := ConnectWithSavedOffer(peerId, handle, outcome);
      } else {
        failure := CreateReconnectionOffer(peerId, handle, outcome, now);
      }
      if failure.Some? && attempts + 1 < maxReconnectAttempts {
        timers := timers + [ReconnectLater(peerId, reconnectTimeout)];
      }
      LegacyTryOnceByParts(before, peerId, handle, outcome, now, maxReconnectAttempts, reconnectTimeout,
                           Reconnecting(reconnectAttempts, peers, connections, dataChannels, closed, timers));
    }

    // ----- History -----

    /** clearChat, once the user has confirmed: the history, the files and the watermark go. */
    method ClearChat(confirmed: bool)
      modifies this`messages, this`files, this`lastSyncTime
      ensures confirmed ==> Chat() == Log([], 0) && files == map[]
      ensures !confirmed ==> Chat() == old(Chat()) && files == old(files)
    {
      if confirmed {
        messages := [];
        files := map[];
        lastSyncTime := 0;
      }
    }

    /** killAllData: everything but the reconnect counters goes, and the client takes a new id. */
    method KillAllData(newPeerId: string)
      requires Valid()
      modifies this`messages, this`lastSyncTime, this`files, this`peers, this`connections,
               this`dataChannels, this`connectedPeers, this`peerStates, this`localPeerId
      ensures Valid()
      ensures Chat() == Log([], 0) && files == map[]
      ensures Known() == Forgotten(newPeerId)
    {
      messages, files, peers, connections := [], map[], map[], map[];
      dataChannels, connectedPeers, peerStates, lastSyncTime := map[], {}, map[], 0;
      localPeerId := newPeerId;
    }

    /**
     * addMessageToHistory: a message with a known id is refused; a new one is
     * stored and raises the watermark; a new kill text wipes the client, and
     * the kill_command broadcast that follows reaches nobody, since the wipe
     * has dropped every channel.
     */
    method AddMessageToHistory(m: Message, now: int, newPeerId: string) returns (inserted: bool)
      requires Valid()
      modifies this`messages, this`lastSyncTime, this`files, this`peers, this`connections,
               this`dataChannels, this`connectedPeers, this`peerStates, this`localPeerId, this`sent
      ensures Valid()
      ensures inserted <==> !HasId(old(messages), m.id)
      ensures Chat() == Insert(old(Chat()), m)
      ensures files == if Wipes(old(Chat()), m) then map[] else old(files)
      ensures Known() == if Wipes(old(Chat()), m) then Forgotten(newPeerId) else old(Known())
      ensures sent == old(sent)
    {
      if HasId(messages, m.id) {
        return false;
      }
      ghost var expected := Insert(Chat(), m);
      messages := messages + [m];
      lastSyncTime := Max(lastSyncTime, m.timestamp);
      if IsKill(m) {
        KillAllData(newPeerId);
        ghost var order := BroadcastToPeers(KillCommand(localPeerId, now));
        BroadcastToNobody(order, dataChannels, KillCommand(localPeerId, now));
      } else {
        assert UniqueIds(expected.messages);
      }
      inserted := true;
    }

    /**
     * handleSyncRequest: answer with the messages newer than the requester's
     * watermark and the files it does not list, visiting the file map in `order`.
     */
    method HandleSyncRequest(lastSync: int, fileIds: Option<seq<string>>, peerId: string, now: int)
      returns (ghost order: seq<string>)
      modifies this`sent
      ensures Enumerates(order, files.Keys)
      ensures sent == old(sent) + if IsOpen(dataChannels, peerId)
                                  then [Outgoing(peerId, SyncResponse(localPeerId, now, Newer(messages, lastSync),
                                                                      Selected(order, files, fileIds)))]
                                  else []
    {
      var missing: seq<FileRecord> := [];
      var remaining := files.Keys;
      order := [];
      while remaining != {}
        invariant Visiting(order, remaining, files.Keys)
        invariant missing == Selected(order, files, fileIds)
        invariant sent == old(sent)
        decreases remaining
      {
        var id :| id in remaining;
        if fileIds.None? || id !in fileIds.value {
          missing := missing + [files[id]];
        }
        VisitStep(order, remaining, files.Keys, id);
        order := order + [id];
        remaining := remaining - {id};
      }
      VisitDone(order, files.Keys);
      var _ := SendToPeer(peerId, SyncResponse(localPeerId, now, Newer(messages, lastSync), missing));
    }

    /** The messages loop of handleSyncResponse: each message with an unknown id is added, in order. */
    method MergeIncoming(incoming: seq<Message>, now: int, newPeerId: string)
      requires Valid()
      modifies this`messages, this`lastSyncTime, this`files, this`peers, this`connections,
               this`dataChannels, this`connectedPeers, this`peerStates, this`localPeerId, this`sent
      ensures Valid()
      ensures Chat() == MergeAll(old(Chat()), incoming)
      ensures files == if WipesDuring(old(Chat()), incoming) then map[] else old(files)
      ensures Known() == if WipesDuring(old(Chat()), incoming) then Forgotten(newPeerId) else old(Known())
      ensures sent == old(sent)
    {
      ghost var chat0 := Chat();
      ghost var files0 := files;
      ghost var known0 := Known();
      ghost var wiped := false;
      var i := 0;
      while i < |incoming|
        invariant 0 <= i <= |incoming|
        invariant Valid()
        invariant MergeAll(Log(messages, lastSyncTime), incoming[i..]) == MergeAll(chat0, incoming)
        invariant WipesDuring(chat0, incoming) <==> wiped || WipesDuring(Log(messages, lastSyncTime), incoming[i..])
        invariant files == if wiped then map[] else files0
        invariant Contacts(localPeerId, peers, connections, dataChannels, connectedPeers, peerStates)
                  == if wiped then Forgotten(newPeerId) else known0
        invariant sent == old(sent)
      {
        var msg := incoming[i];
        ghost var before := Log(messages, lastSyncTime);
        assert incoming[i..][1..] == incoming[i + 1..];
        if !HasId(messages, msg.id) {
          var _ := AddMessageToHistory(msg, now, newPeerId);
        }
        wiped := wiped || Wipes(before, msg);
        i := i + 1;
      }
    }

    /** The files loop of handleSyncResponse: each record with an unknown id is stored, in order. */
    method AddUnknownFiles(incomingFiles: seq<FileRecord>)
      modifies this`files
      ensures files == MergeFiles(old(files), incomingFiles)
    {
      var j := 0;
      while j < |incomingFiles|
        invariant 0 <= j <= |incomingFiles|
        invariant MergeFiles(files, incomingFiles[j..]) == MergeFiles(old(files), incomingFiles)
      {
        var f := incomingFiles[j];
        assert incomingFiles[j..][1..] == incomingFiles[j + 1..];
        if f.id !in files {
          files := files[f.id := f];
        }
        j := j + 1;
      }
    }

    /**
     * handleSyncResponse: the unknown messages are added (a kill text among
     * them wipes the client), then the unknown files are stored, and the
     * watermark rises to the response's timestamp.
     */
    method HandleSyncResponse(incoming: seq<Message>, incomingFiles: seq<FileRecord>, timestamp: int,
                              now: int, newPeerId: string)
      requires Valid()
      modifies this`messages, this`lastSyncTime, this`files, this`peers, this`connections,
               this`dataChannels, this`connectedPeers, this`peerStates, this`localPeerId, this`sent
      ensures Valid()
      ensures var merged := MergeAll(old(Chat()), incoming);
              Chat() == Log(merged.messages, Max(merged.watermark, timestamp))
      ensures files == MergeFiles(if WipesDuring(old(Chat()), incoming) then map[] else old(files), incomingFiles)
      ensures Known() == if WipesDuring(old(Chat()), incoming) then Forgotten(newPeerId) else old(Known())
      ensures sent == old(sent)
    {
      MergeIncoming(incoming, now, newPeerId);
      AddUnknownFiles(incomingFiles);
      lastSyncTime := Max(lastSyncTime, timestamp);
    }
  }
}
