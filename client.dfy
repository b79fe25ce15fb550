/**
 * The split client: the P2PClient class of p2p-core.js together with the
 * methods p2p-connection.js, p2p-reconnect.js, p2p-ui-storage.js and
 * p2p-file-transfer.js add to its prototype.
 *
 * Each handler is one atomic step: the continuation after an `await` runs at
 * once, with the awaited result given as an input. What the client does to the
 * outside world is recorded in four logs: `sent` (channel.send), `timers`
 * (setTimeout of a reconnect), `closed` (RTCPeerConnection.close) and
 * `fileSaves` (saveFileToStorage).
 */
module Client {
  import opened Common
  import opened History
  import opened FileTransfer
  import opened Transport
  import opened Peers
  import opened Reconnect
  import opened Wire
  import opened Liveness

  /**
   * The offer createOffer waits an answer for: the temporary peer id, its
   * connection, and the connection's local description (the offer set on it).
   */
  datatype PendingOffer = PendingOffer(peerId: string, connection: Handle, offer: Desc)

  /** Everything killAllData clears, and the local id it renews. */
  datatype Registry = Registry(
    localPeerId: string,
    files: map<string, FileRecord>,
    peers: map<string, PeerRecord>,
    connections: map<string, Handle>,
    dataChannels: map<string, Channel>,
    connectedPeers: set<string>,
    peerStates: map<string, string>)

  /**
   * killAllData on the registry: every collection is emptied; the local id is
   * replaced when a new one could be stored (None: the storage call failed).
   */
  function Wiped(r: Registry, newPeerId: Option<string>): Registry
  {
    Registry(if newPeerId.Some? then newPeerId.value else r.localPeerId,
             map[], map[], map[], map[], {}, map[])
  }

  /** The serialized size above which sendSmallFile refuses a file. */
  const SmallFileLimit: nat := 256 * 1024

  datatype SendResult = TooLarge | SendFailed

  /** The known ids autoReconnectOnStart goes through: those that are not blank. */
  function ReconnectCandidates(peers: map<string, PeerRecord>): (r: set<string>)
    ensures forall id :: id in r <==> id in peers && ValidPeerId(id)
  {
    set id | id in peers && ValidPeerId(id)
  }

  /**
   * finalizePeerConnection on the peer map: a blank id is refused; an unknown
   * id is registered; the connection's local description, when there is a
   * connection under that id and it has one, is saved as the peer's offer.
   */
  function Finalized(peers: map<string, PeerRecord>, id: string, now: int,
                     connections: map<string, Handle>, localDescription: Option<Desc>): (r: map<string, PeerRecord>)
    ensures !ValidPeerId(id) ==> r == peers
    ensures ValidPeerId(id) ==> r.Keys == peers.Keys + {id}
    ensures forall other :: other != id && other in peers ==> other in r && r[other] == peers[other]
    ensures ValidPeerId(id) && !(id in connections && localDescription.Some?) ==>
              r[id] == if id in peers then peers[id] else NewRecord(id, now)
    ensures ValidPeerId(id) && id in connections && localDescription.Some? ==>
              r[id].lastOffer == localDescription && r[id].lastSeen == now
    ensures ValidPeerId(id) && id in connections && localDescription.Some? ==>
              r[id] == WithOffer(Some(if id in peers then peers[id] else NewRecord(id, now)), id, localDescription.value, now)
  {
    if !ValidPeerId(id) then peers
    else
      var known := if id in peers then peers else peers[id := NewRecord(id, now)];
      if id in connections && localDescription.Some? then OfferSaved(known, id, localDescription.value, now)
      else known
  }

  class P2PClient {
    var localPeerId: string
    var connections: map<string, Handle>
    var dataChannels: map<string, Channel>
    var peers: map<string, PeerRecord>
    var connectedPeers: set<string>
    var isOnline: bool
    var messages: seq<Message>
    var files: map<string, FileRecord>
    var pendingOffer: Option<PendingOffer>
    var lastSyncTime: int
    var peerStates: map<string, string>
    var reconnectAttempts: map<string, nat>
    const maxReconnectAttempts: nat
    const reconnectTimeout: nat
    var reconnectInProgress: bool
    var fileTransfers: map<string, Transfer>

    var sent: seq<Outgoing>
    var timers: seq<Timer>
    var closed: seq<Handle>
    var fileSaves: seq<FileRecord>

    /** Message ids are unique and no reconnection counter exceeds the cap. */
    ghost predicate Valid()
      reads this`messages, this`reconnectAttempts
    {
      UniqueIds(messages) && Capped(reconnectAttempts, maxReconnectAttempts)
    }

    /** Every transfer is filed under its own id, and no two share an object or a slot array. */
    ghost predicate TransfersValid()
      reads this`fileTransfers
    {
      && (forall id :: id in fileTransfers ==> fileTransfers[id].Valid() && fileTransfers[id].transferId == id)
      && (forall a, b :: a in fileTransfers && b in fileTransfers && a != b ==>
            fileTransfers[a] != fileTransfers[b] && fileTransfers[a].receivedChunks != fileTransfers[b].receivedChunks)
    }

    /** The history and its sync watermark. */
    ghost function Chat(): Log
      reads this`messages, this`lastSyncTime
    {
      Log(messages, lastSyncTime)
    }

    ghost function Registered(): Registry
      reads this`localPeerId, this`files, this`peers, this`connections, this`dataChannels,
             this`connectedPeers, this`peerStates
    {
      Registry(localPeerId, files, peers, connections, dataChannels, connectedPeers, peerStates)
    }

    /** The sync_request syncWithPeer builds. */
    function SyncRequestFor(now: int): Payload
      reads this`localPeerId, this`lastSyncTime, this`messages, this`files
    {
      SyncRequest(localPeerId, now, lastSyncTime, |messages|, |files|)
    }

    /** What sendToPeer writes: the payload, if the peer's channel is open. */
    function Delivered(peerId: string, p: Payload): seq<Outgoing>
      reads this`dataChannels
    {
      if IsOpen(dataChannels, peerId) then [Outgoing(peerId, p)] else []
    }

    /** What syncWithPeer writes. */
    function SyncSent(peerId: string, now: int): seq<Outgoing>
      reads this`localPeerId, this`lastSyncTime, this`messages, this`files, this`dataChannels
    {
      if ValidPeerId(peerId) then Delivered(peerId, SyncRequestFor(now)) else []
    }

    /** The reconnect a lost peer gets scheduled, unless the startup sweep is running. */
    function RetryFor(peerId: string): seq<Timer>
      reads this`reconnectInProgress
    {
      if reconnectInProgress then [] else [ReconnectLater(peerId, reconnectTimeout)]
    }

    /** The peer is no longer connected; the client is offline if it was the last one; a reconnect is scheduled. */
    twostate predicate Dropped(peerId: string)
      reads this`connectedPeers, this`isOnline, this`timers, this`reconnectInProgress
    {
      && connectedPeers == old(connectedPeers) - {peerId}
      && isOnline == (old(isOnline) && connectedPeers != {})
      && timers == old(timers) + RetryFor(peerId)
    }

    constructor (localPeerId: string)
      ensures Valid() && TransfersValid()
      ensures this.localPeerId == localPeerId
      ensures connections == map[] && dataChannels == map[] && peers == map[] && connectedPeers == {}
      ensures !isOnline && messages == [] && files == map[] && pendingOffer.None? && lastSyncTime == 0
      ensures peerStates == map[] && reconnectAttempts == map[]
      ensures maxReconnectAttempts == MaxAttempts && reconnectTimeout == RetryDelay
      ensures !reconnectInProgress && fileTransfers == map[]
      ensures sent == [] && timers == [] && closed == [] && fileSaves == []
    {
      this.localPeerId := localPeerId;
      connections := map[];
      dataChannels := map[];
      peers := map[];
      connectedPeers := {};
      isOnline := false;
      messages := [];
      files := map[];
      pendingOffer := None;
      lastSyncTime := 0;
      peerStates := map[];
      reconnectAttempts := map[];
      maxReconnectAttempts := MaxAttempts;
      reconnectTimeout := RetryDelay;
      reconnectInProgress := false;
      fileTransfers := map[];
      sent := [];
      timers := [];
      closed := [];
      fileSaves := [];
    }

    // ----- Sending -----

    method SendToPeer(peerId: string, p: Payload) returns (ok: bool)
      modifies this`sent
      ensures ok <==> IsOpen(dataChannels, peerId)
      ensures sent == old(sent) + Delivered(peerId, p)
    {
      ok := peerId in dataChannels && dataChannels[peerId].readyState == Open;
      if ok {
        sent := sent + [Outgoing(peerId, p)];
      }
    }

    /** The channels are visited in `order`, some iteration of the channel map. */
    method BroadcastToPeers(p: Payload) returns (ghost order: seq<string>)
      modifies this`sent
      ensures Enumerates(order, dataChannels.Keys)
      ensures sent == old(sent) + Broadcast(order, dataChannels, p)
    {
      var channels := dataChannels;
      var remaining := channels.Keys;
      order := [];
      while remaining != {}
        invariant Visiting(order, remaining, channels.Keys)
        invariant sent == old(sent) + Broadcast(order, channels, p)
        decreases remaining
      {
        var id :| id in remaining;
        VisitStep(order, remaining, channels.Keys, id);
        BroadcastAdvance(old(sent), order, id, channels, p, sent);
        if channels[id].readyState == Open {
          sent := sent + [Outgoing(id, p)];
        }
        order := order + [id];
        remaining := remaining - {id};
      }
      VisitDone(order, channels.Keys);
    }

    method SyncWithPeer(peerId: string, now: int)
      modifies this`sent
      ensures sent == old(sent) + SyncSent(peerId, now)
    {
      if !ValidPeerId(peerId) {
        return;
      }
      var _ := SendToPeer(peerId, SyncRequestFor(now));
    }

    // ----- Channel and connection events -----

    /** setupDataChannel registers the channel (a new one is still connecting). */
    method SetupDataChannel(peerId: string, channel: Channel)
      modifies this`dataChannels
      ensures dataChannels == old(dataChannels)[peerId := channel]
    {
      dataChannels := dataChannels[peerId := channel];
    }

    method OnChannelOpen(peerId: string)
      modifies this`connectedPeers, this`isOnline
      ensures connectedPeers == old(connectedPeers) + {peerId} && isOnline
    {
      connectedPeers := connectedPeers + {peerId};
      isOnline := true;
    }

    method OnChannelClose(peerId: string)
      modifies this`connectedPeers, this`isOnline, this`timers
      ensures Dropped(peerId)
    {
      connectedPeers := connectedPeers - {peerId};
      if connectedPeers == {} {
        isOnline := false;
      }
      if !reconnectInProgress {
        timers := timers + [ReconnectLater(peerId, reconnectTimeout)];
      }
    }

    /**
     * The connection-state handler of setupConnectionHandlers: on "connected"
     * the peer is marked connected, its counter is reset and it is asked to
     * sync; on "disconnected" or "failed" it is dropped.
     */
    method OnConnectionStateChange(peerId: string, state: ConnectionState, now: int)
      requires Valid()
      modifies this`connectedPeers, this`isOnline, this`reconnectAttempts, this`sent, this`timers
      ensures Valid()
      ensures state == Connected ==>
                && connectedPeers == old(connectedPeers) + {peerId} && isOnline
                && reconnectAttempts == old(reconnectAttempts)[peerId := 0]
                && sent == old(sent) + SyncSent(peerId, now) && timers == old(timers)
      ensures (state == Disconnected || state == Failed) ==>
                Dropped(peerId) && reconnectAttempts == old(reconnectAttempts) && sent == old(sent)
      ensures !(state == Connected || state == Disconnected || state == Failed) ==> unchanged(this)
    {
      if state == Connected {
        connectedPeers := connectedPeers + {peerId};
        isOnline := true;
        reconnectAttempts := reconnectAttempts[peerId := 0];
        SyncWithPeer(peerId, now);
      } else if state == Disconnected || state == Failed {
        OnChannelClose(peerId);
      }
    }

    /**
     * The connection-state handler createOffer installs, keyed by the temporary
     * id: on "connected" the temporary id is finalized, marked connected and
     * asked to sync.
     */
    method OnOffererStateChange(tempId: string, state: ConnectionState, now: int, localDescription: Option<Desc>)
      modifies this`peers, this`connectedPeers, this`isOnline, this`sent, this`timers
      ensures state == Connected ==>
                && peers == Finalized(old(peers), tempId, now, connections, localDescription)
                && connectedPeers == old(connectedPeers) + {tempId} && isOnline
                && sent == old(sent) + SyncSent(tempId, now) && timers == old(timers)
      ensures (state == Disconnected || state == Failed) ==> Dropped(tempId) && peers == old(peers) && sent == old(sent)
      ensures !(state == Connected || state == Disconnected || state == Failed) ==> unchanged(this)
    {
      if state == Connected {
        FinalizePeerConnection(tempId, now, localDescription);
        connectedPeers := connectedPeers + {tempId};
        isOnline := true;
        SyncWithPeer(tempId, now);
      } else if state == Disconnected || state == Failed {
        OnChannelClose(tempId);
      }
    }

    /**
     * The connection-state handler handleOffer installs: on "connected" the
     * connection's local description (the answer) is kept in the peer's record,
     * if the peer is still known.
     */
    method OnAnswererStateChange(peerId: string, state: ConnectionState, now: int, localDescription: Option<Desc>)
      modifies this`peers, this`connectedPeers, this`isOnline, this`sent, this`timers
      ensures state == Connected ==>
                && connectedPeers == old(connectedPeers) + {peerId} && isOnline
                && peers == (if localDescription.Some? && peerId in old(peers)
                             then old(peers)[peerId := old(peers)[peerId].(lastAnswer := localDescription)]
                             else old(peers))
                && sent == old(sent) + SyncSent(peerId, now) && timers == old(timers)
      ensures (state == Disconnected || state == Failed) ==> Dropped(peerId) && peers == old(peers) && sent == old(sent)
      ensures !(state == Connected || state == Disconnected || state == Failed) ==> unchanged(this)
    {
      if state == Connected {
        connectedPeers := connectedPeers + {peerId};
        isOnline := true;
        if localDescription.Some? && peerId in peers {
          peers := peers[peerId := peers[peerId].(lastAnswer := localDescription)];
        }
        SyncWithPeer(peerId, now);
      } else if state == Disconnected || state == Failed {
        OnChannelClose(peerId);
      }
    }

    /**
     * The body of the sweep for one channel entry: a valid id whose channel
     * state disagrees with its membership flips; coming up sends a sync
     * request, going down schedules a reconnect.
     */
    method CheckPeer(id: string, now: int)
      requires id in dataChannels
      modifies this`connectedPeers, this`sent, this`timers
      ensures connectedPeers == if !Checked(dataChannels, id) then old(connectedPeers)
                                else if IsOpen(dataChannels, id) then old(connectedPeers) + {id}
                                else old(connectedPeers) - {id}
      ensures sent == old(sent) + (if ComesUp(old(connectedPeers), dataChannels, id) then [Outgoing(id, SyncRequest(localPeerId, now, lastSyncTime, |messages|, |files|))] else [])
      ensures timers == old(timers) + (if !reconnectInProgress && GoesDown(old(connectedPeers), dataChannels, id)
                                       then [ReconnectLater(id, reconnectTimeout)] else [])
    {
      if !ValidPeerId(id) {
        return;
      }
      var isConnected := dataChannels[id].readyState == Open;
      var wasConnected := id in connectedPeers;
      if isConnected != wasConnected {
        if isConnected {
          connectedPeers := connectedPeers + {id};
          SyncWithPeer(id, now);
        } else {
          connectedPeers := connectedPeers - {id};
          if !reconnectInProgress {
            timers := timers + [ReconnectLater(id, reconnectTimeout)];
          }
        }
      }
    }

    /**
     * The periodic sweep over the channel map, visited in `order`: afterwards a
     * checked peer is connected exactly when its channel is open, the peers
     * that came up were asked to sync, those that went down got a reconnect,
     * and the client is online iff some peer is connected.
     */
    method CheckPeersStatus(now: int) returns (ghost order: seq<string>)
      modifies this`connectedPeers, this`isOnline, this`sent, this`timers
      ensures Enumerates(order, dataChannels.Keys)
      ensures connectedPeers == Reconciled(old(connectedPeers), dataChannels)
      ensures isOnline == (connectedPeers != {})
      ensures sent == old(sent) + SyncSends(order, old(connectedPeers), dataChannels, SyncRequest(localPeerId, now, lastSyncTime, |messages|, |files|))
      ensures timers == old(timers) + RetryTimers(order, old(connectedPeers), dataChannels, reconnectInProgress, reconnectTimeout)
    {
      ghost var before := connectedPeers;
      ghost var request := SyncRequest(localPeerId, now, lastSyncTime, |messages|, |files|);
      var channels := dataChannels;
      var remaining := channels.Keys;
      order := [];
      while remaining != {}
        invariant Visiting(order, remaining, channels.Keys)
        invariant connectedPeers == Swept(before, channels, order)
        invariant sent == old(sent) + SyncSends(order, before, channels, request)
        invariant timers == old(timers) + RetryTimers(order, before, channels, reconnectInProgress, reconnectTimeout)
        decreases remaining
      {
        var id :| id in remaining;
        ghost var c, s, t := connectedPeers, sent, timers;
        CheckPeer(id, now);
        SweepAdvance(before, channels, order, id, request, reconnectInProgress, reconnectTimeout,
                     old(sent), old(timers), c, s, t, connectedPeers, sent, timers);
        VisitStep(order, remaining, channels.Keys, id);
        order := order + [id];
        remaining := remaining - {id};
      }
      VisitDone(order, channels.Keys);
      SweptAll(before, channels, order);
      isOnline := connectedPeers != {};
    }

    /**
     * refreshIceCandidates: with a connection under the id, a fresh offer is
     * saved, or an SDP failure clears the saved one; other failures change
     * nothing.
     */
    method RefreshIceCandidates(peerId: string, outcome: Outcome<Desc>, now: int)
      modifies this`peers
      ensures peerId !in connections ==> peers == old(peers)
      ensures peerId in connections ==>
                peers == if outcome.Done? then OfferSaved(old(peers), peerId, outcome.value, now)
                         else if IsSdpError(outcome.error) then OfferCleared(old(peers), peerId)
                         else old(peers)
    {
      if peerId !in connections {
        return;
      }
      match outcome
      case Done(offer) => SavePeerOffer(peerId, offer, now);
      case Threw(e) =>
        if IsSdpError(e) {
          ClearSavedOffer(peerId);
        }
    }

    // ----- Peer registry -----

    method SavePeerOffer(peerId: string, offer: Desc, now: int)
      modifies this`peers
      ensures peers == OfferSaved(old(peers), peerId, offer, now)
    {
      if !ValidPeerId(peerId) {
        return;
      }
      var existing := if peerId in peers then Some(peers[peerId]) else None;
      var base := if existing.Some? then existing.value else PeerRecord(peerId, 0, 0, None, None);
      var record := base.(lastOffer := Some(offer), lastSeen := now);
      if record.connectionCount == 0 {
        record := record.(connectionCount := 1);
      }
      peers := peers[peerId := record];
    }

    method ClearSavedOffer(peerId: string)
      modifies this`peers
      ensures peers == OfferCleared(old(peers), peerId)
    {
      if peerId in peers {
        peers := peers[peerId := peers[peerId].(lastOffer := None)];
      }
    }

    /** removePeer: the connection is closed first; the reconnect counter and the state entry are left as they were. */
    method RemovePeer(peerId: string)
      modifies this`peers, this`connections, this`dataChannels, this`connectedPeers, this`closed
      ensures peers == old(peers) - {peerId} && connections == old(connections) - {peerId}
      ensures dataChannels == old(dataChannels) - {peerId} && connectedPeers == old(connectedPeers) - {peerId}
      ensures closed == old(closed) + if peerId in old(connections) then [old(connections)[peerId]] else []
      ensures reconnectAttempts == old(reconnectAttempts) && peerStates == old(peerStates)
    {
      peers := peers - {peerId};
      if peerId in connections {
        closed := closed + [connections[peerId]];
        connections := connections - {peerId};
      }
      if peerId in dataChannels {
        dataChannels := dataChannels - {peerId};
      }
      connectedPeers := connectedPeers - {peerId};
    }

    // ----- History -----

    /** killAllData. The connection counters, transfers and pending offer survive. */
    method KillAllData(newPeerId: Option<string>)
      requires Valid()
      modifies this`messages, this`lastSyncTime, this`files, this`peers, this`connections,
               this`dataChannels, this`connectedPeers, this`peerStates, this`localPeerId
      ensures Valid()
      ensures Chat() == Log([], 0)
      ensures Registered() == Wiped(old(Registered()), newPeerId)
    {
      messages, files, peers, connections := [], map[], map[], map[];
      dataChannels, connectedPeers, peerStates, lastSyncTime := map[], {}, map[], 0;
      localPeerId := if newPeerId.Some? then newPeerId.value else localPeerId;
    }

    /**
     * addMessageToHistory: a message with a known id is refused; a new one is
     * stored and raises the watermark; a new kill text wipes the client. The
     * kill_command broadcast that follows reaches nobody: the wipe has already
     * dropped every channel.
     */
    method AddMessageToHistory(m: Message, now: int, newPeerId: Option<string>) returns (inserted: bool)
      requires Valid()
      modifies this`messages, this`lastSyncTime, this`files, this`peers, this`connections,
               this`dataChannels, this`connectedPeers, this`peerStates, this`localPeerId, this`sent
      ensures Valid()
      ensures inserted <==> !HasId(old(messages), m.id)
      ensures Chat() == Insert(old(Chat()), m)
      ensures Registered() == if Wipes(old(Chat()), m) then Wiped(old(Registered()), newPeerId) else old(Registered())
      ensures sent == old(sent)
    {
      if HasId(messages, m.id) {
        return false;
      }
      ghost var expected := Insert(Chat(), m);
      messages := messages + [m];
      lastSyncTime := Max(lastSyncTime, m.timestamp);
      if IsKill(m) {
        var sender := localPeerId;
        KillAllData(newPeerId);
        ghost var order := BroadcastToPeers(KillCommand(sender, now));
        BroadcastToNobody(order, dataChannels, KillCommand(sender, now));
      } else {
        assert UniqueIds(expected.messages);
      }
      inserted := true;
    }

    /**
     * handleSyncRequest: answer with the messages newer than the requester's
     * watermark and the files it does not list, visiting the file map in `order`.
     */
    method HandleSyncRequest(lastSync: int, fileIds: Option<seq<string>>, peerId: string, now: int)
      returns (ghost order: seq<string>)
      modifies this`sent
      ensures Enumerates(order, files.Keys)
      ensures sent == old(sent) + Delivered(peerId, SyncResponse(localPeerId, now, Newer(messages, lastSync),
                                                                  Selected(order, files, fileIds)))
    {
      var missing: seq<FileRecord> := [];
      var remaining := files.Keys;
      order := [];
      while remaining != {}
        invariant Visiting(order, remaining, files.Keys)
        invariant missing == Selected(order, files, fileIds)
        invariant sent == old(sent)
        decreases remaining
      {
        var id :| id in remaining;
        if fileIds.None? || id !in fileIds.value {
          missing := missing + [files[id]];
        }
        VisitStep(order, remaining, files.Keys, id);
        order := order + [id];
        remaining := remaining - {id};
      }
      VisitDone(order, files.Keys);
      var _ := SendToPeer(peerId, SyncResponse(localPeerId, now, Newer(messages, lastSync), missing));
    }

    /**
     * The effect of handleSyncResponse on the history, the registry and the
     * storage log: a save that throws ends the file loop and the watermark is
     * then left as the message loop left it.
     */
    twostate predicate SyncResponseApplied(incoming: seq<Message>, incomingFiles: seq<FileRecord>,
                                           timestamp: int, newPeerId: Option<string>, saveThrows: FileRecord -> bool)
      reads this`messages, this`lastSyncTime, this`localPeerId, this`files, this`peers, this`connections,
             this`dataChannels, this`connectedPeers, this`peerStates, this`fileSaves
    {
      var merged := MergeAll(old(Chat()), incoming);
      var completed := SavedUpTo(files, incomingFiles, saveThrows) == |incomingFiles|;
      && Chat() == Log(merged.messages, if completed then Max(merged.watermark, timestamp) else merged.watermark)
      && Registered() == (if WipesDuring(old(Chat()), incoming) then Wiped(old(Registered()), newPeerId)
                          else old(Registered()))
      && fileSaves == old(fileSaves) + SavesMade(files, incomingFiles, saveThrows)
    }

    /**
     * The first loop of handleSyncResponse: every message whose id is unknown
     * goes through addMessageToHistory, in order.
     */
    method MergeIncoming(incoming: seq<Message>, now: int, newPeerId: Option<string>)
      requires Valid()
      modifies this`messages, this`lastSyncTime, this`files, this`peers, this`connections,
               this`dataChannels, this`connectedPeers, this`peerStates, this`localPeerId, this`sent
      ensures Valid()
      ensures Chat() == MergeAll(old(Chat()), incoming)
      ensures Registered() == if WipesDuring(old(Chat()), incoming) then Wiped(old(Registered()), newPeerId)
                              else old(Registered())
      ensures sent == old(sent)
    {
      ghost var chat0 := Chat();
      ghost var registry0 := Registered();
      ghost var wiped := false;
      var i := 0;
      while i < |incoming|
        invariant 0 <= i <= |incoming|
        invariant Valid()
        invariant MergeAll(Log(messages, lastSyncTime), incoming[i..]) == MergeAll(chat0, incoming)
        invariant WipesDuring(chat0, incoming) <==> wiped || WipesDuring(Log(messages, lastSyncTime), incoming[i..])
        invariant Registry(localPeerId, files, peers, connections, dataChannels, connectedPeers, peerStates)
                  == if wiped then Wiped(registry0, newPeerId) else registry0
        invariant sent == old(sent)
      {
        var msg := incoming[i];
        ghost var before := Log(messages, lastSyncTime);
        assert incoming[i..][1..] == incoming[i + 1..];
        if !HasId(messages, msg.id) {
          var _ := AddMessageToHistory(msg, now, newPeerId);
        }
        wiped := wiped || Wipes(before, msg);
        i := i + 1;
      }
    }

    /**
     * The second loop of handleSyncResponse: every file whose id is not stored
     * is handed to storage, in order, until a save throws (`saveThrows`).
     * Reports whether the loop ran to the end.
     */
    method SaveUnknownFiles(incomingFiles: seq<FileRecord>, saveThrows: FileRecord -> bool) returns (completed: bool)
      modifies this`fileSaves
      ensures completed <==> SavedUpTo(files, incomingFiles, saveThrows) == |incomingFiles|
      ensures fileSaves == old(fileSaves) + SavesMade(files, incomingFiles, saveThrows)
    {
      var stored := files;
      var j := 0;
      while j < |incomingFiles|
        invariant 0 <= j <= |incomingFiles|
        invariant forall k :: 0 <= k < j ==> !SaveThrows(stored, incomingFiles[k], saveThrows)
        invariant fileSaves == old(fileSaves) + Unstored(stored, incomingFiles[..j])
      {
        var f := incomingFiles[j];
        UnstoredStep(stored, incomingFiles, j);
        AppendAssoc(old(fileSaves), Unstored(stored, incomingFiles[..j]), if f.id in stored then [] else [f]);
        if f.id !in stored {
          fileSaves := fileSaves + [f];
          if saveThrows(f) {
            SavesMadeStops(stored, incomingFiles, saveThrows, j);
            return false;
          }
        }
        j := j + 1;
      }
      assert incomingFiles[..j] == incomingFiles;
      SavesMadeAll(stored, incomingFiles, saveThrows);
      completed := true;
    }

    /**
     * handleSyncResponse: the unknown messages are merged, the unknown files
     * saved, and, when no save threw, the watermark rises to the response's
     * timestamp.
     */
    method HandleSyncResponse(incoming: seq<Message>, incomingFiles: seq<FileRecord>, timestamp: int,
                              now: int, newPeerId: Option<string>, saveThrows: FileRecord -> bool)
      requires Valid()
      modifies this`messages, this`lastSyncTime, this`files, this`peers, this`connections,
               this`dataChannels, this`connectedPeers, this`peerStates, this`localPeerId, this`sent, this`fileSaves
      ensures Valid()
      ensures SyncResponseApplied(incoming, incomingFiles, timestamp, newPeerId, saveThrows)
      ensures sent == old(sent)
    {
      MergeIncoming(incoming, now, newPeerId);
      var completed := SaveUnknownFiles(incomingFiles, saveThrows);
      if completed {
        lastSyncTime := Max(lastSyncTime, timestamp);
      }
    }

    /**
     * handleIncomingMessage on a received message (None: JSON.parse threw). A
     * text is stored under the fresh id `freshId`, except "kill", which wipes
     * the client without being stored; a file is registered and announced in
     * the history; sync messages are handed on; a kill_command wipes.
     */
    method HandleIncomingMessage(inbound: Option<Inbound>, peerId: string, freshId: string, now: int,
                                 newPeerId: Option<string>, saveThrows: FileRecord -> bool) returns (ghost fileOrder: seq<string>)
      requires Valid()
      modifies this`messages, this`lastSyncTime, this`files, this`peers, this`connections,
               this`dataChannels, this`connectedPeers, this`peerStates, this`localPeerId, this`sent, this`fileSaves
      ensures Valid()
      ensures inbound.None? || inbound.value.InOther? ==>
                Chat() == old(Chat()) && Registered() == old(Registered()) && sent == old(sent) && fileSaves == old(fileSaves)
      ensures inbound == Some(InKillCommand) || (inbound.Some? && inbound.value.InText? && inbound.value.content == "kill") ==>
                && Chat() == Log([], 0) && Registered() == Wiped(old(Registered()), newPeerId)
                && sent == old(sent) && fileSaves == old(fileSaves)
      ensures inbound.Some? && inbound.value.InText? && inbound.value.content != "kill" ==>
                var m := Message(freshId, Text(inbound.value.content), peerId, Stamp(inbound.value.sentAt, now));
                && Chat() == Insert(old(Chat()), m) && Registered() == old(Registered())
                && sent == old(sent) && fileSaves == old(fileSaves)
      ensures inbound.Some? && inbound.value.InFile? ==>
                var fd := inbound.value.fileData;
                var m := Message(freshId, FileRef(fd.id), peerId, Stamp(inbound.value.sentAt, now));
                && Chat() == Insert(old(Chat()), m)
                && Registered() == old(Registered()).(files := old(files)[fd.id := fd])
                && sent == old(sent) && fileSaves == old(fileSaves)
      ensures inbound.Some? && inbound.value.InSyncRequest? ==>
                && Chat() == old(Chat()) && Registered() == old(Registered()) && fileSaves == old(fileSaves)
                && Enumerates(fileOrder, files.Keys)
                && sent == old(sent) + Delivered(peerId, SyncResponse(localPeerId, now,
                                                   Newer(messages, inbound.value.lastSync),
                                                   Selected(fileOrder, files, inbound.value.fileIds)))
      ensures inbound.Some? && inbound.value.InSyncResponse? ==>
                && SyncResponseApplied(inbound.value.messages, inbound.value.files, inbound.value.timestamp, newPeerId, saveThrows)
                && sent == old(sent)
    {
      fileOrder := [];
      if inbound.None? {
        return;
      }
      match inbound.value
      case InText(content, sentAt) =>
        if content == "kill" {
          KillAllData(newPeerId);
        } else {
          var _ := AddMessageToHistory(Message(freshId, Text(content), peerId, Stamp(sentAt, now)), now, newPeerId);
        }
      case InFile(fd, sentAt) =>
        files := files[fd.id := fd];
        var _ := AddMessageToHistory(Message(freshId, FileRef(fd.id), peerId, Stamp(sentAt, now)), now, newPeerId);
      case InSyncRequest(lastSync, fileIds) =>
        fileOrder := HandleSyncRequest(lastSync, fileIds, peerId, now);
      case InSyncResponse(ms, fs, ts) =>
        HandleSyncResponse(ms, fs, ts, now, newPeerId, saveThrows);
      case InKillCommand =>
        KillAllData(newPeerId);
      case InOther(_) =>
    }

    // ----- Manual handshake -----

    /**
     * createOffer under the fresh temporary id `newPeerId`: the connection and
     * its channel are registered before the offer is made and stay when making
     * it fails; only a successful offer becomes the pending one.
     */
    method CreateOffer(newPeerId: string, handle: Handle, outcome: Outcome<Desc>) returns (failure: Option<RtcError>)
      modifies this`connections, this`dataChannels, this`pendingOffer
      ensures connections == old(connections)[newPeerId := handle]
      ensures dataChannels == old(dataChannels)[newPeerId := Channel(Connecting)]
      ensures pendingOffer == if outcome.Done? then Some(PendingOffer(newPeerId, handle, outcome.value)) else old(pendingOffer)
      ensures failure == if outcome.Threw? then Some(outcome.error) else None
    {
      connections := connections[newPeerId := handle];
      SetupDataChannel(newPeerId, Channel(Connecting));
      match outcome
      case Done(offer) =>
        pendingOffer := Some(PendingOffer(newPeerId, handle, offer));
        failure := None;
      case Threw(e) =>
        failure := Some(e);
    }

    /**
     * The effect of handleOffer: a blank or already known id is refused;
     * otherwise the connection and a fresh record are registered before the
     * negotiation, and the answer blob exists only if the negotiation succeeded.
     */
    twostate predicate OfferHandled(signal: Signal, handle: Handle, now: int, answer: Outcome<Desc>,
                                    new blob: Option<AnswerBlob>)
      reads this`peers, this`connections, this`localPeerId
    {
      var id := signal.peerId;
      if ValidPeerId(id) && id !in old(peers) then
        && connections == old(connections)[id := handle]
        && peers == old(peers)[id := NewRecord(id, now)]
        && blob == (if answer.Done? then Some(AnswerBlob(localPeerId, id, answer.value)) else None)
      else
        connections == old(connections) && peers == old(peers) && blob.None?
    }

    /** `answer` is what setRemoteDescription, createAnswer and setLocalDescription together produced. */
    method HandleOffer(signal: Signal, handle: Handle, now: int, answer: Outcome<Desc>) returns (blob: Option<AnswerBlob>)
      modifies this`connections, this`peers
      ensures OfferHandled(signal, handle, now, answer, blob)
    {
      var id := signal.peerId;
      if !ValidPeerId(id) || id in peers {
        return None;
      }
      connections := connections[id := handle];
      peers := peers[id := NewRecord(id, now)];
      match answer
      case Done(a) => blob := Some(AnswerBlob(localPeerId, id, a));
      case Threw(_) => blob := None;
    }

    /**
     * The effect of handleAnswer: without a pending offer, or with a blank id,
     * nothing happens; otherwise the peer is registered afresh and the pending
     * connection moves from the temporary id to the real one before the remote
     * description is set; only when that succeeds is the offer saved and the
     * pending offer cleared.
     */
    twostate predicate AnswerHandled(signal: Signal, now: int, remote: Outcome<()>)
      reads this`pendingOffer, this`connections, this`peers
    {
      if old(pendingOffer).None? || !ValidPeerId(signal.peerId) then
        connections == old(connections) && peers == old(peers) && pendingOffer == old(pendingOffer)
      else
        var pending := old(pendingOffer).value;
        var id := signal.peerId;
        var registered := old(peers)[id := NewRecord(id, now)];
        && connections == (old(connections) - {pending.peerId})[id := pending.connection]
        && (remote.Done? ==> peers == OfferSaved(registered, id, pending.offer, now) && pendingOffer.None?)
        && (remote.Threw? ==> peers == registered && pendingOffer == old(pendingOffer))
    }

    /** `remote` is what setRemoteDescription produced. */
    method HandleAnswer(signal: Signal, now: int, remote: Outcome<()>)
      modifies this`connections, this`peers, this`pendingOffer
      ensures AnswerHandled(signal, now, remote)
    {
      if pendingOffer.None? {
        return;
      }
      var id := signal.peerId;
      if !ValidPeerId(id) {
        return;
      }
      var pending := pendingOffer.value;
      peers := peers[id := NewRecord(id, now)];
      connections := (connections - {pending.peerId})[id := pending.connection];
      if remote.Done? {
        SavePeerOffer(id, pending.offer, now);
        pendingOffer := None;
      }
    }

    /** finalizePeerConnection; `localDescription` is that of the connection registered under the id. */
    method FinalizePeerConnection(tempId: string, now: int, localDescription: Option<Desc>)
      modifies this`peers
      ensures peers == Finalized(old(peers), tempId, now, connections, localDescription)
    {
      if !ValidPeerId(tempId) {
        return;
      }
      if tempId !in peers {
        peers := peers[tempId := NewRecord(tempId, now)];
      }
      if tempId in connections && localDescription.Some? {
        SavePeerOffer(tempId, localDescription.value, now);
      }
    }

    /**
     * processSignalData on the pasted text: the text is trimmed, decoded
     * (falling back to the raw text) and parsed, and an offer or an answer is
     * handed to its handler.
     */
    method ProcessSignalData(input: string, decode: string -> Option<string>, parse: string -> Option<Signal>,
                             handle: Handle, now: int, answer: Outcome<Desc>, remote: Outcome<()>)
      returns (d: Dispatch, blob: Option<AnswerBlob>)
      modifies this`connections, this`peers, this`pendingOffer
      ensures d == Classify(input, decode, parse)
      ensures d.ToOffer? ==> OfferHandled(d.signal, handle, now, answer, blob) && pendingOffer == old(pendingOffer)
      ensures d.ToAnswer? ==> AnswerHandled(d.signal, now, remote) && blob.None?
      ensures !d.ToOffer? && !d.ToAnswer? ==>
                connections == old(connections) && peers == old(peers) && pendingOffer == old(pendingOffer) && blob.None?
    {
      var text := Trim(input);
      if text == [] {
        return EmptyInput, None;
      }
      var decoded := if decode(text).Some? then decode(text).value else text;
      var parsed := parse(decoded);
      if parsed.None? {
        return Unparsable, None;
      }
      var s := parsed.value;
      if s.kind == "offer" {
        d := ToOffer(s);
        blob := HandleOffer(s, handle, now, answer);
      } else if s.kind == "answer" {
        d := ToAnswer(s);
        HandleAnswer(s, now, remote);
        blob := None;
      } else {
        d := UnknownKind(s.kind);
        blob := None;
      }
    }

    // ----- Reconnection -----

    /**
     * createReconnectionOffer: the old connection is closed and replaced, a
     * new channel is registered, and the new offer is saved if it could be made.
     */
    method CreateReconnectionOffer(peerId: string, handle: Handle, outcome: Outcome<Desc>, now: int)
      returns (failure: Option<RtcError>)
      modifies this`connections, this`dataChannels, this`closed, this`peers
      ensures closed == old(closed) + if peerId in old(connections) then [old(connections)[peerId]] else []
      ensures connections == old(connections)[peerId := handle]
      ensures dataChannels == old(dataChannels)[peerId := Channel(Connecting)]
      ensures peers == if outcome.Done? then OfferSaved(old(peers), peerId, outcome.value, now) else old(peers)
      ensures failure == if outcome.Threw? then Some(outcome.error) else None
    {
      if peerId in connections {
        closed := closed + [connections[peerId]];
        connections := connections - {peerId};
      }
      connections := connections[peerId := handle];
      SetupDataChannel(peerId, Channel(Connecting));
      match outcome
      case Done(offer) =>
        SavePeerOffer(peerId, offer, now);
        failure := None;
      case Threw(e) =>
        failure := Some(e);
    }

    /**
     * reconnectToPeer: past the guards the counter is raised before a new
     * offer is made; an SDP failure clears the saved offer, and any failure
     * schedules a retry while one more attempt stays below the cap. The counter
     * is the only part of Valid() it touches, and it stays within the cap.
     */
    method ReconnectToPeer(peerId: string, handle: Handle, outcome: Outcome<Desc>, now: int)
      requires Capped(reconnectAttempts, maxReconnectAttempts)
      modifies this`reconnectAttempts, this`connections, this`dataChannels, this`closed, this`peers, this`timers
      ensures Capped(reconnectAttempts, maxReconnectAttempts)
      ensures var before := old(Reconnecting(reconnectAttempts, peers, connections, dataChannels, closed, timers));
              Reconnecting(reconnectAttempts, peers, connections, dataChannels, closed, timers) ==
              if Admits(before, connectedPeers, peerId, maxReconnectAttempts)
              then TryOnce(before, peerId, handle, outcome, now, maxReconnectAttempts, reconnectTimeout)
              else before
    {
      if !ValidPeerId(peerId) {
        return;
      }
      if peerId !in peers || peerId in connectedPeers {
        return;
      }
      var attempts := if peerId in reconnectAttempts then reconnectAttempts[peerId] else 0;
      if attempts >= maxReconnectAttempts {
        return;
      }
      AttemptReconnect(peerId, attempts, handle, outcome, now);
    }

    /** The body of reconnectToPeer past its guards, with the counter `attempts` it read. */
    method AttemptReconnect(peerId: string, attempts: nat, handle: Handle, outcome: Outcome<Desc>, now: int)
      requires ValidPeerId(peerId) && peerId in peers && attempts == AttemptsOf(reconnectAttempts, peerId)
      modifies this`reconnectAttempts, this`connections, this`dataChannels, this`closed, this`peers, this`timers
      ensures Reconnecting(reconnectAttempts, peers, connections, dataChannels, closed, timers) ==
              TryOnce(old(Reconnecting(reconnectAttempts, peers, connections, dataChannels, closed, timers)),
                      peerId, handle, outcome, now, maxReconnectAttempts, reconnectTimeout)
    {
      ghost var before := Reconnecting(reconnectAttempts, peers, connections, dataChannels, closed, timers);
      reconnectAttempts := reconnectAttempts[peerId := attempts + 1];
      var failure := CreateReconnectionOffer(peerId, handle, outcome, now);
      if failure.Some? {
        OnReconnectFailure(peerId, failure.value, attempts);
      }
      TryOnceByParts(before, peerId, handle, outcome, now, maxReconnectAttempts, reconnectTimeout,
                     Reconnecting(reconnectAttempts, peers, connections, dataChannels, closed, timers));
    }

    /**
     * The catch block of reconnectToPeer after attempt number `attempts + 1`:
     * an SDP failure clears the saved offer, and a retry is scheduled while
     * one more attempt stays below the cap.
     */
    method OnReconnectFailure(peerId: string, e: RtcError, attempts: nat)
      modifies this`peers, this`timers
      ensures peers == if IsSdpError(e) then OfferCleared(old(peers), peerId) else old(peers)
      ensures timers == old(timers) + if RetryAfterFailure(attempts, maxReconnectAttempts)
                                      then [ReconnectLater(peerId, reconnectTimeout)] else []
    {
      if IsSdpError(e) {
        ClearSavedOffer(peerId);
      }
      if attempts + 1 < maxReconnectAttempts {
        timers := timers + [ReconnectLater(peerId, reconnectTimeout)];
      }
    }

    /**
     * autoReconnectOnStart: the valid known ids are visited in `order`; the
     * unconnected ones go through reconnectToPeer (`attempted` are those that
     * pass its guards), each with the connection `handleFor` gives and the
     * outcome `outcomeFor` gives. No reconnect is scheduled by a channel or
     * connection event during the sweep. Of Valid(), only the counter cap is
     * at stake, and it is kept.
     */
    method AutoReconnectOnStart(handleFor: string -> Handle, outcomeFor: string -> Outcome<Desc>, now: int)
      returns (ghost order: seq<string>, ghost attempted: seq<string>)
      requires Capped(reconnectAttempts, maxReconnectAttempts)
      modifies this`reconnectInProgress, this`reconnectAttempts, this`connections, this`dataChannels,
               this`closed, this`peers, this`timers
      ensures Capped(reconnectAttempts, maxReconnectAttempts)
      ensures Enumerates(order, ReconnectCandidates(old(peers)))
      ensures attempted == Attempted(order, old(reconnectAttempts), connectedPeers, maxReconnectAttempts)
      ensures Distinct(attempted) && forall id :: id in attempted ==> id in old(peers)
      ensures reconnectInProgress == (if order == [] then old(reconnectInProgress) else false)
      ensures Reconnecting(reconnectAttempts, peers, connections, dataChannels, closed, timers) ==
                TryAll(old(Reconnecting(reconnectAttempts, peers, connections, dataChannels, closed, timers)),
                       attempted, handleFor, outcomeFor, now, maxReconnectAttempts, reconnectTimeout)
    {
      ghost var start := Reconnecting(reconnectAttempts, peers, connections, dataChannels, closed, timers);
      var candidates := ReconnectCandidates(peers);
      order := [];
      attempted := [];
      if candidates == {} {
        return;
      }
      reconnectInProgress := true;
      var remaining := candidates;
      while remaining != {}
        modifies this`reconnectAttempts, this`connections, this`dataChannels, this`closed, this`peers, this`timers
        invariant Capped(reconnectAttempts, maxReconnectAttempts)
        invariant Visiting(order, remaining, candidates)
        invariant order != [] || remaining == candidates
        invariant attempted == Attempted(order, start.attempts, connectedPeers, maxReconnectAttempts)
        invariant Distinct(attempted) && forall id :: id in attempted ==> id in start.peers
        invariant Reconnecting(reconnectAttempts, peers, connections, dataChannels, closed, timers) ==
                    TryAll(start, attempted, handleFor, outcomeFor, now, maxReconnectAttempts, reconnectTimeout)
        decreases remaining
      {
        var id :| id in remaining;
        ghost var cur := Reconnecting(reconnectAttempts, peers, connections, dataChannels, closed, timers);
        if id !in connectedPeers {
          ReconnectToPeer(id, handleFor(id), outcomeFor(id), now);
        }
        SweepAttemptStep(start, order, id, connectedPeers, handleFor, outcomeFor, now, maxReconnectAttempts, reconnectTimeout,
                         cur, Reconnecting(reconnectAttempts, peers, connections, dataChannels, closed, timers));
        attempted := Attempted(order + [id], start.attempts, connectedPeers, maxReconnectAttempts);
        VisitStep(order, remaining, candidates, id);
        order := order + [id];
        remaining := remaining - {id};
      }
      VisitDone(order, candidates);
      reconnectInProgress := false;
    }

    // ----- File transfer (receiving side) -----

    /**
     * handleFileTransferStart: `new Array(totalChunks)` throws unless the count
     * is a valid array length, and then nothing is registered; otherwise a new
     * transfer with empty slots replaces any under the same id.
     */
    method HandleFileTransferStart(transferId: string, fileName: string, fileSize: int, fileType: string,
                                   totalChunks: int, peerId: string, now: int) returns (ok: bool)
      requires TransfersValid()
      modifies this`fileTransfers
      ensures TransfersValid()
      ensures ok <==> 0 <= totalChunks <= MaxArrayLength
      ensures !ok ==> fileTransfers == old(fileTransfers)
      ensures ok ==>
                && fileTransfers.Keys == old(fileTransfers).Keys + {transferId}
                && fresh(fileTransfers[transferId]) && fresh(fileTransfers[transferId].receivedChunks)
                && fileTransfers[transferId].View() == Start(totalChunks)
                && fileTransfers[transferId].fileName == fileName && fileTransfers[transferId].fileSize == fileSize
                && fileTransfers[transferId].fileType == fileType && fileTransfers[transferId].sender == peerId
                && fileTransfers[transferId].startTime == now
                && (forall other :: other in old(fileTransfers) && other != transferId ==>
                      fileTransfers[other] == old(fileTransfers)[other])
    {
      ok := 0 <= totalChunks <= MaxArrayLength;
      if !ok {
        return;
      }
      var t := new Transfer(transferId, fileName, fileSize, fileType, totalChunks, peerId, now);
      fileTransfers := fileTransfers[transferId := t];
    }

    /** handleFileTransferComplete drops the transfer, assembled or not. */
    method HandleFileTransferComplete(transferId: string)
      requires TransfersValid()
      modifies this`fileTransfers
      ensures TransfersValid()
      ensures fileTransfers == old(fileTransfers) - {transferId}
    {
      fileTransfers := fileTransfers - {transferId};
    }

    /**
     * handleFileTransferError drops the transfer the message names. The
     * assembly failure path passes the transfer id where a message is expected,
     * so the id it reads is undefined (None) and nothing is dropped.
     */
    method HandleFileTransferError(transferId: Option<string>)
      requires TransfersValid()
      modifies this`fileTransfers
      ensures TransfersValid()
      ensures fileTransfers == if transferId.Some? then old(fileTransfers) - {transferId.value} else old(fileTransfers)
    {
      if transferId.Some? {
        fileTransfers := fileTransfers - {transferId.value};
      }
    }

    /** The record assembleFileFromChunks stores for a transfer whose slots are `slots`. */
    function AssembledFile(t: Transfer, slots: seq<string>): FileRecord
    {
      FileRecord(t.transferId, t.fileName, t.fileType, t.fileSize, DataUrl(t.fileType, slots))
    }

    /**
     * assembleFileFromChunks: if every slot is filled the file is stored under
     * the transfer id, announced in the history under `msgId` and the transfer
     * is dropped; otherwise nothing changes.
     */
    method AssembleFileFromChunks(transferId: string, msgId: string, now: int)
      requires Valid() && TransfersValid()
      modifies this`fileTransfers, this`messages, this`lastSyncTime, this`files, this`peers, this`connections,
               this`dataChannels, this`connectedPeers, this`peerStates, this`localPeerId, this`sent
      ensures Valid() && TransfersValid()
      ensures sent == old(sent)
      ensures transferId !in old(fileTransfers) ==>
                fileTransfers == old(fileTransfers) && Chat() == old(Chat()) && Registered() == old(Registered())
      ensures transferId in old(fileTransfers) ==>
                var t := old(fileTransfers)[transferId];
                && (AllFilled(t.receivedChunks[..]) ==>
                      && fileTransfers == old(fileTransfers) - {transferId}
                      && Registered() == old(Registered()).(files := old(files)[transferId := AssembledFile(t, t.receivedChunks[..])])
                      && Chat() == Insert(old(Chat()), Message(msgId, FileRef(transferId), t.sender, now)))
                && (!AllFilled(t.receivedChunks[..]) ==>
                      fileTransfers == old(fileTransfers) && Chat() == old(Chat()) && Registered() == old(Registered()))
    {
      if transferId !in fileTransfers {
        return;
      }
      var t := fileTransfers[transferId];
      var joined := t.JoinChunks();
      if joined.None? {
        HandleFileTransferError(None);
        return;
      }
      var dataUrl := "data:" + t.fileType + ";base64," + joined.value;
      files := files[transferId := FileRecord(transferId, t.fileName, t.fileType, t.fileSize, dataUrl)];
      var _ := AddMessageToHistory(Message(msgId, FileRef(transferId), t.sender, now), now, None);
      fileTransfers := fileTransfers - {transferId};
    }

    /** The objects handleFileTransferChunk writes: the transfer and its slot array. */
    function TransferFrame(transferId: string): set<object>
      reads this`fileTransfers
    {
      if transferId in fileTransfers then {fileTransfers[transferId], fileTransfers[transferId].receivedChunks} else {}
    }

    /**
     * handleFileTransferChunk for chunk `c` of transfer `transferId`: the
     * transfer moves as Accept says, and when it is assembled the file and its
     * history message (under `msgId`) appear and the transfer is gone. A chunk
     * for an unknown transfer changes nothing; no other transfer changes.
     */
    method HandleFileTransferChunk(transferId: string, c: Chunk, msgId: string, now: int)
      requires Valid() && TransfersValid()
      modifies this`fileTransfers, this`messages, this`lastSyncTime, this`files, this`peers, this`connections,
               this`dataChannels, this`connectedPeers, this`peerStates, this`localPeerId, this`sent,
               TransferFrame(transferId)
      ensures Valid() && TransfersValid()
      ensures sent == old(sent)
      ensures transferId !in old(fileTransfers) ==>
                fileTransfers == old(fileTransfers) && Chat() == old(Chat()) && Registered() == old(Registered())
      ensures transferId in old(fileTransfers) ==>
                var t := old(fileTransfers)[transferId];
                var r := Accept(old(t.View()), c);
                && (r.Assembled? ==>
                      && fileTransfers == old(fileTransfers) - {transferId}
                      && Registered() == old(Registered()).(files := old(files)[transferId := AssembledFile(t, r.slots)])
                      && Chat() == Insert(old(Chat()), Message(msgId, FileRef(transferId), t.sender, now)))
                && (r.Receiving? ==>
                      && fileTransfers == old(fileTransfers) && t.View() == r
                      && Chat() == old(Chat()) && Registered() == old(Registered()))
      ensures forall id :: id in fileTransfers && id != transferId ==>
                fileTransfers[id].View() == old(fileTransfers[id].View())
    {
      if transferId !in fileTransfers {
        return;
      }
      var t := fileTransfers[transferId];
      var stored := t.StoreChunk(c);
      if stored && t.receivedCount == t.totalChunks {
        AssembleFileFromChunks(transferId, msgId, now);
      }
    }

    // ----- Sending a small file -----

    /**
     * sendSmallFile with the file already read into `fileData` and its
     * serialized message `serializedLength` characters long. A message over
     * the limit is refused before anything changes. Otherwise the file is
     * stored, announced in the history under `msgId`, and broadcast; because
     * broadcastToPeers returns nothing, no round counts as a success, so the
     * file goes out in three rounds (visiting the channels in `rounds`) and
     * the call ends in the send failure.
     */
    method SendSmallFile(fileData: FileRecord, serializedLength: nat, msgId: string, now: int)
      returns (result: SendResult, ghost rounds: seq<seq<string>>)
      requires Valid()
      modifies this`messages, this`lastSyncTime, this`files, this`peers, this`connections,
               this`dataChannels, this`connectedPeers, this`peerStates, this`localPeerId, this`sent
      ensures Valid()
      ensures result == TooLarge <==> serializedLength > SmallFileLimit
      ensures result == TooLarge ==> Chat() == old(Chat()) && Registered() == old(Registered()) && sent == old(sent)
      ensures result == SendFailed ==>
                && Registered() == old(Registered()).(files := old(files)[fileData.id := fileData])
                && Chat() == Insert(old(Chat()), Message(msgId, FileRef(fileData.id), localPeerId, now))
                && |rounds| == 3
                && (forall k :: 0 <= k < 3 ==> Enumerates(rounds[k], dataChannels.Keys))
                && sent == old(sent) + Rounds(rounds, dataChannels, FileMessage(fileData, localPeerId, now))
    {
      rounds := [];
      if serializedLength > SmallFileLimit {
        return TooLarge, rounds;
      }
      files := files[fileData.id := fileData];
      var _ := AddMessageToHistory(Message(msgId, FileRef(fileData.id), localPeerId, now), now, None);
      rounds := BroadcastTimes(FileMessage(fileData, localPeerId, now), 3);
      result := SendFailed;
    }

    /** The retry loop of sendSmallFile: the same broadcast, `times` times over. */
    method BroadcastTimes(p: Payload, times: nat) returns (ghost rounds: seq<seq<string>>)
      modifies this`sent
      ensures |rounds| == times
      ensures forall k :: 0 <= k < times ==> Enumerates(rounds[k], dataChannels.Keys)
      ensures sent == old(sent) + Rounds(rounds, dataChannels, p)
    {
      rounds := [];
      var attempts := 0;
      while attempts < times
        invariant 0 <= attempts <= times && |rounds| == attempts
        invariant forall k :: 0 <= k < attempts ==> Enumerates(rounds[k], dataChannels.Keys)
        invariant sent == old(sent) + Rounds(rounds, dataChannels, p)
      {
        ghost var before := sent;
        ghost var order := BroadcastToPeers(p);
        RoundsAdvance(old(sent), rounds, order, dataChannels, p, before);
        rounds := rounds + [order];
        attempts := attempts + 1;
      }
    }
  }
}
