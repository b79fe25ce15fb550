/**
 * The metadata the client keeps per known peer (the values of the `peers` map)
 * and the record updates of savePeerOffer, clearSavedOffer and the handshake.
 *
 * A record is a JavaScript object whose fields may be missing: a missing
 * `lastOffer` or `lastAnswer` is None, and a missing `connectionCount` is 0 (the
 * source only tests it for truthiness).
 */
module Peers {
  import opened Common
  import opened Transport

  datatype PeerRecord = PeerRecord(
    id: string,
    lastSeen: int,
    connectionCount: int,
    lastOffer: Option<Desc>,
    lastAnswer: Option<Desc>)

  /** `{ id, lastSeen: Date.now(), connectionCount: 1 }`, as the handshake registers a peer. */
  function NewRecord(id: string, now: int): (r: PeerRecord)
    ensures r.id == id && r.lastSeen == now && r.connectionCount == 1
    ensures r.lastOffer.None? && r.lastAnswer.None?
  {
    PeerRecord(id, now, 1, None, None)
  }

  /**
   * savePeerOffer (split client) on the stored record, if any: the offer and
   * the time are set, a falsy connectionCount becomes 1, and everything else of
   * an existing record is kept; without a record it starts from `{ id }`.
   */
  function WithOffer(existing: Option<PeerRecord>, id: string, offer: Desc, now: int): (r: PeerRecord)
    ensures r.lastOffer == Some(offer) && r.lastSeen == now && r.connectionCount != 0
    ensures existing.Some? ==> r.id == existing.value.id && r.lastAnswer == existing.value.lastAnswer
    ensures existing.Some? && existing.value.connectionCount != 0 ==>
              r.connectionCount == existing.value.connectionCount
    ensures existing.Some? && existing.value.connectionCount == 0 ==> r.connectionCount == 1
    ensures existing.None? ==> r == PeerRecord(id, now, 1, Some(offer), None)
  {
    var base := if existing.Some? then existing.value else PeerRecord(id, 0, 0, None, None);
    base.(lastOffer := Some(offer), lastSeen := now,
          connectionCount := if base.connectionCount != 0 then base.connectionCount else 1)
  }

  /**
   * savePeerOffer of the legacy client: the offer and the time are set and
   * nothing else is touched (a fresh record has no connectionCount).
   */
  function LegacyWithOffer(existing: Option<PeerRecord>, id: string, offer: Desc, now: int): (r: PeerRecord)
    ensures r.lastOffer == Some(offer) && r.lastSeen == now
    ensures existing.Some? ==> r.(lastOffer := existing.value.lastOffer, lastSeen := existing.value.lastSeen) == existing.value
    ensures existing.None? ==> r == PeerRecord(id, now, 0, Some(offer), None)
  {
    var base := if existing.Some? then existing.value else PeerRecord(id, 0, 0, None, None);
    base.(lastOffer := Some(offer), lastSeen := now)
  }

  /** clearSavedOffer (`delete peerData.lastOffer`): only the saved offer goes. */
  function WithoutOffer(p: PeerRecord): (r: PeerRecord)
    ensures r.lastOffer.None?
    ensures r.(lastOffer := p.lastOffer) == p
  {
    p.(lastOffer := None)
  }

  /** `this.peers.get(id)`. */
  function Lookup(peers: map<string, PeerRecord>, id: string): Option<PeerRecord>
  {
    if id in peers then Some(peers[id]) else None
  }

  /**
   * savePeerOffer (split client) on the peer map: an id that is empty or all
   * white space is ignored; otherwise only that id's record is written.
   */
  function OfferSaved(peers: map<string, PeerRecord>, id: string, offer: Desc, now: int): (r: map<string, PeerRecord>)
    ensures !ValidPeerId(id) ==> r == peers
    ensures ValidPeerId(id) ==> r.Keys == peers.Keys + {id} && r[id] == WithOffer(Lookup(peers, id), id, offer, now)
    ensures forall other :: other != id && other in peers ==> other in r && r[other] == peers[other]
  {
    if ValidPeerId(id) then peers[id := WithOffer(Lookup(peers, id), id, offer, now)] else peers
  }

  /** savePeerOffer of the legacy client on the peer map: no id check, only that id's record is written. */
  function LegacyOfferSaved(peers: map<string, PeerRecord>, id: string, offer: Desc, now: int): (r: map<string, PeerRecord>)
    ensures r.Keys == peers.Keys + {id} && r[id] == LegacyWithOffer(Lookup(peers, id), id, offer, now)
    ensures forall other :: other != id && other in peers ==> r[other] == peers[other]
  {
    peers[id := LegacyWithOffer(Lookup(peers, id), id, offer, now)]
  }

  /** clearSavedOffer on the peer map: an unknown id changes nothing; no other record changes. */
  function OfferCleared(peers: map<string, PeerRecord>, id: string): (r: map<string, PeerRecord>)
    ensures r.Keys == peers.Keys
    ensures id in peers ==> r[id] == WithoutOffer(peers[id])
    ensures forall other :: other != id && other in peers ==> r[other] == peers[other]
  {
    if id in peers then peers[id := WithoutOffer(peers[id])] else peers
  }
}
