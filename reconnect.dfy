/**
 * The per-peer reconnection counter (`reconnectAttempts`): every attempt that
 * passes the guards raises the peer's counter by one, an attempt is refused
 * once the counter reaches the cap, a failed attempt schedules a retry only
 * while one more attempt would stay below the cap, and a connection resets the
 * counter to 0.
 */
module Reconnect {
  import opened Common
  import opened Transport
  import opened Peers
  import opened Wire

  /** The split client's cap and retry delay in milliseconds (p2p-core.js:32-33). */
  const MaxAttempts: nat := 5
  const RetryDelay: nat := 500

  /** The legacy client's cap and retry delay in milliseconds (p2p-client.js:32-33). */
  const LegacyMaxAttempts: nat := 3
  const LegacyRetryDelay: nat := 5000

  type Counters = map<string, nat>

  /** `this.reconnectAttempts.get(peerId) || 0`. */
  function AttemptsOf(m: Counters, id: string): nat
  {
    if id in m then m[id] else 0
  }

  /** The counter guard of reconnectToPeer: an attempt is allowed while below the cap. */
  predicate BelowCap(m: Counters, id: string, max: nat)
  {
    AttemptsOf(m, id) < max
  }

  /** `reconnectAttempts.set(peerId, attempts + 1)` before an attempt. */
  function Bump(m: Counters, id: string): (r: Counters)
    ensures AttemptsOf(r, id) == AttemptsOf(m, id) + 1
    ensures forall other :: other != id ==> AttemptsOf(r, other) == AttemptsOf(m, other)
    ensures r.Keys == m.Keys + {id}
  {
    m[id := AttemptsOf(m, id) + 1]
  }

  /** After a failed attempt made with counter `before`, a retry is scheduled iff this holds. */
  predicate RetryAfterFailure(before: nat, max: nat)
  {
    before + 1 < max
  }

  /** What a counter goes through: an attempt that passed the other guards, or a connection. */
  datatype Event = Attempt(id: string) | Connect(id: string)

  function Step(m: Counters, e: Event, max: nat): Counters
  {
    match e
    case Attempt(id) => if BelowCap(m, id, max) then Bump(m, id) else m
    case Connect(id) => m[id := 0]
  }

  function Run(m: Counters, events: seq<Event>, max: nat): Counters
    decreases |events|
  {
    if events == [] then m else Run(Step(m, events[0], max), events[1..], max)
  }

  /** Every counter is at most the cap. */
  predicate Capped(m: Counters, max: nat)
  {
    forall id :: id in m ==> m[id] <= max
  }

  /** Starting from counters within the cap, no sequence of attempts and connections exceeds it. */
  lemma {:induction false} RunStaysCapped(m: Counters, events: seq<Event>, max: nat)
    requires Capped(m, max)
    ensures Capped(Run(m, events, max), max)
    decreases |events|
  {
    if events != [] {
      var next := Step(m, events[0], max);
      assert Capped(next, max) by {
        forall id | id in next ensures next[id] <= max {
          assert next[id] == AttemptsOf(next, id);
        }
      }
      RunStaysCapped(next, events[1..], max);
    }
  }

  /** The number of attempts for `id` in `events` that go through the counter guard. */
  function Tries(m: Counters, events: seq<Event>, id: string, max: nat): nat
    decreases |events|
  {
    if events == [] then 0
    else
      (if events[0] == Attempt(id) && BelowCap(m, id, max) then 1 else 0)
      + Tries(Step(m, events[0], max), events[1..], id, max)
  }

  predicate NoConnect(events: seq<Event>, id: string)
  {
    forall k :: 0 <= k < |events| ==> events[k] != Connect(id)
  }

  /**
   * Between two connections a peer gets at most `max` attempts in all: every
   * attempt that goes through is counted, and the count stops at the cap.
   */
  lemma {:induction false} TriesBounded(m: Counters, events: seq<Event>, id: string, max: nat)
    requires NoConnect(events, id) && AttemptsOf(m, id) <= max
    ensures AttemptsOf(Run(m, events, max), id) == AttemptsOf(m, id) + Tries(m, events, id, max)
    ensures Tries(m, events, id, max) <= max - AttemptsOf(m, id)
    decreases |events|
  {
    if events != [] {
      var next := Step(m, events[0], max);
      assert NoConnect(events[1..], id) by {
        forall k | 0 <= k < |events| - 1 ensures events[1..][k] != Connect(id) {
          assert events[1..][k] == events[k + 1];
        }
      }
      assert events[0] != Connect(id);
      TriesBounded(next, events[1..], id, max);
    }
  }

  /**
   * The peers the startup sweep actually attempts, in visiting order: those not
   * connected whose counter is below the cap (the others are returned from at
   * once).
   */
  function Attempted(order: seq<string>, m: Counters, connected: set<string>, max: nat): (r: seq<string>)
    ensures forall id :: id in r <==> id in order && id !in connected && BelowCap(m, id, max)
  {
    if order == [] then []
    else
      var last := order[|order| - 1];
      Attempted(order[..|order| - 1], m, connected, max)
      + (if last !in connected && BelowCap(m, last, max) then [last] else [])
  }

  /** A peer's record after one attempt: the new offer is saved, or an SDP failure clears the old one. */
  function AfterAttempt(p: PeerRecord, outcome: Outcome<Desc>, now: int): (r: PeerRecord)
    ensures outcome.Done? ==> r == WithOffer(Some(p), p.id, outcome.value, now)
    ensures outcome.Threw? && IsSdpError(outcome.error) ==> r == WithoutOffer(p)
    ensures outcome.Threw? && !IsSdpError(outcome.error) ==> r == p
    ensures r.id == p.id && r.lastAnswer == p.lastAnswer
    ensures outcome.Threw? ==> r.(lastOffer := p.lastOffer) == p
  {
    match outcome
    case Done(offer) => WithOffer(Some(p), p.id, offer, now)
    case Threw(e) => if IsSdpError(e) then WithoutOffer(p) else p
  }

  /** The retries scheduled by failed attempts on `ids`, whose counters stood at `m` beforehand. */
  function Retries(ids: seq<string>, outcomeFor: string -> Outcome<Desc>, m: Counters, max: nat, delay: nat): (r: seq<Timer>)
    ensures forall t :: t in r <==>
              t.delay == delay && t.peerId in ids && outcomeFor(t.peerId).Threw? && RetryAfterFailure(AttemptsOf(m, t.peerId), max)
  {
    if ids == [] then []
    else
      var last := ids[|ids| - 1];
      Retries(ids[..|ids| - 1], outcomeFor, m, max, delay)
      + (if outcomeFor(last).Threw? && RetryAfterFailure(AttemptsOf(m, last), max) then [ReconnectLater(last, delay)] else [])
  }

  /** The connections closed when new ones replace them for `ids`, in order. */
  function Displaced(ids: seq<string>, connections: map<string, Handle>): (r: seq<Handle>)
    ensures forall h :: h in r <==> exists id :: id in ids && id in connections && connections[id] == h
  {
    if ids == [] then []
    else
      var last := ids[|ids| - 1];
      Displaced(ids[..|ids| - 1], connections) + (if last in connections then [connections[last]] else [])
  }

  /** `ids` in order, each given the value `valueFor` assigns it. */
  function Overwrite<V>(m: map<string, V>, ids: seq<string>, valueFor: string -> V): (r: map<string, V>)
    ensures forall id :: id in r <==> id in m || id in ids
    ensures forall id :: id in ids ==> r[id] == valueFor(id)
    ensures forall id :: id !in ids && id in m ==> r[id] == m[id]
  {
    if ids == [] then m
    else Overwrite(m, ids[..|ids| - 1], valueFor)[ids[|ids| - 1] := valueFor(ids[|ids| - 1])]
  }

  /** The part of the client a reconnection attempt changes, with its `closed` and `timers` logs. */
  datatype Reconnecting = Reconnecting(
    attempts: Counters,
    peers: map<string, PeerRecord>,
    connections: map<string, Handle>,
    dataChannels: map<string, Channel>,
    closed: seq<Handle>,
    timers: seq<Timer>)

  /**
   * One attempt past the guards of reconnectToPeer: the counter is raised, the
   * old connection (if any) is closed and replaced by `handle` with a new
   * connecting channel, the record is updated by the outcome, and a failure
   * schedules a retry while one more attempt stays below the cap.
   */
  function TryOnce(s: Reconnecting, id: string, handle: Handle, outcome: Outcome<Desc>, now: int,
                   max: nat, delay: nat): (r: Reconnecting)
    requires id in s.peers
    ensures r.peers.Keys == s.peers.Keys
  {
    Reconnecting(
      Bump(s.attempts, id),
      s.peers[id := AfterAttempt(s.peers[id], outcome, now)],
      s.connections[id := handle],
      s.dataChannels[id := Channel(Connecting)],
      s.closed + (if id in s.connections then [s.connections[id]] else []),
      s.timers + (if outcome.Threw? && RetryAfterFailure(AttemptsOf(s.attempts, id), max)
                  then [ReconnectLater(id, delay)] else []))
  }

  /**
   * The pieces of one attempt as reconnectToPeer performs them (raise the
   * counter, replace the connection, save the offer or handle the failure)
   * add up to TryOnce.
   */
  lemma TryOnceByParts(s: Reconnecting, id: string, handle: Handle, outcome: Outcome<Desc>, now: int,
                       max: nat, delay: nat, r: Reconnecting)
    requires id in s.peers && ValidPeerId(id)
    requires r.attempts == s.attempts[id := AttemptsOf(s.attempts, id) + 1]
    requires r.connections == s.connections[id := handle]
    requires r.dataChannels == s.dataChannels[id := Channel(Connecting)]
    requires r.closed == s.closed + if id in s.connections then [s.connections[id]] else []
    requires outcome.Done? ==> r.peers == OfferSaved(s.peers, id, outcome.value, now) && r.timers == s.timers
    requires outcome.Threw? ==>
               && r.peers == (if IsSdpError(outcome.error) then OfferCleared(s.peers, id) else s.peers)
               && r.timers == s.timers + if RetryAfterFailure(AttemptsOf(s.attempts, id), max)
                                         then [ReconnectLater(id, delay)] else []
    ensures r == TryOnce(s, id, handle, outcome, now, max, delay)
  {
    var t := TryOnce(s, id, handle, outcome, now, max, delay);
    assert r.peers == t.peers;
  }

  /** The attempts on `ids`, in order, each with its own connection and outcome. */
  function TryAll(s: Reconnecting, ids: seq<string>, handleFor: string -> Handle,
                      outcomeFor: string -> Outcome<Desc>, now: int, max: nat, delay: nat): (r: Reconnecting)
    requires forall id :: id in ids ==> id in s.peers
    ensures r.peers.Keys == s.peers.Keys
  {
    if ids == [] then s
    else
      var last := ids[|ids| - 1];
      TryOnce(TryAll(s, ids[..|ids| - 1], handleFor, outcomeFor, now, max, delay),
              last, handleFor(last), outcomeFor(last), now, max, delay)
  }

  /** One more attempt at the end of a sweep. */
  lemma TryAllStep(s: Reconnecting, ids: seq<string>, id: string, handleFor: string -> Handle,
                   outcomeFor: string -> Outcome<Desc>, now: int, max: nat, delay: nat)
    requires forall k :: k in ids ==> k in s.peers
    requires id in s.peers
    ensures TryAll(s, ids + [id], handleFor, outcomeFor, now, max, delay) ==
            TryOnce(TryAll(s, ids, handleFor, outcomeFor, now, max, delay), id, handleFor(id), outcomeFor(id), now, max, delay)
  {
    assert (ids + [id])[..|ids|] == ids;
  }

  /** One more visited peer is attempted iff it is not connected and below the cap. */
  lemma AttemptedStep(order: seq<string>, id: string, m: Counters, connected: set<string>, max: nat)
    ensures Attempted(order + [id], m, connected, max) ==
            Attempted(order, m, connected, max) + (if id !in connected && BelowCap(m, id, max) then [id] else [])
  {
    assert (order + [id])[..|order|] == order;
  }

  /** reconnectToPeer's guards on the client's state: a valid, known, unconnected peer below the cap. */
  predicate Admits(cur: Reconnecting, connected: set<string>, id: string, max: nat)
  {
    ValidPeerId(id) && id in cur.peers && id !in connected && BelowCap(cur.attempts, id, max)
  }

  /**
   * One more peer visited by the startup sweep: if the state so far is the
   * attempts on the peers attempted along `order`, and the visit makes an
   * attempt exactly when reconnectToPeer's guards let it, the state after the
   * visit is the attempts on the peers attempted along `order + [id]`.
   */
  lemma SweepAttemptStep(start: Reconnecting, order: seq<string>, id: string, connected: set<string>,
                         handleFor: string -> Handle, outcomeFor: string -> Outcome<Desc>, now: int, max: nat, delay: nat,
                         cur: Reconnecting, next: Reconnecting)
    requires Distinct(order) && id !in order
    requires forall k :: k in order ==> k in start.peers
    requires ValidPeerId(id) && id in start.peers
    requires var attempted := Attempted(order, start.attempts, connected, max);
             Distinct(attempted) && cur == TryAll(start, attempted, handleFor, outcomeFor, now, max, delay)
    requires next == if Admits(cur, connected, id, max) then TryOnce(cur, id, handleFor(id), outcomeFor(id), now, max, delay) else cur
    ensures var attempted := Attempted(order + [id], start.attempts, connected, max);
            && Distinct(attempted) && (forall k :: k in attempted ==> k in start.peers)
            && next == TryAll(start, attempted, handleFor, outcomeFor, now, max, delay)
  {
    var attempted := Attempted(order, start.attempts, connected, max);
    var cond := id !in connected && BelowCap(start.attempts, id, max);
    assert id !in attempted;
    TryAllCounts(start, attempted, handleFor, outcomeFor, now, max, delay, id);
    assert Admits(cur, connected, id, max) == cond;
    AttemptedStep(order, id, start.attempts, connected, max);
    DistinctAppend(order, id);
    AttemptedDistinct(order + [id], start.attempts, connected, max);
    if cond {
      assert Attempted(order + [id], start.attempts, connected, max) == attempted + [id];
      TryAllStep(start, attempted, id, handleFor, outcomeFor, now, max, delay);
      assert next == TryOnce(cur, id, handleFor(id), outcomeFor(id), now, max, delay);
    } else {
      assert Attempted(order + [id], start.attempts, connected, max) == attempted;
      assert next == cur;
    }
  }

  /** Appending an element not yet present keeps a sequence free of repetitions. */
  lemma DistinctAppend(s: seq<string>, x: string)
    requires Distinct(s) && x !in s
    ensures Distinct(s + [x])
  {
    var t := s + [x];
    forall i, j | 0 <= i < j < |t| ensures t[i] != t[j] {
      if j == |s| {
        assert t[i] in s;
      }
    }
  }

  /** Each attempted peer's counter rose by one; the others did not change. */
  lemma {:induction false} TryAllCounts(s: Reconnecting, ids: seq<string>, handleFor: string -> Handle,
                                        outcomeFor: string -> Outcome<Desc>, now: int, max: nat, delay: nat, id: string)
    requires forall k :: k in ids ==> k in s.peers
    requires Distinct(ids)
    ensures AttemptsOf(TryAll(s, ids, handleFor, outcomeFor, now, max, delay).attempts, id)
            == AttemptsOf(s.attempts, id) + (if id in ids then 1 else 0)
    decreases |ids|
  {
    if ids != [] {
      var init := ids[..|ids| - 1];
      DropLast(ids);
      TryAllCounts(s, init, handleFor, outcomeFor, now, max, delay, id);
      TryAllCounts(s, init, handleFor, outcomeFor, now, max, delay, ids[|ids| - 1]);
    }
  }

  /** Each attempted peer's record was updated by its own outcome; the others did not change. */
  lemma {:induction false} TryAllRecords(s: Reconnecting, ids: seq<string>, handleFor: string -> Handle,
                                         outcomeFor: string -> Outcome<Desc>, now: int, max: nat, delay: nat)
    requires forall id :: id in ids ==> id in s.peers
    requires Distinct(ids)
    ensures var r := TryAll(s, ids, handleFor, outcomeFor, now, max, delay);
            forall id :: id in r.peers ==>
              r.peers[id] == if id in ids then AfterAttempt(s.peers[id], outcomeFor(id), now) else s.peers[id]
    decreases |ids|
  {
    if ids != [] {
      var init := ids[..|ids| - 1];
      DropLast(ids);
      TryAllRecords(s, init, handleFor, outcomeFor, now, max, delay);
    }
  }

  /** Each attempted peer got its own connection and a connecting channel; the others kept theirs. */
  lemma {:induction false} TryAllLinks(s: Reconnecting, ids: seq<string>, handleFor: string -> Handle,
                                       outcomeFor: string -> Outcome<Desc>, now: int, max: nat, delay: nat)
    requires forall id :: id in ids ==> id in s.peers
    ensures var r := TryAll(s, ids, handleFor, outcomeFor, now, max, delay);
            && r.connections == Overwrite(s.connections, ids, handleFor)
            && r.dataChannels == Overwrite(s.dataChannels, ids, _ => Channel(Connecting))
    decreases |ids|
  {
    if ids != [] {
      TryAllLinks(s, ids[..|ids| - 1], handleFor, outcomeFor, now, max, delay);
    }
  }

  /** The connections replaced were closed in order, and the failures below the cap scheduled retries. */
  lemma {:induction false} TryAllLogs(s: Reconnecting, ids: seq<string>, handleFor: string -> Handle,
                                      outcomeFor: string -> Outcome<Desc>, now: int, max: nat, delay: nat)
    requires forall id :: id in ids ==> id in s.peers
    requires Distinct(ids)
    ensures var r := TryAll(s, ids, handleFor, outcomeFor, now, max, delay);
            && r.closed == s.closed + Displaced(ids, s.connections)
            && r.timers == s.timers + Retries(ids, outcomeFor, s.attempts, max, delay)
    decreases |ids|
  {
    if ids != [] {
      var init := ids[..|ids| - 1];
      var last := ids[|ids| - 1];
      DropLast(ids);
      TryAllLogs(s, init, handleFor, outcomeFor, now, max, delay);
      TryAllLinks(s, init, handleFor, outcomeFor, now, max, delay);
      TryAllCounts(s, init, handleFor, outcomeFor, now, max, delay, last);
      var closing := if last in s.connections then [s.connections[last]] else [];
      var retry := if outcomeFor(last).Threw? && RetryAfterFailure(AttemptsOf(s.attempts, last), max)
                   then [ReconnectLater(last, delay)] else [];
      AppendAssoc(s.closed, Displaced(init, s.connections), closing);
      AppendAssoc(s.timers, Retries(init, outcomeFor, s.attempts, max, delay), retry);
    }
  }

  /** Dropping the last element of a repetition-free sequence leaves one without it. */
  lemma DropLast(ids: seq<string>)
    requires ids != []
    requires Distinct(ids)
    ensures var init := ids[..|ids| - 1];
            && ids[|ids| - 1] !in init
            && (forall id :: id in ids <==> id in init || id == ids[|ids| - 1])
            && Distinct(init)
  {
    var init := ids[..|ids| - 1];
    forall k | 0 <= k < |init| ensures init[k] != ids[|ids| - 1] {
      assert init[k] == ids[k];
    }
  }

  /** The peers attempted in a sweep along a repetition-free order are themselves without repetition. */
  lemma {:induction false} AttemptedDistinct(order: seq<string>, m: Counters, connected: set<string>, max: nat)
    requires Distinct(order)
    ensures Distinct(Attempted(order, m, connected, max))
    decreases |order|
  {
    if order != [] {
      var init := order[..|order| - 1];
      var last := order[|order| - 1];
      DropLast(order);
      AttemptedDistinct(init, m, connected, max);
      var before := Attempted(init, m, connected, max);
      var r := Attempted(order, m, connected, max);
      assert r == before + (if last !in connected && BelowCap(m, last, max) then [last] else []);
      forall i, j | 0 <= i < j < |r| ensures r[i] != r[j] {
        assert r[i] == before[i];
        if j == |before| {
          assert r[j] == last;
          assert before[i] in init;
          assert last !in init;
        } else {
          assert r[j] == before[j];
        }
      }
    }
  }
}
