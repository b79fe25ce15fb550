/**
 * The periodic liveness sweep (checkPeersStatus): for every registered data
 * channel whose peer id is valid, the peer counts as connected exactly when the
 * channel is open. A peer that comes up is sent a sync request; a peer that goes
 * down gets a reconnect scheduled unless the startup sweep is running.
 */
module Liveness {
  import opened Common
  import opened Transport
  import opened Wire

  /** The sweep looks at the channel entry of `id` (it skips invalid ids). */
  predicate Checked(channels: map<string, Channel>, id: string)
  {
    id in channels && ValidPeerId(id)
  }

  /** The entry of `id` is open but the peer is not yet marked connected. */
  predicate ComesUp(connected: set<string>, channels: map<string, Channel>, id: string)
  {
    Checked(channels, id) && IsOpen(channels, id) && id !in connected
  }

  /** The peer is marked connected but its channel is not open. */
  predicate GoesDown(connected: set<string>, channels: map<string, Channel>, id: string)
  {
    Checked(channels, id) && !IsOpen(channels, id) && id in connected
  }

  /**
   * connectedPeers after a whole sweep: for each checked channel the peer is
   * connected iff the channel is open; other peers keep their membership.
   */
  function Reconciled(connected: set<string>, channels: map<string, Channel>): (r: set<string>)
    ensures forall id :: Checked(channels, id) ==> (id in r <==> IsOpen(channels, id))
    ensures forall id :: !Checked(channels, id) ==> (id in r <==> id in connected)
  {
    set id | id in connected + channels.Keys && (if Checked(channels, id) then IsOpen(channels, id) else id in connected)
  }

  /** connectedPeers after the sweep has visited the channel entries in `order`, one flip at a time. */
  function Swept(connected: set<string>, channels: map<string, Channel>, order: seq<string>): (r: set<string>)
    ensures forall id :: id in r <==> if id in order && Checked(channels, id) then IsOpen(channels, id) else id in connected
  {
    if order == [] then connected
    else
      var last := order[|order| - 1];
      var before := Swept(connected, channels, order[..|order| - 1]);
      if !Checked(channels, last) then before
      else if IsOpen(channels, last) then before + {last}
      else before - {last}
  }

  /** A sweep that visits every channel entry reconciles the connected set. */
  lemma SweptAll(connected: set<string>, channels: map<string, Channel>, order: seq<string>)
    requires Enumerates(order, channels.Keys)
    ensures Swept(connected, channels, order) == Reconciled(connected, channels)
  {
    var r := Swept(connected, channels, order);
    forall id ensures id in r <==> id in Reconciled(connected, channels) {
      if Checked(channels, id) {
        assert id in order;
      }
    }
  }

  /** The sync requests of a sweep visiting the channel entries in `order`: one per peer that comes up. */
  function SyncSends(order: seq<string>, connected: set<string>, channels: map<string, Channel>, request: Payload): (r: seq<Outgoing>)
    ensures forall o :: o in r <==> o.payload == request && o.to in order && ComesUp(connected, channels, o.to)
  {
    if order == [] then []
    else
      var last := order[|order| - 1];
      SyncSends(order[..|order| - 1], connected, channels, request)
      + (if ComesUp(connected, channels, last) then [Outgoing(last, request)] else [])
  }

  /** The reconnects a sweep schedules: one per peer that goes down, none while the startup sweep runs. */
  function RetryTimers(order: seq<string>, connected: set<string>, channels: map<string, Channel>, inProgress: bool, delay: nat): (r: seq<Timer>)
    ensures inProgress ==> r == []
    ensures forall t :: t in r <==> !inProgress && t.delay == delay && t.peerId in order && GoesDown(connected, channels, t.peerId)
  {
    if order == [] then []
    else
      var last := order[|order| - 1];
      RetryTimers(order[..|order| - 1], connected, channels, inProgress, delay)
      + (if !inProgress && GoesDown(connected, channels, last) then [ReconnectLater(last, delay)] else [])
  }

  /**
   * A second sweep over unchanged channels changes nothing: the connected set
   * is already reconciled, nobody comes up and nobody goes down.
   */
  lemma SecondSweepIsQuiet(order: seq<string>, connected: set<string>, channels: map<string, Channel>,
                           request: Payload, inProgress: bool, delay: nat)
    ensures var once := Reconciled(connected, channels);
            && Reconciled(once, channels) == once
            && SyncSends(order, once, channels, request) == []
            && RetryTimers(order, once, channels, inProgress, delay) == []
  {
    var once := Reconciled(connected, channels);
    var twice := Reconciled(once, channels);
    forall id ensures id in twice <==> id in once {
      if Checked(channels, id) {
        assert id in twice <==> IsOpen(channels, id);
      }
    }
    NothingFlips(order, once, channels, request, inProgress, delay);
  }

  lemma {:induction false} NothingFlips(order: seq<string>, once: set<string>, channels: map<string, Channel>,
                                        request: Payload, inProgress: bool, delay: nat)
    requires forall id :: Checked(channels, id) ==> (id in once <==> IsOpen(channels, id))
    ensures SyncSends(order, once, channels, request) == []
    ensures RetryTimers(order, once, channels, inProgress, delay) == []
    decreases |order|
  {
    if order != [] {
      NothingFlips(order[..|order| - 1], once, channels, request, inProgress, delay);
    }
  }

  /**
   * One more channel entry visited: if the state before the visit is the sweep
   * over `order` and the visit does what the loop body does, the state after
   * it is the sweep over `order + [id]`.
   */
  lemma SweepAdvance(connected: set<string>, channels: map<string, Channel>, order: seq<string>, id: string,
                     request: Payload, inProgress: bool, delay: nat,
                     sent0: seq<Outgoing>, timers0: seq<Timer>,
                     c: set<string>, s: seq<Outgoing>, t: seq<Timer>,
                     c': set<string>, s': seq<Outgoing>, t': seq<Timer>)
    requires id !in order
    requires c == Swept(connected, channels, order)
    requires s == sent0 + SyncSends(order, connected, channels, request)
    requires t == timers0 + RetryTimers(order, connected, channels, inProgress, delay)
    requires c' == if !Checked(channels, id) then c else if IsOpen(channels, id) then c + {id} else c - {id}
    requires s' == s + (if ComesUp(c, channels, id) then [Outgoing(id, request)] else [])
    requires t' == t + (if !inProgress && GoesDown(c, channels, id) then [ReconnectLater(id, delay)] else [])
    ensures c' == Swept(connected, channels, order + [id])
    ensures s' == sent0 + SyncSends(order + [id], connected, channels, request)
    ensures t' == timers0 + RetryTimers(order + [id], connected, channels, inProgress, delay)
  {
    var next := order + [id];
    assert next[..|order|] == order && next[|next| - 1] == id;
    assert id in c <==> id in connected;
    var up := if ComesUp(connected, channels, id) then [Outgoing(id, request)] else [];
    var down := if !inProgress && GoesDown(connected, channels, id) then [ReconnectLater(id, delay)] else [];
    assert SyncSends(next, connected, channels, request) == SyncSends(order, connected, channels, request) + up;
    assert RetryTimers(next, connected, channels, inProgress, delay) == RetryTimers(order, connected, channels, inProgress, delay) + down;
    AppendAssoc(sent0, SyncSends(order, connected, channels, request), up);
    AppendAssoc(timers0, RetryTimers(order, connected, channels, inProgress, delay), down);
  }
}
