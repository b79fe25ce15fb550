/**
 * What travels between peers and what the user pastes: the JSON messages the
 * client sends on data channels, the parsed form of the messages it receives,
 * the signalling blob of the manual offer/answer exchange, and the timers it
 * schedules. JSON and Base64 themselves are not modelled: a parsed message is
 * an input, and decoding is a partial function supplied by the caller.
 */
module Wire {
  import opened Common
  import opened History
  import opened Transport

  /** The messages the client writes with channel.send(JSON.stringify(...)). */
  datatype Payload =
    | SyncRequest(sender: string, timestamp: int, lastSync: int, messageCount: nat, fileCount: nat)
    | SyncResponse(sender: string, timestamp: int, messages: seq<Message>, files: seq<FileRecord>)
    | FileMessage(fileData: FileRecord, sender: string, timestamp: int)
    | KillCommand(sender: string, timestamp: int)

  /** One channel.send call: the peer whose channel carried it, and what was sent. */
  datatype Outgoing = Outgoing(to: string, payload: Payload)

  /** A setTimeout the client scheduled: reconnectToPeer(peerId) after `delay` ms. */
  datatype Timer = ReconnectLater(peerId: string, delay: nat)

  /** `order` lists every element of `keys` exactly once (one iteration of a Map or Set). */
  predicate Enumerates(order: seq<string>, keys: set<string>)
  {
    && (forall k :: k in order ==> k in keys)
    && (forall k :: k in keys ==> k in order)
    && (forall i, j :: 0 <= i < j < |order| ==> order[i] != order[j])
  }

  /**
   * Part way through an iteration of `keys`: `order` lists the keys visited so
   * far, each once, and `remaining` holds the others.
   */
  predicate Visiting(order: seq<string>, remaining: set<string>, keys: set<string>)
  {
    && remaining <= keys
    && (forall k :: k in order ==> k in keys && k !in remaining)
    && (forall k :: k in keys ==> k in order || k in remaining)
    && (forall i, j :: 0 <= i < j < |order| ==> order[i] != order[j])
  }

  /** Visiting one more key keeps the iteration well formed. */
  lemma VisitStep(order: seq<string>, remaining: set<string>, keys: set<string>, id: string)
    requires Visiting(order, remaining, keys) && id in remaining
    ensures Visiting(order + [id], remaining - {id}, keys)
    ensures (order + [id])[..|order|] == order
  {
    var next := order + [id];
    forall i, j | 0 <= i < j < |next| ensures next[i] != next[j] {
      if j == |order| {
        assert next[i] in order;
      }
    }
  }

  /** A finished iteration lists every key once. */
  lemma VisitDone(order: seq<string>, keys: set<string>)
    requires Visiting(order, {}, keys)
    ensures Enumerates(order, keys)
  {
  }

  /** broadcastToPeers: one send per open channel, visited in `order`. */
  function Broadcast(order: seq<string>, channels: map<string, Channel>, p: Payload): (r: seq<Outgoing>)
    ensures |r| <= |order|
    ensures forall o :: o in r <==> o.payload == p && o.to in order && IsOpen(channels, o.to)
  {
    if order == [] then []
    else
      var last := order[|order| - 1];
      Broadcast(order[..|order| - 1], channels, p) + (if IsOpen(channels, last) then [Outgoing(last, p)] else [])
  }

  /** One more channel visited: the log grows by that channel's send, if it is open. */
  lemma BroadcastAdvance(sent0: seq<Outgoing>, order: seq<string>, id: string, channels: map<string, Channel>,
                         p: Payload, s: seq<Outgoing>)
    requires s == sent0 + Broadcast(order, channels, p)
    ensures s + (if IsOpen(channels, id) then [Outgoing(id, p)] else []) == sent0 + Broadcast(order + [id], channels, p)
  {
    var step := if IsOpen(channels, id) then [Outgoing(id, p)] else [];
    assert (order + [id])[..|order|] == order;
    assert Broadcast(order + [id], channels, p) == Broadcast(order, channels, p) + step;
    AppendAssoc(sent0, Broadcast(order, channels, p), step);
  }

  /**
   * When `order` is an iteration of the channel map, every peer with an open
   * channel gets the message exactly once and nobody else gets it.
   */
  lemma {:induction false} BroadcastReachesOpenOnce(order: seq<string>, channels: map<string, Channel>, p: Payload)
    requires Enumerates(order, channels.Keys)
    ensures forall id :: Outgoing(id, p) in Broadcast(order, channels, p) <==> IsOpen(channels, id)
    ensures forall i, j :: 0 <= i < j < |Broadcast(order, channels, p)| ==>
              Broadcast(order, channels, p)[i].to != Broadcast(order, channels, p)[j].to
  {
    DistinctTargets(order, channels, p);
  }

  lemma {:induction false} DistinctTargets(order: seq<string>, channels: map<string, Channel>, p: Payload)
    requires forall i, j :: 0 <= i < j < |order| ==> order[i] != order[j]
    ensures forall i, j :: 0 <= i < j < |Broadcast(order, channels, p)| ==>
              Broadcast(order, channels, p)[i].to != Broadcast(order, channels, p)[j].to
    decreases |order|
  {
    if order != [] {
      var init := order[..|order| - 1];
      DistinctTargets(init, channels, p);
      forall o | o in Broadcast(init, channels, p) ensures o.to != order[|order| - 1] {
        assert o.to in init;
      }
    }
  }

  /** With no open channel a broadcast sends nothing, whatever the order. */
  lemma {:induction false} BroadcastToNobody(order: seq<string>, channels: map<string, Channel>, p: Payload)
    requires forall id :: !IsOpen(channels, id)
    ensures Broadcast(order, channels, p) == []
    decreases |order|
  {
    if order != [] {
      BroadcastToNobody(order[..|order| - 1], channels, p);
    }
  }

  /** Along an order without repetitions, a peer gets the message once if its channel is open, else never. */
  lemma {:induction false} BroadcastCount(order: seq<string>, channels: map<string, Channel>, p: Payload, id: string)
    requires forall i, j :: 0 <= i < j < |order| ==> order[i] != order[j]
    ensures multiset(Broadcast(order, channels, p))[Outgoing(id, p)] == if id in order && IsOpen(channels, id) then 1 else 0
    decreases |order|
  {
    if order != [] {
      var init := order[..|order| - 1];
      var last := order[|order| - 1];
      BroadcastCount(init, channels, p, id);
      assert id in order <==> id in init || id == last;
      if id == last {
        assert id !in init;
      }
    }
  }

  /** Several broadcasts of the same message, one per iteration order in `rounds`. */
  function Rounds(rounds: seq<seq<string>>, channels: map<string, Channel>, p: Payload): (r: seq<Outgoing>)
    ensures forall o :: o in r ==> o.payload == p && IsOpen(channels, o.to)
  {
    if rounds == [] then []
    else Rounds(rounds[..|rounds| - 1], channels, p) + Broadcast(rounds[|rounds| - 1], channels, p)
  }

  /** One more round of broadcasting. */
  lemma RoundsAdvance(sent0: seq<Outgoing>, rounds: seq<seq<string>>, order: seq<string>,
                      channels: map<string, Channel>, p: Payload, s: seq<Outgoing>)
    requires s == sent0 + Rounds(rounds, channels, p)
    ensures s + Broadcast(order, channels, p) == sent0 + Rounds(rounds + [order], channels, p)
  {
    assert (rounds + [order])[..|rounds|] == rounds;
    AppendAssoc(sent0, Rounds(rounds, channels, p), Broadcast(order, channels, p));
  }

  /** Over rounds that each visit every channel once, every open peer gets the message once per round. */
  lemma {:induction false} RoundsCount(rounds: seq<seq<string>>, channels: map<string, Channel>, p: Payload, id: string)
    requires forall k :: 0 <= k < |rounds| ==> Enumerates(rounds[k], channels.Keys)
    ensures multiset(Rounds(rounds, channels, p))[Outgoing(id, p)] == if IsOpen(channels, id) then |rounds| else 0
    decreases |rounds|
  {
    if rounds != [] {
      var init := rounds[..|rounds| - 1];
      assert forall k :: 0 <= k < |init| ==> init[k] == rounds[k];
      RoundsCount(init, channels, p, id);
      var last := rounds[|rounds| - 1];
      assert Enumerates(last, channels.Keys);
      BroadcastCount(last, channels, p, id);
    }
  }

  /** A received message after JSON.parse, by its `type` tag. */
  datatype Inbound =
    | InText(content: string, sentAt: Option<int>)
    | InFile(fileData: FileRecord, sentAt: Option<int>)
    | InSyncRequest(lastSync: int, fileIds: Option<seq<string>>)
    | InSyncResponse(messages: seq<Message>, files: seq<FileRecord>, timestamp: int)
    | InKillCommand
    | InOther(tag: string)

  /** `message.timestamp || Date.now()`: a missing or zero timestamp is replaced by the clock. */
  function Stamp(ts: Option<int>, now: int): (r: int)
    ensures ts.Some? && ts.value != 0 ==> r == ts.value
    ensures ts.None? || ts.value == 0 ==> r == now
    ensures r == now || ts == Some(r)
    ensures now != 0 ==> r != 0
  {
    if ts.Some? && ts.value != 0 then ts.value else now
  }

  /** A parsed signalling blob: its `type`, its `peerId`, and the description it carries. */
  datatype Signal = Signal(kind: string, peerId: string, desc: Desc)

  /** The answer blob handleOffer produces for the user to send back. */
  datatype AnswerBlob = AnswerBlob(peerId: string, targetPeerId: string, answer: Desc)

  /** Where processSignalData sends the pasted text. */
  datatype Dispatch = EmptyInput | Unparsable | UnknownKind(kind: string) | ToOffer(signal: Signal) | ToAnswer(signal: Signal)

  /** decodeBase64 of the text, or the text itself when decoding throws. */
  function Decoded(text: string, decode: string -> Option<string>): string
  {
    if decode(text).Some? then decode(text).value else text
  }

  /**
   * processSignalData's decision: trimmed input that is empty is refused; the
   * rest is decoded (falling back to the raw text), parsed, and routed by its
   * type, "offer" or "answer"; anything else is reported.
   */
  function Classify(input: string, decode: string -> Option<string>, parse: string -> Option<Signal>): (r: Dispatch)
    ensures r == EmptyInput <==> Trim(input) == []
    ensures Trim(input) != [] ==> (r == Unparsable <==> parse(Decoded(Trim(input), decode)).None?)
    ensures Trim(input) != [] && parse(Decoded(Trim(input), decode)).Some? ==>
              var s := parse(Decoded(Trim(input), decode)).value;
              r == if s.kind == "offer" then ToOffer(s) else if s.kind == "answer" then ToAnswer(s) else UnknownKind(s.kind)
  {
    var text := Trim(input);
    if text == [] then EmptyInput
    else
      match parse(Decoded(text, decode))
      case None => Unparsable
      case Some(s) =>
        if s.kind == "offer" then ToOffer(s)
        else if s.kind == "answer" then ToAnswer(s)
        else UnknownKind(s.kind)
  }

  /** Pasted text routes the same whatever white space surrounds it. */
  lemma ClassifyIgnoresPadding(w1: string, input: string, w2: string,
                               decode: string -> Option<string>, parse: string -> Option<Signal>)
    requires AllWhitespace(w1) && AllWhitespace(w2)
    ensures Classify(w1 + input + w2, decode, parse) == Classify(input, decode, parse)
  {
    TrimPadded(w1, input, w2);
  }
}
