/**
 * The receiving side of the chunked file transfer (p2p-file-transfer.js): a
 * transfer record with one slot per chunk, filled in place as chunks arrive,
 * counted by receivedCount, and joined into a data URL once the count reaches
 * totalChunks.
 *
 * A slot holds the chunk text; the empty string stands for an empty slot. The
 * source only ever tests a slot for truthiness, and both `undefined` (a slot
 * never written) and "" are falsy, so one value covers both.
 */
module FileTransfer {
  import opened Common

  /** `new Array(n)` accepts exactly the integers 0 .. 2^32 - 1 as a length. */
  const MaxArrayLength: int := 0x1_0000_0000 - 1

  predicate Truthy(s: string)
  {
    s != ""
  }

  predicate AllFilled(slots: seq<string>)
  {
    forall i :: 0 <= i < |slots| ==> Truthy(slots[i])
  }

  /** The number of filled slots. */
  function FilledCount(slots: seq<string>): (n: nat)
    ensures n <= |slots|
  {
    if slots == [] then 0
    else FilledCount(slots[..|slots| - 1]) + (if Truthy(slots[|slots| - 1]) then 1 else 0)
  }

  /** Filling one empty slot with a non-empty chunk raises the count by exactly one. */
  lemma {:induction false} FilledCountFillOne(slots: seq<string>, i: int, data: string)
    requires 0 <= i < |slots| && !Truthy(slots[i]) && Truthy(data)
    ensures FilledCount(slots[i := data]) == FilledCount(slots) + 1
    decreases |slots|
  {
    var last := |slots| - 1;
    var s' := slots[i := data];
    assert s'[..last] == if i == last then slots[..last] else slots[..last][i := data];
    if i < last {
      FilledCountFillOne(slots[..last], i, data);
    }
  }

  /** Every slot is filled exactly when the count of filled slots is the number of slots. */
  lemma {:induction false} FilledCountFull(slots: seq<string>)
    ensures FilledCount(slots) == |slots| <==> AllFilled(slots)
    decreases |slots|
  {
    if slots != [] {
      var last := |slots| - 1;
      FilledCountFull(slots[..last]);
      if AllFilled(slots) {
        assert AllFilled(slots[..last]) by {
          forall i | 0 <= i < last ensures Truthy(slots[..last][i]) {
            assert slots[..last][i] == slots[i];
          }
        }
      }
      if FilledCount(slots) == |slots| {
        assert FilledCount(slots[..last]) == last;
        forall i | 0 <= i < |slots| ensures Truthy(slots[i]) {
          if i < last { assert slots[..last][i] == slots[i]; }
        }
      }
    }
  }

  /** The chunks in index order, concatenated. */
  function Joined(slots: seq<string>): string
  {
    if slots == [] then "" else Joined(slots[..|slots| - 1]) + slots[|slots| - 1]
  }

  /** The data URL of an assembled file. */
  function DataUrl(fileType: string, slots: seq<string>): string
  {
    "data:" + fileType + ";base64," + Joined(slots)
  }

  /** One file_transfer_chunk message. */
  datatype Chunk = Chunk(index: int, data: string)

  /**
   * The receiver's view of one transfer: still receiving (the slots, the writes
   * at indices outside the slot range, the count), or assembled and gone.
   */
  datatype Receiver =
    | Receiving(slots: seq<string>, strays: map<int, string>, count: int)
    | Assembled(slots: seq<string>)

  /** handleFileTransferStart: every slot empty, count zero. */
  function Start(n: nat): Receiver
  {
    Receiving(seq(n, _ => ""), map[], 0)
  }

  /** The slot that chunk `c` targets is empty (`!transfer.receivedChunks[index]`). */
  predicate Fills(r: Receiver, c: Chunk)
    requires r.Receiving?
  {
    if 0 <= c.index < |r.slots| then !Truthy(r.slots[c.index])
    else !(c.index in r.strays && Truthy(r.strays[c.index]))
  }

  /** Writing the chunk into its empty slot and counting it. */
  function Store(r: Receiver, c: Chunk): Receiver
    requires r.Receiving?
  {
    if 0 <= c.index < |r.slots| then Receiving(r.slots[c.index := c.data], r.strays, r.count + 1)
    else Receiving(r.slots, r.strays[c.index := c.data], r.count + 1)
  }

  /**
   * assembleFileFromChunks: succeeds when every slot is filled; otherwise it
   * throws, and its error handler leaves the transfer where it was.
   */
  function Assemble(r: Receiver): Receiver
    requires r.Receiving?
  {
    if AllFilled(r.slots) then Assembled(r.slots) else r
  }

  /**
   * handleFileTransferChunk, including the assembly it starts when the count
   * reaches totalChunks. Once assembled the transfer is deleted, so every later
   * chunk for it is a chunk for an unknown transfer and changes nothing.
   */
  function Accept(r: Receiver, c: Chunk): Receiver
  {
    match r
    case Assembled(_) => r
    case Receiving(slots, _, _) =>
      if !Fills(r, c) then r
      else
        var s := Store(r, c);
        if s.count == |slots| then Assemble(s) else s
  }

  function AcceptAll(r: Receiver, cs: seq<Chunk>): Receiver
    decreases |cs|
  {
    if cs == [] then r else AcceptAll(Accept(r, cs[0]), cs[1..])
  }

  /** A chunk the counting invariant is stated for: in range, with non-empty data. */
  predicate WellFormed(c: Chunk, n: nat)
  {
    0 <= c.index < n && Truthy(c.data)
  }

  predicate AllWellFormed(cs: seq<Chunk>, n: nat)
  {
    forall k :: 0 <= k < |cs| ==> WellFormed(cs[k], n)
  }

  function Indices(cs: seq<Chunk>): set<int>
  {
    set k | 0 <= k < |cs| :: cs[k].index
  }

  /** The data of the first chunk delivered for index `i`, or "" if none was. */
  function FirstData(cs: seq<Chunk>, i: int): string
  {
    if cs == [] then ""
    else
      var earlier := FirstData(cs[..|cs| - 1], i);
      if Truthy(earlier) then earlier
      else if cs[|cs| - 1].index == i then cs[|cs| - 1].data
      else ""
  }

  /** For well-formed chunks, index `i` has data exactly when it was delivered. */
  lemma {:induction false} FirstDataIffDelivered(cs: seq<Chunk>, n: nat, i: int)
    requires AllWellFormed(cs, n)
    ensures Truthy(FirstData(cs, i)) <==> i in Indices(cs)
    decreases |cs|
  {
    if cs != [] {
      var init := cs[..|cs| - 1];
      assert AllWellFormed(init, n) by {
        forall k | 0 <= k < |init| ensures WellFormed(init[k], n) {
          assert init[k] == cs[k];
        }
      }
      FirstDataIffDelivered(init, n, i);
      assert Indices(cs) == Indices(init) + {cs[|cs| - 1].index} by {
        forall x | x in Indices(cs) ensures x in Indices(init) + {cs[|cs| - 1].index} {
          var k :| 0 <= k < |cs| && cs[k].index == x;
          if k < |cs| - 1 { assert init[k] == cs[k]; }
        }
        forall x | x in Indices(init) ensures x in Indices(cs) {
          var k :| 0 <= k < |init| && init[k].index == x;
          assert cs[k].index == x;
        }
      }
    }
  }

  /**
   * What holds after a run of well-formed chunks `delivered`: every slot holds
   * the first data delivered for its index; while receiving, the count equals
   * the number of filled slots and is below totalChunks; once assembled, every
   * slot is filled.
   */
  ghost predicate Tracks(r: Receiver, n: nat, delivered: seq<Chunk>)
  {
    && |r.slots| == n
    && (forall i :: 0 <= i < n ==> r.slots[i] == FirstData(delivered, i))
    && match r
       case Receiving(slots, strays, count) =>
         strays == map[] && count == FilledCount(slots) && (n > 0 ==> count < n)
       case Assembled(slots) =>
         n > 0 && AllFilled(slots)
  }

  lemma AcceptTracks(r: Receiver, n: nat, delivered: seq<Chunk>, c: Chunk)
    requires Tracks(r, n, delivered) && WellFormed(c, n)
    ensures Tracks(Accept(r, c), n, delivered + [c])
  {
    var d := delivered + [c];
    assert d[..|d| - 1] == delivered;
    if r.Receiving? && Fills(r, c) {
      var s := Store(r, c);
      FilledCountFillOne(r.slots, c.index, c.data);
      if s.count == n {
        FilledCountFull(s.slots);
      }
    }
  }

  lemma {:induction false} AcceptAllTracks(r: Receiver, n: nat, delivered: seq<Chunk>, cs: seq<Chunk>)
    requires Tracks(r, n, delivered)
    requires AllWellFormed(cs, n)
    ensures Tracks(AcceptAll(r, cs), n, delivered + cs)
    decreases |cs|
  {
    if cs != [] {
      AcceptTracks(r, n, delivered, cs[0]);
      assert AllWellFormed(cs[1..], n) by {
        forall k | 0 <= k < |cs| - 1 ensures WellFormed(cs[1..][k], n) {
          assert cs[1..][k] == cs[k + 1];
        }
      }
      AcceptAllTracks(Accept(r, cs[0]), n, delivered + [cs[0]], cs[1..]);
      assert delivered + [cs[0]] + cs[1..] == delivered + cs;
    } else {
      assert delivered + cs == delivered;
    }
  }

  lemma {:induction false} StartTracks(n: nat)
    ensures Tracks(Start(n), n, [])
    decreases n
  {
    if n > 0 {
      var s: seq<string> := seq(n, _ => "");
      assert s[..n - 1] == seq(n - 1, _ => "");
      StartTracks(n - 1);
    }
  }

  /**
   * Whatever the delivery order and however many duplicates arrive, a run of
   * well-formed chunks produces the file exactly when every index
   * 0 .. totalChunks - 1 arrived (and there is at least one chunk to wait for);
   * the file then holds, at every index, the first data delivered for it.
   */
  lemma AssembledIffAllIndicesArrived(n: nat, cs: seq<Chunk>)
    requires AllWellFormed(cs, n)
    ensures AcceptAll(Start(n), cs).Assembled? <==> n > 0 && forall i :: 0 <= i < n ==> i in Indices(cs)
    ensures AcceptAll(Start(n), cs).Assembled? ==>
              AcceptAll(Start(n), cs).slots == seq(n, i => FirstData(cs, i))
  {
    StartTracks(n);
    AcceptAllTracks(Start(n), n, [], cs);
    assert [] + cs == cs;
    var r := AcceptAll(Start(n), cs);
    forall i | 0 <= i < n ensures Truthy(r.slots[i]) <==> i in Indices(cs) {
      FirstDataIffDelivered(cs, n, i);
    }
    if r.Receiving? && n > 0 && forall i :: 0 <= i < n ==> i in Indices(cs) {
      assert AllFilled(r.slots);
      FilledCountFull(r.slots);
      assert false;
    }
  }

  /**
   * The counter drifts on a chunk with empty data: it is counted but leaves its
   * slot empty, so a resend of the same index is counted again. Two deliveries
   * of index 0 (empty, then "QQ") to a two-chunk transfer reach the count of
   * two with slot 1 still empty; assembly then fails and the transfer stays.
   */
  lemma EmptyChunkDriftsCount()
    ensures var r := AcceptAll(Start(2), [Chunk(0, ""), Chunk(0, "QQ")]);
            r.Receiving? && r.count == 2 && FilledCount(r.slots) == 1
  {
    var r0 := Start(2);
    assert r0.slots == ["", ""];
    var r1 := Accept(r0, Chunk(0, ""));
    assert r1 == Receiving(["", ""], map[], 1);
    var r2 := Accept(r1, Chunk(0, "QQ"));
    assert r2.slots == ["QQ", ""];
    assert !Truthy(r2.slots[1]);
    assert r2 == Receiving(["QQ", ""], map[], 2);
    assert AcceptAll(r0, [Chunk(0, ""), Chunk(0, "QQ")]) == AcceptAll(r2, []) by {
      assert [Chunk(0, ""), Chunk(0, "QQ")][1..] == [Chunk(0, "QQ")];
      assert [Chunk(0, "QQ")][1..] == [];
    }
    assert ["QQ", ""][..1] == ["QQ"];
    assert ["QQ"][..0] == [];
  }

  /**
   * One transfer in progress. The identifying fields never change after
   * handleFileTransferStart; the slot array is filled in place.
   */
  class Transfer {
    const transferId: string
    const fileName: string
    const fileSize: int
    const fileType: string
    const totalChunks: nat
    const sender: string
    const startTime: int
    const receivedChunks: array<string>
    var receivedCount: int
    /** Writes at indices outside 0 .. totalChunks - 1 (JavaScript keeps them as extra properties). */
    var strayChunks: map<int, string>

    predicate Valid()
    {
      receivedChunks.Length == totalChunks
    }

    ghost function View(): Receiver
      reads this, receivedChunks
    {
      Receiving(receivedChunks[..], strayChunks, receivedCount)
    }

    constructor (transferId: string, fileName: string, fileSize: int, fileType: string,
                 totalChunks: nat, sender: string, startTime: int)
      ensures Valid() && fresh(receivedChunks)
      ensures this.transferId == transferId && this.fileName == fileName && this.fileSize == fileSize
      ensures this.fileType == fileType && this.totalChunks == totalChunks
      ensures this.sender == sender && this.startTime == startTime
      ensures View() == Start(totalChunks)
    {
      this.transferId := transferId;
      this.fileName := fileName;
      this.fileSize := fileSize;
      this.fileType := fileType;
      this.totalChunks := totalChunks;
      this.sender := sender;
      this.startTime := startTime;
      receivedChunks := new string[totalChunks](_ => "");
      receivedCount := 0;
      strayChunks := map[];
    }

    /**
     * Lines 29-31 of handleFileTransferChunk: write the chunk if its slot is
     * empty and count it; report whether it was written.
     */
    method StoreChunk(c: Chunk) returns (stored: bool)
      requires Valid()
      modifies this`receivedCount, this`strayChunks, receivedChunks
      ensures stored == Fills(old(View()), c)
      ensures View() == if stored then Store(old(View()), c) else old(View())
    {
      if 0 <= c.index < receivedChunks.Length {
        stored := !Truthy(receivedChunks[c.index]);
        if stored {
          receivedChunks[c.index] := c.data;
        }
      } else {
        stored := !(c.index in strayChunks && Truthy(strayChunks[c.index]));
        if stored {
          strayChunks := strayChunks[c.index := c.data];
        }
      }
      if stored {
        receivedCount := receivedCount + 1;
      }
    }

    /**
     * The loop of assembleFileFromChunks: concatenate the slots in index order,
     * failing at the first empty one.
     */
    method JoinChunks() returns (joined: Option<string>)
      requires Valid()
      ensures joined.Some? <==> AllFilled(receivedChunks[..])
      ensures joined.Some? ==> joined.value == Joined(receivedChunks[..])
    {
      var full := "";
      var i := 0;
      while i < totalChunks
        invariant 0 <= i <= totalChunks
        invariant AllFilled(receivedChunks[..i])
        invariant full == Joined(receivedChunks[..i])
      {
        if !Truthy(receivedChunks[i]) {
          assert !AllFilled(receivedChunks[..]) by {
            assert receivedChunks[..][i] == receivedChunks[i];
          }
          return None;
        }
        assert receivedChunks[..i + 1][..i] == receivedChunks[..i];
        full := full + receivedChunks[i];
        i := i + 1;
      }
      assert receivedChunks[..i] == receivedChunks[..];
      joined := Some(full);
    }
  }
}
