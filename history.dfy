/**
 * The message history and its reconciliation protocol (the pure part of
 * p2p-ui-storage.js and of the legacy client): an insert deduplicated by id
 * that raises the sync watermark and carries the "kill" wipe trigger, the
 * filter a peer answers a sync request with, and the merge a peer applies to a
 * sync response.
 */
module History {
  import opened Common

  datatype Body = Text(content: string) | FileRef(fileId: string)

  datatype Message = Message(id: string, body: Body, sender: string, timestamp: int)

  datatype FileRecord = FileRecord(id: string, name: string, mimeType: string, size: int, data: string)

  /** A text message whose content is exactly "kill" wipes the client when it is stored. */
  predicate IsKill(m: Message)
  {
    m.body.Text? && m.body.content == "kill"
  }

  /** `messages.find(m => m.id === id)` finds something. */
  predicate HasId(msgs: seq<Message>, id: string)
  {
    exists i :: 0 <= i < |msgs| && msgs[i].id == id
  }

  predicate UniqueIds(msgs: seq<Message>)
  {
    forall i, j :: 0 <= i < j < |msgs| ==> msgs[i].id != msgs[j].id
  }

  /** The message list together with the sync watermark `lastSyncTime`. */
  datatype Log = Log(messages: seq<Message>, watermark: int)

  /** Storing `m` wipes the client: it is new and it is a kill text. */
  predicate Wipes(log: Log, m: Message)
  {
    !HasId(log.messages, m.id) && IsKill(m)
  }

  /**
   * addMessageToHistory on the message list and the watermark: a message whose
   * id is present changes nothing; a new one is appended and raises the
   * watermark to its timestamp; a new kill text is appended and then wiped
   * together with everything else, leaving an empty list and a zero watermark.
   */
  function Insert(log: Log, m: Message): (r: Log)
    ensures HasId(log.messages, m.id) ==> r == log
    ensures Wipes(log, m) ==> r == Log([], 0)
    ensures !Wipes(log, m) ==> HasId(r.messages, m.id) && r.watermark >= log.watermark
    ensures !Wipes(log, m) ==> forall id :: HasId(log.messages, id) ==> HasId(r.messages, id)
    ensures !HasId(log.messages, m.id) && !IsKill(m) ==>
              r.messages == log.messages + [m] && r.watermark == Max(log.watermark, m.timestamp)
    ensures UniqueIds(log.messages) ==> UniqueIds(r.messages)
  {
    if HasId(log.messages, m.id) then log
    else if IsKill(m) then Log([], 0)
    else
      var r := Log(log.messages + [m], Max(log.watermark, m.timestamp));
      assert r.messages[|log.messages|] == m;
      assert forall i :: 0 <= i < |log.messages| ==> r.messages[i] == log.messages[i];
      r
  }

  /** The messages loop of handleSyncResponse: Insert each message in order. */
  function MergeAll(log: Log, incoming: seq<Message>): Log
    decreases |incoming|
  {
    if incoming == [] then log else MergeAll(Insert(log, incoming[0]), incoming[1..])
  }

  /** Some step of the merge wipes the client. */
  predicate WipesDuring(log: Log, incoming: seq<Message>)
    decreases |incoming|
  {
    incoming != [] && (Wipes(log, incoming[0]) || WipesDuring(Insert(log, incoming[0]), incoming[1..]))
  }

  predicate NoKill(incoming: seq<Message>)
  {
    forall k :: 0 <= k < |incoming| ==> !IsKill(incoming[k])
  }

  /** A merge of messages none of which is a kill text never wipes. */
  lemma {:induction false} NoKillNoWipe(log: Log, incoming: seq<Message>)
    requires NoKill(incoming)
    ensures !WipesDuring(log, incoming)
    decreases |incoming|
  {
    if incoming != [] {
      assert !IsKill(incoming[0]);
      assert NoKill(incoming[1..]) by {
        forall k | 0 <= k < |incoming| - 1 ensures !IsKill(incoming[1..][k]) {
          assert incoming[1..][k] == incoming[k + 1];
        }
      }
      NoKillNoWipe(Insert(log, incoming[0]), incoming[1..]);
    }
  }

  /** Ids stay unique through any merge, kill texts included. */
  lemma {:induction false} MergeKeepsIdsUnique(log: Log, incoming: seq<Message>)
    requires UniqueIds(log.messages)
    ensures UniqueIds(MergeAll(log, incoming).messages)
    decreases |incoming|
  {
    if incoming != [] {
      MergeKeepsIdsUnique(Insert(log, incoming[0]), incoming[1..]);
    }
  }

  /**
   * Without kill texts a merge keeps every message it had, ends up holding
   * every incoming id, and never lowers the watermark.
   */
  lemma {:induction false} MergeStoresEveryId(log: Log, incoming: seq<Message>)
    requires NoKill(incoming)
    ensures forall id :: HasId(log.messages, id) ==> HasId(MergeAll(log, incoming).messages, id)
    ensures forall k :: 0 <= k < |incoming| ==> HasId(MergeAll(log, incoming).messages, incoming[k].id)
    ensures MergeAll(log, incoming).watermark >= log.watermark
    decreases |incoming|
  {
    if incoming != [] {
      var next := Insert(log, incoming[0]);
      assert !IsKill(incoming[0]);
      assert NoKill(incoming[1..]) by {
        forall k | 0 <= k < |incoming| - 1 ensures !IsKill(incoming[1..][k]) {
          assert incoming[1..][k] == incoming[k + 1];
        }
      }
      MergeStoresEveryId(next, incoming[1..]);
      forall k | 0 <= k < |incoming|
        ensures HasId(MergeAll(log, incoming).messages, incoming[k].id)
      {
        if k > 0 {
          assert incoming[k] == incoming[1..][k - 1];
        }
      }
    }
  }

  /** Merging messages whose ids are all present changes nothing. */
  lemma {:induction false} MergeOfKnownIsNoop(log: Log, incoming: seq<Message>)
    requires forall k :: 0 <= k < |incoming| ==> HasId(log.messages, incoming[k].id)
    ensures MergeAll(log, incoming) == log
    decreases |incoming|
  {
    if incoming != [] {
      assert Insert(log, incoming[0]) == log;
      forall k | 0 <= k < |incoming| - 1 ensures HasId(log.messages, incoming[1..][k].id) {
        assert incoming[1..][k] == incoming[k + 1];
      }
      MergeOfKnownIsNoop(log, incoming[1..]);
    }
  }

  /** Applying the same sync response twice adds nothing the second time. */
  lemma MergeIdempotent(log: Log, incoming: seq<Message>)
    requires NoKill(incoming)
    ensures MergeAll(MergeAll(log, incoming), incoming) == MergeAll(log, incoming)
  {
    MergeStoresEveryId(log, incoming);
    MergeOfKnownIsNoop(MergeAll(log, incoming), incoming);
  }

  /**
   * The filter of handleSyncRequest: the stored messages strictly newer than the
   * requester's watermark, in stored order.
   */
  function Newer(msgs: seq<Message>, lastSync: int): (r: seq<Message>)
    ensures |r| <= |msgs|
    ensures forall m :: m in r <==> m in msgs && m.timestamp > lastSync
  {
    if msgs == [] then []
    else (if msgs[0].timestamp > lastSync then [msgs[0]] else []) + Newer(msgs[1..], lastSync)
  }

  /** The filter keeps stored order: it distributes over concatenation. */
  lemma {:induction false} NewerDistributes(a: seq<Message>, b: seq<Message>, lastSync: int)
    ensures Newer(a + b, lastSync) == Newer(a, lastSync) + Newer(b, lastSync)
    decreases |a|
  {
    if a != [] {
      assert (a + b)[1..] == a[1..] + b;
      NewerDistributes(a[1..], b, lastSync);
    } else {
      assert a + b == b;
    }
  }

  /** A request whose watermark is below every stored timestamp gets the whole history. */
  lemma {:induction false} NewerKeepsAllNewer(msgs: seq<Message>, lastSync: int)
    requires forall k :: 0 <= k < |msgs| ==> msgs[k].timestamp > lastSync
    ensures Newer(msgs, lastSync) == msgs
    decreases |msgs|
  {
    if msgs != [] {
      NewerKeepsAllNewer(msgs[1..], lastSync);
      assert [msgs[0]] + msgs[1..] == msgs;
    }
  }

  /**
   * One round of sync: the requester (log `mine`) sends its watermark, the
   * responder answers with `Newer(theirs, mine.watermark)`, the requester
   * merges it. Without kill texts the requester then holds every id of the
   * responder's messages newer than its own watermark, and keeps what it had.
   */
  lemma SyncRoundDeliversNewer(mine: Log, theirs: seq<Message>)
    requires NoKill(theirs)
    ensures var after := MergeAll(mine, Newer(theirs, mine.watermark));
            && (forall m :: m in theirs && m.timestamp > mine.watermark ==> HasId(after.messages, m.id))
            && (forall id :: HasId(mine.messages, id) ==> HasId(after.messages, id))
  {
    var response := Newer(theirs, mine.watermark);
    assert NoKill(response) by {
      forall k | 0 <= k < |response| ensures !IsKill(response[k]) {
        assert response[k] in response;
      }
    }
    MergeStoresEveryId(mine, response);
    forall m | m in theirs && m.timestamp > mine.watermark
      ensures HasId(MergeAll(mine, response).messages, m.id)
    {
      assert m in response;
      var k :| 0 <= k < |response| && response[k] == m;
    }
  }

  /**
   * The files part of a sync response: every stored file unless the request
   * lists its id (a request without `fileIds` gets every file).
   */
  function FilesFor(files: map<string, FileRecord>, fileIds: Option<seq<string>>): (r: map<string, FileRecord>)
    ensures fileIds.None? ==> r == files
    ensures forall id :: id in r <==> id in files && (fileIds.None? || id !in fileIds.value)
    ensures forall id :: id in r ==> r[id] == files[id]
  {
    map id | id in files && (fileIds.None? || id !in fileIds.value) :: files[id]
  }

  /**
   * The files loop of handleSyncRequest: the records of the ids in `order` (one
   * iteration of the file map) that the request does not list, in that order.
   */
  function Selected(order: seq<string>, files: map<string, FileRecord>, fileIds: Option<seq<string>>): (r: seq<FileRecord>)
    requires forall k :: k in order ==> k in files
    ensures forall f :: f in r <==> exists id :: id in order && id in FilesFor(files, fileIds) && files[id] == f
    ensures fileIds.None? ==> |r| == |order|
  {
    if order == [] then []
    else
      var last := order[|order| - 1];
      Selected(order[..|order| - 1], files, fileIds)
      + (if fileIds.None? || last !in fileIds.value then [files[last]] else [])
  }

  /** The files loop of the legacy handleSyncResponse: add the records whose id is absent. */
  function MergeFiles(files: map<string, FileRecord>, incoming: seq<FileRecord>): (r: map<string, FileRecord>)
    decreases |incoming|
  {
    if incoming == [] then files
    else MergeFiles(if incoming[0].id in files then files else files[incoming[0].id := incoming[0]], incoming[1..])
  }

  /**
   * A file merge never replaces a stored record, and afterwards every incoming
   * id is stored.
   */
  lemma {:induction false} MergeFilesKeepsAndAdds(files: map<string, FileRecord>, incoming: seq<FileRecord>)
    ensures forall id :: id in files ==> id in MergeFiles(files, incoming) && MergeFiles(files, incoming)[id] == files[id]
    ensures forall k :: 0 <= k < |incoming| ==> incoming[k].id in MergeFiles(files, incoming)
    ensures forall id :: id in MergeFiles(files, incoming) ==>
              id in files || exists k :: 0 <= k < |incoming| && incoming[k].id == id
    decreases |incoming|
  {
    if incoming != [] {
      var next := if incoming[0].id in files then files else files[incoming[0].id := incoming[0]];
      MergeFilesKeepsAndAdds(next, incoming[1..]);
      var r := MergeFiles(files, incoming);
      assert r == MergeFiles(next, incoming[1..]);
      forall k | 0 <= k < |incoming| ensures incoming[k].id in r {
        if k > 0 { assert incoming[k] == incoming[1..][k - 1]; } else { assert incoming[0].id in next; }
      }
      forall id | id in r ensures id in files || exists k :: 0 <= k < |incoming| && incoming[k].id == id {
        if id !in next {
          var j :| 0 <= j < |incoming[1..]| && incoming[1..][j].id == id;
          assert incoming[j + 1].id == id;
        } else if id !in files {
          assert incoming[0].id == id;
        }
      }
    }
  }

  /** Merging file records whose ids are all stored changes nothing. */
  lemma {:induction false} MergeFilesOfKnownIsNoop(files: map<string, FileRecord>, incoming: seq<FileRecord>)
    requires forall k :: 0 <= k < |incoming| ==> incoming[k].id in files
    ensures MergeFiles(files, incoming) == files
    decreases |incoming|
  {
    if incoming != [] {
      forall k | 0 <= k < |incoming| - 1 ensures incoming[1..][k].id in files {
        assert incoming[1..][k] == incoming[k + 1];
      }
      MergeFilesOfKnownIsNoop(files, incoming[1..]);
    }
  }

  /** Applying the same file list twice adds nothing the second time. */
  lemma MergeFilesIdempotent(files: map<string, FileRecord>, incoming: seq<FileRecord>)
    ensures MergeFiles(MergeFiles(files, incoming), incoming) == MergeFiles(files, incoming)
  {
    MergeFilesKeepsAndAdds(files, incoming);
    MergeFilesOfKnownIsNoop(MergeFiles(files, incoming), incoming);
  }

  /** The records of `incoming` whose id is not stored, in order (handed to storage by the split client). */
  function Unstored(files: map<string, FileRecord>, incoming: seq<FileRecord>): (r: seq<FileRecord>)
    ensures forall f :: f in r <==> f in incoming && f.id !in files
  {
    if incoming == [] then []
    else
      var last := incoming[|incoming| - 1];
      Unstored(files, incoming[..|incoming| - 1]) + (if last.id in files then [] else [last])
  }

  /** Cutting the incoming files short cuts their unstored files short: a prefix gives a prefix. */
  lemma {:induction false} UnstoredPrefix(files: map<string, FileRecord>, incoming: seq<FileRecord>, m: nat)
    requires m <= |incoming|
    ensures Unstored(files, incoming[..m]) <= Unstored(files, incoming)
    decreases |incoming| - m
  {
    if m < |incoming| {
      var init := incoming[..|incoming| - 1];
      assert init[..m] == incoming[..m];
      UnstoredPrefix(files, init, m);
    } else {
      assert incoming[..m] == incoming;
    }
  }

  /** One more incoming file adds its record to the unstored files exactly when its id is not stored. */
  lemma UnstoredStep(files: map<string, FileRecord>, incoming: seq<FileRecord>, j: nat)
    requires j < |incoming|
    ensures Unstored(files, incoming[..j + 1])
            == Unstored(files, incoming[..j]) + (if incoming[j].id in files then [] else [incoming[j]])
  {
    assert incoming[..j + 1][..j] == incoming[..j];
  }

  /** The save of `f` is made (its id is not stored) and throws. */
  predicate SaveThrows(files: map<string, FileRecord>, f: FileRecord, throws: FileRecord -> bool)
  {
    f.id !in files && throws(f)
  }

  /**
   * How far the save loop of a sync response gets: the index of the first
   * file whose save throws, which ends the loop, or |incoming| when none does.
   */
  function SavedUpTo(files: map<string, FileRecord>, incoming: seq<FileRecord>, throws: FileRecord -> bool): (n: nat)
    ensures n <= |incoming|
    ensures forall k :: 0 <= k < n ==> !SaveThrows(files, incoming[k], throws)
    ensures n < |incoming| ==> SaveThrows(files, incoming[n], throws)
    decreases |incoming|
  {
    if incoming == [] then 0
    else if SaveThrows(files, incoming[0], throws) then 0
    else 1 + SavedUpTo(files, incoming[1..], throws)
  }

  /**
   * The saves the loop makes, in order: those of the unstored files up to and
   * including the one that throws, or of every unstored file when none throws.
   */
  function SavesMade(files: map<string, FileRecord>, incoming: seq<FileRecord>, throws: FileRecord -> bool): (r: seq<FileRecord>)
    ensures SavedUpTo(files, incoming, throws) == |incoming| ==> r == Unstored(files, incoming)
    ensures var n := SavedUpTo(files, incoming, throws);
            n < |incoming| ==> r == Unstored(files, incoming[..n]) + [incoming[n]]
    ensures forall f :: f in r ==> f in incoming && f.id !in files
    ensures r <= Unstored(files, incoming)
  {
    var n := SavedUpTo(files, incoming, throws);
    if n == |incoming| then Unstored(files, incoming)
    else
      assert incoming[..n + 1][..n] == incoming[..n];
      UnstoredPrefix(files, incoming, n + 1);
      Unstored(files, incoming[..n + 1])
  }

  /** A loop whose first throwing save is at `j` has made the unstored saves before `j`, then that one. */
  lemma SavesMadeStops(files: map<string, FileRecord>, incoming: seq<FileRecord>, throws: FileRecord -> bool, j: nat)
    requires j < |incoming|
    requires forall k :: 0 <= k < j ==> !SaveThrows(files, incoming[k], throws)
    requires SaveThrows(files, incoming[j], throws)
    ensures SavedUpTo(files, incoming, throws) == j
    ensures SavesMade(files, incoming, throws) == Unstored(files, incoming[..j]) + [incoming[j]]
  {
  }

  /** A loop in which no save throws has made the save of every unstored file. */
  lemma SavesMadeAll(files: map<string, FileRecord>, incoming: seq<FileRecord>, throws: FileRecord -> bool)
    requires forall k :: 0 <= k < |incoming| ==> !SaveThrows(files, incoming[k], throws)
    ensures SavedUpTo(files, incoming, throws) == |incoming|
    ensures SavesMade(files, incoming, throws) == Unstored(files, incoming)
  {
  }
}
