# A model of the browser P2P messenger's client core

The messenger is a serverless chat that runs in the browser. Two browsers
connect over WebRTC after the users exchange an offer and an answer by hand,
as Base64 blobs. Peers then talk over RTCDataChannels. Each client keeps:

- a chat history with unique message ids;
- a map of files;
- a map of known peers, with the last offer it made to each;
- a sync watermark (`lastSyncTime`).

When a connection reaches the `connected` state, each side sends a
`sync_request` carrying its watermark. The periodic liveness sweep sends one
too, to every peer whose channel has just come up. The other side answers
with the messages newer than that watermark and with its files. Lost peers are
reconnected with a per-peer attempt counter and a cap. Files are sent whole or
received in chunks. A text message whose content is exactly `kill`, or a
`kill_command`, wipes the history, the files and the peer registry.
- The split client also renews the local peer id, but only when storing the
  new id succeeds. It keeps the reconnection counters, the transfers in
  progress, the pending offer and the online flag.
- The legacy client always renews the id. It keeps its reconnection counters.

The project models the split client: the `P2PClient` class of `p2p-core.js`,
plus the methods that `p2p-connection.js`, `p2p-reconnect.js`,
`p2p-ui-storage.js` and `p2p-file-transfer.js` add to its prototype. It also
models the legacy single-file client `p2p-client.js`, for the operations where
it behaves differently.

Modules:

- `Common`: `Math.max`, `String.prototype.trim` and the peer-id test that trims.
- `History`: the history insert with its kill trigger, the sync filters and the
  merges. Both clients use it.
- `Transport`: the WebRTC objects, treated as opaque handles, ready states and
  outcomes. It also holds the test for SDP errors.
- `Peers`: the per-peer record and its updates.
- `Wire`: the payloads, the log of `channel.send` calls, broadcasting and
  parsing pasted signalling text.
- `Liveness`: the periodic `checkPeersStatus` sweep.
- `Reconnect`: the attempt counter, one reconnection attempt, and the startup
  sweep over all known peers.
- `FileTransfer`: the receiving side of a chunked transfer. It includes a
  `Transfer` class whose slot `array` is filled in place.
- `Client`: the split client, as the class `P2PClient`.
- `Legacy`: the legacy client, as the class `LegacyClient`.

Each event handler is one atomic step. Every awaited browser call is an input
to the step: a value, or the error the call threw. The clock value, the random
ids and the order of `Map` iteration are inputs too; the iteration order is a
ghost out-parameter. The model records side effects in logs that the classes
only append to:

- `sent` for `channel.send`;
- `timers` for a scheduled `reconnectToPeer`;
- `closed` for `RTCPeerConnection.close`;
- `fileSaves` for `saveFileToStorage`.

Each method is proved against pure functions in the modules above. Lemmas then
state what the source promises about those functions: idempotent merges, a
sweep that is quiet the second time, a counter that stays under the cap, and
chunk assembly that happens exactly when every index has arrived.

## Model

| member | source | states |
|---|---|---|
| Common.Max | p2p-ui-storage.js:401 | `Math.max`: the result is at least each argument and equals one of them |
| Common.TrimStart | p2p-connection.js:312 | what `trim` drops at the front: only whitespace, and the result starts with a non-space or is empty |
| Common.TrimEnd | p2p-connection.js:312 | what `trim` drops at the end: only whitespace, and the result ends with a non-space or is empty |
| Common.TrimEmptyIffBlank | p2p-connection.js:312-314 | pasted text trims to nothing exactly when every character is whitespace |
| Common.ValidPeerIdIsTrimTest | p2p-reconnect.js:40 | an id passes the peer-id guard exactly when `peerId.trim()` is non-empty |
| Common.TrimPadded | p2p-connection.js:312 | white space added around a text never changes what `trim` returns |
| History.Insert | p2p-ui-storage.js:387-420 | a known id leaves the log as it is; a new `kill` text wipes it to empty with watermark 0; any other new message is stored, raises the watermark and keeps every stored id; ids stay unique |
| History.NoKillNoWipe | p2p-ui-storage.js:404-415 | merging messages with no `kill` text never wipes the history |
| History.MergeKeepsIdsUnique | p2p-ui-storage.js:361-366 | merging a sync response keeps message ids unique |
| History.MergeStoresEveryId | p2p-ui-storage.js:361-366 | with no kill among them, every incoming id ends up stored, no stored id is lost, and the watermark does not fall |
| History.MergeOfKnownIsNoop | p2p-ui-storage.js:361-366 | a response made only of known ids changes nothing |
| History.MergeIdempotent | p2p-ui-storage.js:361-366 | applying the same kill-free response twice is the same as once |
| History.Newer | p2p-ui-storage.js:328-330 | the answer to a sync request is exactly the messages newer than the requester's watermark |
| History.NewerDistributes | p2p-ui-storage.js:328-330 | the filter works element by element: filtering `a + b` is filtering `a`, then `b` |
| History.NewerKeepsAllNewer | p2p-ui-storage.js:328-330 | the filter keeps a history in which every message is newer unchanged, order included |
| History.SyncRoundDeliversNewer | p2p-ui-storage.js:324-366 | one request and response round stores every message of the peer that is newer than the requester's watermark and loses no stored id |
| History.Selected | p2p-ui-storage.js:333-338 | the file list sent is exactly the records of the offered ids, and every file when no list was sent |
| History.MergeFilesKeepsAndAdds | p2p-client.js:1082-1087 | merging response files keeps every stored file unchanged and adds every incoming id |
| History.MergeFilesOfKnownIsNoop | p2p-client.js:1082-1087 | files that are all known change nothing |
| History.MergeFilesIdempotent | p2p-client.js:1082-1087 | merging the same files twice is the same as once |
| History.Unstored | p2p-ui-storage.js:369-374 | the files saved from a response are exactly the incoming ones whose ids are not stored |
| History.SavedUpTo | p2p-ui-storage.js:369-374 | the save loop gets through exactly the files before the first unstored one whose save throws, or through all of them |
| History.UnstoredPrefix | p2p-ui-storage.js:369-374 | the unstored files of a prefix of the response are a prefix of its unstored files |
| History.SavesMade | p2p-ui-storage.js:369-374 | the saves made are the unstored files up to and including the one that throws, or all unstored files when none throws; either way they are a prefix of the saves a loop without throws would make |
| Transport.IsSdpErrorByParts | p2p-reconnect.js:70 | the SDP-error test holds iff the name is `InvalidModificationError` or "SDP" occurs in the name or in the message |
| Transport.ContainsAcrossSeparator | p2p-reconnect.js:70 | "SDP" occurs in `name + ": " + message` iff it occurs in one of the two parts |
| Peers.WithOffer | p2p-ui-storage.js:297-313 | saving an offer sets `lastOffer` and `lastSeen`, keeps the id and `lastAnswer`, keeps a non-zero connection count and sets a missing one to 1 |
| Peers.LegacyWithOffer | p2p-client.js:336-342 | the legacy save changes only `lastOffer` and `lastSeen` |
| Peers.WithoutOffer | p2p-reconnect.js:119-126 | clearing removes `lastOffer` and changes nothing else |
| Peers.OfferSaved | p2p-ui-storage.js:295-321 | a blank id leaves the map as it is; otherwise the peer is added if needed and given the offer; other peers are untouched |
| Peers.LegacyOfferSaved | p2p-client.js:336-342 | the legacy save registers any id string, gives it the offer and leaves other peers untouched |
| Peers.OfferCleared | p2p-reconnect.js:119-126 | clearing keeps the set of known peers and changes only the named peer's record |
| Wire.Broadcast | p2p-core.js:274-280 | a broadcast sends the payload once to each visited peer whose channel is open, and to nobody else |
| Wire.BroadcastReachesOpenOnce | p2p-core.js:274-280 | over a full iteration of the channel map, every open peer gets the payload and no peer gets it twice |
| Wire.DistinctTargets | p2p-core.js:274-280 | distinct visited ids give distinct recipients |
| Wire.BroadcastToNobody | p2p-core.js:274-280 | with no open channel nothing is sent |
| Wire.BroadcastCount | p2p-core.js:274-280 | each peer receives the payload exactly once if it is visited and open, and never otherwise |
| Wire.Rounds | p2p-file-transfer.js:145-160 | repeated broadcasts reach only open channels |
| Wire.RoundsCount | p2p-file-transfer.js:145-160 | k full broadcasts deliver the payload k times to each open peer and never to a closed one |
| Wire.Stamp | p2p-core.js:287-314 | `timestamp \|\| Date.now()`: the stored time is the message's own or the clock's, the message's own whenever it is present and non-zero, and never 0 while the clock is not 0 |
| Wire.Classify | p2p-connection.js:310-345 | blank input is refused; text that does not parse is refused; otherwise the signal goes to the offer or answer handler by its type, and any other type is reported |
| Wire.ClassifyIgnoresPadding | p2p-connection.js:312-337 | pasted signalling text is routed the same whatever white space surrounds it |
| Liveness.Reconciled | p2p-core.js:162-198 | after a sweep, a peer with a channel and a valid id is connected iff its channel is open; other peers keep their status |
| Liveness.Swept | p2p-core.js:163-193 | the connected set after visiting some channels in order, each flip made one at a time |
| Liveness.SweptAll | p2p-core.js:162-198 | visiting every channel, in any order, gives the reconciled set |
| Liveness.SyncSends | p2p-core.js:163-193 | the sweep sends a sync request to exactly the visited peers that come up |
| Liveness.RetryTimers | p2p-core.js:163-193 | the sweep schedules a reconnect for exactly the visited peers that go down, and none while the startup reconnect runs |
| Liveness.SecondSweepIsQuiet | p2p-core.js:162-198 | a second sweep over unchanged channels changes nothing, sends nothing and schedules nothing |
| Liveness.NothingFlips | p2p-core.js:163-193 | over a reconciled set no peer comes up or goes down |
| Reconnect.Bump | p2p-reconnect.js:55 | an attempt raises this peer's counter by one and no other counter |
| Reconnect.RunStaysCapped | p2p-reconnect.js:47-55 | any run of attempts and connections keeps every counter at or below the cap |
| Reconnect.TriesBounded | p2p-reconnect.js:47-80 | with no connection in between, a peer gets at most `maxReconnectAttempts` minus its counter further attempts, and its counter counts them |
| Reconnect.Attempted | p2p-reconnect.js:23-27 | the startup sweep attempts exactly the visited peers that are not connected and are below the cap |
| Reconnect.AfterAttempt | p2p-reconnect.js:55-81 | an attempt never changes the peer's id or `lastAnswer`; a failed attempt changes nothing but the saved offer, clearing it on an SDP error and leaving it otherwise; a successful one saves the new offer |
| Reconnect.Retries | p2p-reconnect.js:76-80 | a retry is scheduled for exactly the attempted peers whose attempt failed while one more attempt stays below the cap |
| Reconnect.Displaced | p2p-reconnect.js:87-90 | the connections closed by a sweep are exactly the ones the attempted peers had |
| Reconnect.TryOnceByParts | p2p-reconnect.js:38-82 | one attempt: counter raised, old connection closed and replaced, channel connecting, offer saved on success, or cleared on an SDP error and a retry scheduled |
| Reconnect.TryAllCounts | p2p-reconnect.js:2-35 | the startup sweep raises each attempted peer's counter by exactly one |
| Reconnect.TryAllRecords | p2p-reconnect.js:2-35 | after the sweep each attempted peer's record reflects its own outcome and the others are unchanged |
| Reconnect.TryAllLinks | p2p-reconnect.js:2-35 | after the sweep each attempted peer has its new connection and a connecting channel, and the others are unchanged |
| Reconnect.TryAllLogs | p2p-reconnect.js:2-35 | the sweep closes exactly the displaced connections and schedules exactly the retries |
| Reconnect.AttemptedDistinct | p2p-reconnect.js:23-27 | no peer is attempted twice in one sweep |
| FileTransfer.FilledCountFull | p2p-file-transfer.js:36-38 | the count of filled slots reaches the slot count iff every slot is filled |
| FileTransfer.FirstDataIffDelivered | p2p-file-transfer.js:29-31 | with non-empty chunk data, a slot is filled iff some chunk for its index arrived |
| FileTransfer.StartTracks | p2p-file-transfer.js:6-18 | a new transfer has every slot empty and a count of 0 |
| FileTransfer.AcceptTracks | p2p-file-transfer.js:21-40 | after each chunk, every slot holds the first data for its index and the count equals the filled slots until assembly |
| FileTransfer.AcceptAllTracks | p2p-file-transfer.js:21-40 | the same holds after any sequence of chunks |
| FileTransfer.AssembledIffAllIndicesArrived | p2p-file-transfer.js:21-40 | a transfer with chunks is assembled iff every index 0..n-1 arrived, and the slots then hold the first data for each index |
| FileTransfer.EmptyChunkDriftsCount | p2p-file-transfer.js:29-31 | a chunk with empty data is counted but leaves its slot empty, so the count no longer equals the filled slots |
| FileTransfer.Transfer.constructor | p2p-file-transfer.js:6-18 | a new transfer has the sender's metadata, `totalChunks` empty slots and a count of 0 |
| FileTransfer.Transfer.StoreChunk | p2p-file-transfer.js:29-31 | a chunk is written and counted iff its slot was empty |
| FileTransfer.Transfer.JoinChunks | p2p-file-transfer.js:48-55 | joining succeeds iff every slot is filled, and gives the slots joined in index order |
| Client.Finalized | p2p-connection.js:284-307 | a blank id is refused; an unknown id is registered; with a connection and a local description, the registered or existing record gets that offer through the savePeerOffer update, and nothing else of it changes; other peers are untouched |
| Client.P2PClient.constructor | p2p-core.js:3-47 | a new client has empty collections, watermark 0, a cap of 5 attempts and a 500 ms retry delay (and an empty transfer map, see below) |
| Client.P2PClient.SendToPeer | p2p-core.js:264-271 | sends, and returns true, iff the peer's channel is open |
| Client.P2PClient.BroadcastToPeers | p2p-core.js:274-280 | sends to every open channel once, in map order |
| Client.P2PClient.SyncWithPeer | p2p-core.js:243-261 | for a valid id, sends the peer a sync request with the watermark and counts if its channel is open |
| Client.P2PClient.SetupDataChannel | p2p-core.js:115-146 | registers the channel under the peer's id |
| Client.P2PClient.OnChannelOpen | p2p-core.js:116-121 | the peer becomes connected and the client online |
| Client.P2PClient.OnChannelClose | p2p-core.js:123-139 | the peer is dropped, the client goes offline with the last peer, and a reconnect is scheduled unless the startup sweep runs |
| Client.P2PClient.OnConnectionStateChange | p2p-connection.js:2-40 | `connected` marks the peer, resets its counter and syncs; `disconnected` or `failed` drops it and schedules a reconnect; other states change nothing |
| Client.P2PClient.OnOffererStateChange | p2p-connection.js:76-103 | on `connected`, the offerer finalizes the peer, marks it and syncs; on a loss it drops it |
| Client.P2PClient.OnAnswererStateChange | p2p-connection.js:164-198 | on `connected`, the answerer records its answer, marks the peer and syncs; on a loss it drops it |
| Client.P2PClient.CheckPeer | p2p-core.js:163-193 | one sweep step: a peer coming up is marked and sent a sync request; a peer going down is unmarked and gets a reconnect |
| Client.P2PClient.CheckPeersStatus | p2p-core.js:162-198 | the sweep reconciles the connected set, sends and schedules per `SyncSends` and `RetryTimers`, and sets online iff some peer is connected |
| Client.P2PClient.RefreshIceCandidates | p2p-core.js:219-240 | for a peer with a connection, a new offer is saved; an SDP error clears the saved one; otherwise nothing changes |
| Client.P2PClient.SavePeerOffer | p2p-ui-storage.js:295-321 | the peer map becomes `OfferSaved` of the old one |
| Client.P2PClient.ClearSavedOffer | p2p-reconnect.js:119-126 | the peer map becomes `OfferCleared` of the old one |
| Client.P2PClient.RemovePeer | p2p-ui-storage.js:423-446 | the peer is removed from `peers`, `connections`, `dataChannels` and `connectedPeers`, and its connection is closed first; the reconnect counter and the peer's state entry are kept, so a peer registered again keeps its old counter |
| Client.P2PClient.KillAllData | p2p-ui-storage.js:475-501 | history, files, peers, connections, channels and states are emptied, the watermark is 0, and the id is renewed when storage allows |
| Client.P2PClient.AddMessageToHistory | p2p-ui-storage.js:387-420 | the history becomes `Insert` of the old one; it returns true iff the id was new; a stored kill wipes the client |
| Client.P2PClient.HandleSyncRequest | p2p-ui-storage.js:324-351 | answers with the messages newer than the requester's watermark and the files it did not list |
| Client.P2PClient.MergeIncoming | p2p-ui-storage.js:361-366 | the history becomes `MergeAll` of the old one, and everything is wiped if a kill is stored |
| Client.P2PClient.SaveUnknownFiles | p2p-ui-storage.js:369-374 | hands storage the unstored incoming files in order, stops after the first save that throws, and reports whether it reached the end |
| Client.P2PClient.HandleSyncResponse | p2p-ui-storage.js:354-384 | merges the messages and saves the unknown files; the watermark rises to the response's timestamp only when no save threw |
| Client.P2PClient.HandleIncomingMessage | p2p-core.js:283-335 | text is stored with the sender and a stamped time, and a `kill` text wipes; a file is stored and referenced; sync messages are answered or merged; `kill_command` wipes; anything else is ignored |
| Client.P2PClient.CreateOffer | p2p-connection.js:43-121 | registers a connection and a connecting channel under the new id and keeps the offer as pending, or reports the error |
| Client.P2PClient.HandleOffer | p2p-connection.js:124-232 | a blank or known id is refused; otherwise the peer is registered with its connection and an answer blob is produced when negotiation succeeds |
| Client.P2PClient.HandleAnswer | p2p-connection.js:235-281 | with a pending offer and a valid id, the connection moves from the temporary id to the real one and the peer is registered; success saves the offer and clears the pending one |
| Client.P2PClient.FinalizePeerConnection | p2p-connection.js:284-307 | the peer map becomes `Finalized` of the old one |
| Client.P2PClient.ProcessSignalData | p2p-connection.js:310-345 | classifies the pasted text and hands offers and answers to their handlers; everything else changes nothing |
| Client.P2PClient.CreateReconnectionOffer | p2p-reconnect.js:85-116 | closes the old connection, registers the new one with a connecting channel, and saves the offer or reports the error |
| Client.P2PClient.ReconnectToPeer | p2p-reconnect.js:38-82 | a valid, known, unconnected peer below the cap gets one `TryOnce` attempt; any other call changes nothing; counters stay under the cap |
| Client.P2PClient.AttemptReconnect | p2p-reconnect.js:55-81 | the attempt past the guards is exactly `TryOnce` |
| Client.P2PClient.OnReconnectFailure | p2p-reconnect.js:66-81 | an SDP error clears the saved offer, and a retry is scheduled iff one more attempt stays below the cap |
| Client.P2PClient.AutoReconnectOnStart | p2p-reconnect.js:2-35 | visits every non-blank known peer once, attempts exactly `Attempted` of them with no repeats, has the effect of `TryAll`, and clears the in-progress flag when there was any peer |
| Client.P2PClient.HandleFileTransferStart | p2p-file-transfer.js:2-19 | a chunk count that `new Array` accepts opens a fresh transfer with the sender's metadata; any other count changes nothing |
| Client.P2PClient.HandleFileTransferComplete | p2p-file-transfer.js:94-99 | the transfer is forgotten |
| Client.P2PClient.HandleFileTransferError | p2p-file-transfer.js:101-105 | the named transfer, if any, is forgotten |
| Client.P2PClient.AssembleFileFromChunks | p2p-file-transfer.js:42-92 | with every slot filled, the file is stored, a message references it and the transfer is removed; otherwise nothing changes |
| Client.P2PClient.HandleFileTransferChunk | p2p-file-transfer.js:21-40 | an unknown transfer is ignored; a chunk moves the transfer by `Accept` and assembles it when the count completes; other transfers are untouched |
| Client.P2PClient.SendSmallFile | p2p-file-transfer.js:108-169 | a file over 256 KiB is refused with nothing changed; otherwise it is stored, referenced in the history and broadcast three times, and the call reports failure |
| Client.P2PClient.BroadcastTimes | p2p-file-transfer.js:145-160 | `times` full broadcasts of the payload, each over the whole channel map |
| Legacy.LegacyTryOnce | p2p-client.js:142-167 | a legacy attempt matches the split one in counter, connection, channel and retry, but closes nothing and never replaces or clears a saved offer |
| Legacy.LegacyTryOnceByParts | p2p-client.js:142-167 | the pieces of the legacy attempt add up to `LegacyTryOnce` |
| Legacy.FailingChain | p2p-client.js:159-167 | counting attempt by attempt, a chain of failing retries makes exactly the attempts left under the cap |
| Legacy.FailingRetriesCount | p2p-client.js:131-168 | a legacy reconnect whose attempts all throw, each followed by the retry it scheduled, makes `FailingChain` attempts and stops with the counter at the cap |
| Legacy.LegacyClient.constructor | p2p-client.js:3-41 | a new legacy client has empty collections, a cap of 3 attempts and a 5000 ms retry delay |
| Legacy.LegacyClient.SendToPeer | p2p-client.js:1232-1239 | sends, and returns true, iff the peer's channel is open |
| Legacy.LegacyClient.BroadcastToPeers | p2p-client.js:1242-1248 | sends to every open channel once |
| Legacy.LegacyClient.SavePeerOffer | p2p-client.js:336-342 | the peer map becomes `LegacyOfferSaved` of the old one |
| Legacy.LegacyClient.RemovePeer | p2p-client.js:1129-1145 | the peer is removed from `peers`, `connections`, `dataChannels` and `connectedPeers`, and its connection is closed first; the reconnect counter and the peer's state entry are kept, so a peer registered again keeps its old counter |
| Legacy.LegacyClient.CreateReconnectionOffer | p2p-client.js:171-196 | replaces the connection without closing the old one, and saves the offer or reports the error |
| Legacy.LegacyClient.ConnectWithSavedOffer | p2p-client.js:199-220 | replaces the connection with a connecting channel and leaves the peer record alone |
| Legacy.LegacyClient.ReconnectToPeer | p2p-client.js:131-168 | a known, unconnected peer below the cap gets one `LegacyTryOnce` attempt; any other call changes nothing |
| Legacy.LegacyClient.AttemptReconnect | p2p-client.js:142-167 | the attempt past the guards is exactly `LegacyTryOnce` |
| Legacy.LegacyClient.ClearChat | p2p-client.js:481-490 | once confirmed, the history and files are emptied and the watermark is 0; otherwise nothing changes |
| Legacy.LegacyClient.KillAllData | p2p-client.js:493-517 | history, files, peers, connections, channels, connected set and peer states are emptied, the watermark is 0 and the new id is taken; the counters are kept |
| Legacy.LegacyClient.AddMessageToHistory | p2p-client.js:1100-1126 | the history becomes `Insert` of the old one and it returns true iff the id was new; a stored kill wipes the history, files and contacts, and its `kill_command` broadcast sends nothing because the channels are already gone |
| Legacy.LegacyClient.HandleSyncRequest | p2p-client.js:1037-1064 | answers with the messages newer than the requester's watermark and the files it did not list |
| Legacy.LegacyClient.MergeIncoming | p2p-client.js:1074-1079 | the history becomes `MergeAll` of the old one, and a stored kill wipes the contacts |
| Legacy.LegacyClient.AddUnknownFiles | p2p-client.js:1082-1087 | the file map becomes `MergeFiles` of the old one |
| Legacy.LegacyClient.HandleSyncResponse | p2p-client.js:1067-1097 | merges messages and files and raises the watermark to the response's timestamp |

## Left out

- WebRTC itself is not modelled. Connections are opaque handles, and channels
  are reduced to their ready state. Every awaited browser call is given to the
  model as an outcome: a value or an error. ICE gathering and the contents of
  an SDP are not modelled.
- Asynchronous interleaving is not modelled. Each handler is one atomic step.
- `handleSyncResponse` is the main case the atomic steps miss. In
  `p2p-ui-storage.js`, `handleSyncResponse` calls the async
  `addMessageToHistory` without `await`. The pushes run at once, but the
  watermark update and the kill wipe run later. The real wipe therefore also
  removes messages stored after the kill in the same response, and it can run
  after line 377 has raised the watermark.
- When several wipes happen in one step they all reuse one new peer id.
- The DOM, the UI refresh, modals and `confirm` are left out. A confirmation
  becomes a `bool` input.
- Persistence is left out: IndexedDB, `localStorage`, `saveToStorage` and
  loading at start-up. A failed id write becomes a `None` new id.
- `saveFileToStorage`, `getFile` and `clearChatData` are not part of this
  model. File saves are recorded in the `fileSaves` log.
- Client.P2PClient.SaveUnknownFiles, Client.P2PClient.HandleSyncResponse: a
  save either completes or throws (`saveThrows`), and a throw ends the file
  loop before the watermark update. The model assumes a save never changes
  `files`. So a file saved from a response does not enter `files` in the
  model, and a repeated response saves it again.
- JSON, Base64 and `FileReader` are left out. A parsed message is an input, and
  decoding is a partial function passed in.
- The clock, `Math.random` and generated ids are inputs. Non-string ids and
  `NaN` timestamps are not modelled.
- The order of `Map` iteration is a ghost out-parameter. The model proves that
  each order lists every key once.
- The split client's `clearChat` (p2p-ui-storage.js:449-473) is not modelled.
  It only calls `clearChatData` and broadcasts `clear_chat_command`; the legacy
  `clearChat` is modelled.
- Several operations are not modelled: `refreshConnections`, `sendMessage`,
  `sendFile`, `formatFileSize`, the timer of the reconnect modal, and the
  sending side of chunked transfers.
- Three legacy operations are not modelled: `autoReconnectOnStart`,
  `setupConnectionHandlers` and `syncWithPeer`. Their state changes are the
  split client's, minus the blank-id checks. The legacy startup sweep also
  attempts blank ids, and that is not modelled.
- The transfer handlers (`handleFileTransferStart` and the rest) can be called
  directly on a transfer map that starts empty. The source never initialises
  `fileTransfers` in the constructor (p2p-core.js:3-47). Its dispatcher
  (p2p-core.js:283-335) never routes `file_transfer_*` messages to them.
- Client.P2PClient.ReconnectToPeer: keeps only the counter cap of `Valid()`
  in its contract. Unique message ids are untouched because the method does
  not modify `messages`.
- Client.P2PClient.AutoReconnectOnStart: states the cap, but not the unique
  ids, for the same reason.
- Legacy.LegacyClient.ReconnectToPeer: states the cap, but not the unique ids,
  for the same reason.
- Legacy.LegacyClient.AttemptReconnect: the saved-offer path ignores the value
  of its outcome. Only whether `setLocalDescription` threw matters there.
