# Distributed chat: verified models of the message, attachment and session protocols

This project models the parts of the chat system whose correctness does not show in any single
function: the end-to-end text protocol between two clients and the chat server, the encrypted
attachment store and its crash-safe upload, avatar publication and reclamation, and the runtime
they stand on (executor, connection pools, framing, send queue, request gate, rate limiter).
Every statement is a Dafny contract or lemma over all inputs, all interleavings or all reachable
states of the model; `dafny verify dfyconfig.toml` checks all of it.

Where the source updates fields in place the model is a class whose methods are proved equal to
a step function on values; invariants and theorems are then proved about runs of those steps
(`Runs.dfy`). Locked sections and transactions are single steps, and database errors, crashes,
lost or repeated frames, timers and replies are events that may come at any point.

## How the parts fit together

- **Text messages.** `MessageStore` (the client's database), `MessageServer` (acceptance,
  persistence, acknowledgement), `Delivery` (the redelivery window), `AckBatching`, `Scheduler`
  (the fair scan over sessions); `TextProtocol` composes them with a network that loses, repeats
  and reorders frames. `Outbox` follows a client's transmissions over its runs. `Rounds` shows what
  every loss-free round of delivery takes off a backlog and `TextProgress` that such rounds are
  always possible. `RowIds` refines acceptance into the database's transactions, which get their
  row ids at the insert and show their rows at the commit; `Overtaking` shows when a message keeps
  its place on the page, and `BackoffReset` is a run in which one does not.
- **Attachments.** `RecordFile` and `EncryptedFileStore` relate the bytes of the encrypted file
  to an abstract log of chunks; `Upload` is the chunk loop over file and row, `Attachment` the
  whole life of a transfer with crashes and power losses, `ResourceService` the same operations as methods on
  mutable state, `RangeStream` the ranged answer, and `Download` joins the last three. `Nonces`
  shows what is ever sealed under one nonce.
- **Avatars.** `Avatar` and `Thumbnail`.
- **Runtime.** `KeyedExecutor`, `ConnectionPool`, `Frames`, `FrameParsers`, `FrameStreams`,
  `SendQueue`, `TokenBucket`, `ResourceHttp`.

## What the models show about the code

Some properties one would expect do not hold of the code as it stands. For each there is a lemma
with the failing case and the exact condition under which the property holds.

- Redelivery backoff is forgotten when a still pending message leaves the page of 32 for one
  query. That happens when a transaction that got a smaller row id commits later:
  `BackoffReset.BackoffStartsOver` is a run of two overlapping requests in which a message is sent
  twice within two seconds. The gaps of at least 5, 10, 20, 40, 40, ... seconds hold for every
  choice of times exactly when no successful query between two listings of the message omits it
  (`Delivery.BackoffExactly`). A page lists a message exactly when fewer than 32 owed rows come
  before it (`Overtaking.ListedExactly`), only rows whose insert has already happened can still come
  before it (`Overtaking.OnlyOpenTransactionsOvertake`), and so the gaps hold over every run if, when
  the message is first listed, those are fewer than 32 together (`Overtaking.SecureBacksOff`).
- A record that was written but not flushed can be lost with the power, and another text can then
  be sealed under its nonce: `Nonces.PowerLossReseals`. The bytes of a file are extended by every
  operation except, exactly, a power loss that takes unflushed bytes (`Nonces.StepExtendsExactly`).
  A client that resumes the upload of one file never has two texts sealed under one nonce, power
  losses included (`Nonces.ResumedUploadSealsOnce`).
- What the client's parser dispatches is independent of how the stream is cut up except at its
  256 KiB buffer budget: `FrameStreams.OneBigRead` and, exactly, `FrameStreams.ClientSurvives`.
- The client's `writeFrame` would accept a file-transfer frame, although no path of this client
  writes one, and the server's header rule admits it; but its queue has no workers, so receiving one
  closes the session (`FrameStreams.FileFrameCloses`). With all other gates open, frames that
  `writeFrame` accepts are dispatched up to the first such frame, and the session survives exactly
  when there is none (`FrameStreams.ClientToServer`).
- An avatar upload inserts its reservation before it takes the avatar's lock. If a day passes in
  between, maintenance may reclaim the row. `Avatar.LateLockHappens` is a run in which the upload
  then writes all three sizes and is published, so that the user's current avatar has files but no
  row. `Avatar.LockDecides` gives the exact condition, and `Avatar.AvatarsSafe` holds of every run
  in which each lock finds its reservation standing.

## Model

| member | source | states |
|---|---|---|
| `MessageStore.SaveTransaction` | client/model/MessageStore.cpp:67-109 | saving a batch succeeds exactly when no row contradicts it and no database error occurs; then every text is stored once and the texts reported as new are the first occurrences of unknown keys, otherwise nothing changes |
| `MessageStore.FreshTextsAreNewAndDistinct` | client/model/MessageStore.cpp:67-109 | the keys reported as new are exactly the batch's keys that were not stored, each once |
| `MessageStore.AcceptTransaction` | client/model/MessageStore.cpp:110-135 | a reply marks all its rows accepted if each names exactly one matching pending or accepted row, and none otherwise |
| `MessageStore.Store.Save` | client/model/MessageStore.cpp:67-109 | the stored rows after a save, for every batch, peer and error |
| `MessageStore.Store.Accept` | client/model/MessageStore.cpp:110-135 | the stored rows after a server reply, with every refusal of the reply |
| `MessageStore.Store.Attempted` | client/model/MessageStore.cpp:159-172 | recording a transmission reschedules a pending row and touches nothing else |
| `MessageStore.SendsBackOff` | client/model/MessageStore.cpp:159-172 | successive sends of a stored message are at least 5, 10, 20, 40, 60, 60, ... seconds apart across restarts |
| `Outbox.StepSchedules` | client/network/TcpMgr.cpp:821-835 | a transmission finds its message due and reschedules it, and no other step of the protocol touches the schedule of a stored message |
| `Outbox.TransmissionsBackOff` | client/network/TcpMgr.cpp:821-835 | over every run of the protocol a client's transmissions of one message are at least 5, 10, 20, 40, 60, 60, ... seconds apart, across lost replies, restarts and a clock that steps back |
| `MessageServer.CheckBatch` | common/TextMessageService.h:17-42 | the validation loop accepts exactly the batches whose texts are well sized and whose bytes fit the budget |
| `MessageServer.ChatServer.AcceptTexts` | common/TextMessageService.h:17-42 | the verdict for every batch, and that only an accepted batch changes the table |
| `MessageServer.PersistTransaction` | servers/chat/storage/MysqlDao.cpp:579-625 | a batch is stored whole exactly when it repeats or extends the table consistently, and otherwise not at all; row ids stay distinct |
| `MessageServer.AckTransaction` | servers/chat/storage/MysqlDao.cpp:658-690 | an acknowledgement marks exactly the named rows of that receiver and sender, or nothing |
| `MessageServer.ChatServer.Acknowledge` | servers/chat/storage/MysqlDao.cpp:658-690 | the table after an acknowledgement, including refused arguments and errors |
| `MessageServer.PageSize` | servers/chat/storage/MysqlDao.cpp:627-656 | a page holds min(limit, n) of the n undelivered messages |
| `MessageServer.PageExists` | servers/chat/storage/MysqlDao.cpp:627-656 | the page query has an answer for every table |
| `MessageServer.PageUnique` | servers/chat/storage/MysqlDao.cpp:627-656 | the answer is unique |
| `AckBatching.AckBatches` | client/network/TcpMgr.cpp:591-618 | the frames hold every id once and in order; no frame could also have taken the next id; and every frame is within the limit if each id alone is |
| `AckBatching.AllFramesFit` | client/network/TcpMgr.cpp:591-618 | frames packed this way all fit when every id fits a frame of its own |
| `Delivery.DeliveryWindow.Reconcile` | common/DeliveryWindow.h:19-28 | the window keeps exactly the entries of the current page |
| `Delivery.DeliveryWindow.MarkSent` | common/DeliveryWindow.h:34-40 | a send schedules the next one and reports whether it was a retry |
| `Delivery.DeliveryState.Deliver` | servers/chat/service/LogicSystem.cpp:714-749 | one delivery turn on the mutable state equals the turn on values; a failed query leaves the window unchanged |
| `Delivery.PassSendsDueKeys` | servers/chat/service/LogicSystem.cpp:732-748 | a pass sends the due keys in page order until the socket queue is full |
| `Delivery.PassReschedules` | servers/chat/service/LogicSystem.cpp:732-748 | a pass reschedules exactly the keys it sent |
| `Delivery.WindowBounded` | servers/chat/service/LogicSystem.cpp:721-749 | after a successful query the window holds page keys only, at most 32 |
| `Delivery.FirstSendIsDue` | common/DeliveryWindow.h:29-32 | no send comes before the scheduled time, over any sequence of turns in which no omission of the message is followed by a listing |
| `Delivery.RedeliveryBacksOff` | common/DeliveryWindow.h:29-40 | while no successful query omits a message and a later one lists it again, its sends are at least 5, 10, 20, 40, 40, ... seconds apart, failed queries and full queues included |
| `Delivery.LeavingThePageResets` | common/DeliveryWindow.h:19-28 | after one successful query without the message, the next one that lists it sends it, however recent the last send |
| `Delivery.BackoffExactly` | common/DeliveryWindow.h:19-40 | for any sequence of query answers, the gaps hold for every choice of times and socket room if and only if no successful answer between two listings of the message omits it |
| `BackoffReset.BackoffStartsOver` | servers/chat/storage/MysqlDao.cpp:579-625 | a run of clients, server and database from the start: two senders' requests overlap, the one with row id 33 commits and is sent as the last of a page of 32, row 32 appears and a page omits it, one message is acknowledged, and it is sent again 2 seconds after its first send, pending throughout |
| `RowIds.StepRefines` | servers/chat/storage/MysqlDao.cpp:579-625 | every begin, insert, commit and rollback, with ids handed out in insert order and rows visible at the commit, is a step of the protocol, and keeps all row ids distinct and locked rows apart |
| `RowIds.RunRefines` | servers/chat/storage/MysqlDao.cpp:579-625 | so every run of overlapping transactions is a run of the protocol |
| `RowIds.CommitPersists` | servers/chat/storage/MysqlDao.cpp:605-614 | a committing transaction stores its batch whole, consistently with itself and the table |
| `Overtaking.OnlyOpenTransactionsOvertake` | servers/chat/storage/MysqlDao.cpp:579-625 | over every run, a row that appears later with an id below the present counter was already inserted by a transaction now open |
| `Overtaking.ListedExactly` | servers/chat/storage/MysqlDao.cpp:627-656 | an owed message is on the page exactly when fewer than 32 owed messages have smaller row ids |
| `Overtaking.SecureStays` | servers/chat/storage/MysqlDao.cpp:579-656 | the rows that come or may still come before a committed one never grow in number, so a message that fewer than 32 precede stays on every page until it is acknowledged |
| `Overtaking.ListedIsSecure` | servers/chat/storage/MysqlDao.cpp:579-656 | so does a listed message when no open transaction holds a smaller row id for its receiver |
| `Overtaking.WindowFollowsTurns` | servers/chat/service/LogicSystem.cpp:714-749 | the passes of a session in a run are exactly what moves its window |
| `Overtaking.SecureBacksOff` | common/DeliveryWindow.h:19-40 | over every run of clients, server and database, the sends of such a message in a session are at least 5, 10, 20, 40, 40, ... seconds apart |
| `Scheduler.VisitRotates` | servers/chat/service/LogicSystem.cpp:96-99 | visiting a session moves it from the front of the cyclic order to its back |
| `Scheduler.EraseRotates` | servers/chat/service/LogicSystem.cpp:100-105 | erasing a dead session takes exactly it out of the cyclic order |
| `Scheduler.Scan` | servers/chat/service/LogicSystem.cpp:87-110 | the scan visits a prefix of the cyclic order, at most 128, delivers to the live due ones of it, at most four, and leaves the rest in order |
| `Scheduler.Shard.Tick` | servers/chat/service/LogicSystem.cpp:87-110 | the same on the shard's own map and cursor |
| `Scheduler.RotationDistinct` | servers/chat/service/LogicSystem.cpp:96-99 | no session is met twice in one turn and none is left out |
| `Scheduler.ReachedByDistance` | servers/chat/service/LogicSystem.cpp:87-110 | a session p places away is visited within p / 4 + 1 calls, whichever sessions die |
| `Scheduler.EverySessionReached` | servers/chat/service/LogicSystem.cpp:87-110 | ceil(n / 4) calls visit every session |
| `TextProtocol.InvStep` | servers/chat/service/LogicSystem.cpp:569-749 | every step of clients, server, network and crashes keeps the protocol invariant and only adds to the databases |
| `TextProtocol.RunKeepsInv` | servers/chat/service/LogicSystem.cpp:569-749 | so does every run |
| `TextProtocol.NoAcceptedMessageLost` | client/network/TcpMgr.cpp:573-618 | in every reachable state an accepted message is on the server with its receiver and content, and an acknowledged one is in the receiver's and the sender's database |
| `TextProtocol.AcceptedForEver` | client/model/MessageStore.cpp:110-135 | in every later state an accepted message is still accepted in its sender's database, and on the server, with the same receiver and content |
| `TextProtocol.CopyIsSenders` | client/model/MessageStore.cpp:67-109 | every copy, stored or in flight, agrees with the sender's own row |
| `TextProtocol.CopiesAgree` | client/model/MessageStore.cpp:67-109 | in every reachable state any two copies of one (sender, id) agree on receiver and content: rows of any client, the server row, and request, reply and notify frames |
| `TextProtocol.DeliveredIsStorable` | client/model/MessageStore.cpp:67-109 | the receiver's conflict branch is unreachable for what the server delivers |
| `TextProtocol.ReportedAtMostOnce` | client/model/MessageStore.cpp:67-109 | each message is reported as new at most once per account over all restarts |
| `Rounds.RoundClearsPage` | servers/chat/service/LogicSystem.cpp:714-749 | in every run that starts with a pass with room over a due page, and in which every notify of it is received, acknowledged in full and confirmed, in any order and among any other steps, the whole page leaves the undelivered rows |
| `Rounds.EveryRoundRemoves` | servers/chat/service/LogicSystem.cpp:714-749 | of the n messages owed at its start every such round leaves at most n - min(32, n), also while new ones are accepted |
| `Rounds.RoundsDrain` | servers/chat/service/LogicSystem.cpp:714-749 | any ceil(n / 32) such rounds without new acceptances for the user leave nothing owed |
| `TextProgress.Round` | servers/chat/service/LogicSystem.cpp:714-749 | such a round exists from every state with a session that is ready, and leaves it ready |
| `TextProgress.BacklogDrains` | servers/chat/service/LogicSystem.cpp:714-749 | a sequence of ceil(n / 32) such rounds exists from every such state, and empties the backlog |
| `TextProgress.NewSessionReady` | servers/chat/service/LogicSystem.cpp:714-731 | a new session can start a round at any time |
| `RecordFile.NonceFor` | servers/chat/files/EncryptedFileStore.cpp:150-159 | the loop yields the prefix followed by the little-endian index |
| `RecordFile.NonceInjective` | servers/chat/files/EncryptedFileStore.cpp:150-159 | no two (prefix, index) pairs share a nonce |
| `RecordFile.LengthRoundTrip` | servers/chat/files/EncryptedFileStore.cpp:75-90 | a written record length reads back |
| `RecordFile.RecordAt` | servers/chat/files/EncryptedFileStore.cpp:194-257 | record k lies in the file at its computed position, with its length and ciphertext |
| `RecordFile.TornIsShort` | servers/chat/files/EncryptedFileStore.cpp:75-83 | a torn tail announces more bytes than it has, so it is never taken for a record |
| `RecordFile.AfterAppendValid` | servers/chat/files/EncryptedFileStore.cpp:194-257 | an append that stops after any number of bytes leaves a valid log: full chunks but the last, at most one torn tail |
| `RecordFile.AfterAppendEncodes` | servers/chat/files/EncryptedFileStore.cpp:194-257 | the log after an append encodes to the old bytes followed by the bytes that reached the disk |
| `RecordFile.AckedIsFlushed` | servers/chat/files/EncryptedFileStore.cpp:194-257 | an append is acknowledged only when everything it leaves in the file is flushed, and no append takes a flush back |
| `RecordFile.CrashedKeeps` | servers/chat/files/EncryptedFileStore.cpp:92-118 | a power loss that drops any part of the unflushed bytes keeps every flushed chunk |
| `RecordFile.CrashedValid` | servers/chat/files/EncryptedFileStore.cpp:92-118 | and leaves a valid log |
| `RecordFile.CrashedEncodes` | servers/chat/files/EncryptedFileStore.cpp:92-118 | which encodes to exactly the bytes that are left |
| `EncryptedFileStore.SkipConfirmed` | servers/chat/files/EncryptedFileStore.cpp:194-257 | the loop over confirmed records ends at the position of the wanted record, or shows which record is missing or partial |
| `EncryptedFileStore.DecideAtEnd` | servers/chat/files/EncryptedFileStore.cpp:194-257 | at the end of the confirmed records the bytes show exactly whether the chunk is new, an identical replay, or refused |
| `EncryptedFileStore.Append` | servers/chat/files/EncryptedFileStore.cpp:194-257 | on bytes, append only extends the file and does exactly the append on the log, with the same acknowledgement, whatever reaches the disk |
| `EncryptedFileStore.Read` | servers/chat/files/EncryptedFileStore.cpp:259-303 | on bytes, read returns exactly the chunk of the log or fails |
| `EncryptedFileStore.Sha256` | servers/chat/files/EncryptedFileStore.cpp:305-318 | the digest loop hashes exactly the content of the first chunks of the log |
| `EncryptedFileStore.ReadAfterAppend` | servers/chat/files/EncryptedFileStore.cpp:194-303 | an acknowledged chunk is what a read returns |
| `EncryptedFileStore.AppendKeepsChunks` | servers/chat/files/EncryptedFileStore.cpp:194-257 | an append never changes or moves a stored chunk |
| `EncryptedFileStore.TornIsFinal` | servers/chat/files/EncryptedFileStore.cpp:194-257 | a torn tail is neither overwritten nor extended |
| `Upload.ChunkBytes` | servers/resource/ResourceService.cpp:81-103 | the chunk loop on the file's bytes does what the loop on the abstract log does |
| `Upload.AppendInStep` | servers/resource/ResourceService.cpp:95-97 | an append at the confirmed offset keeps file and row in step, acknowledged or not |
| `Upload.CommitInStep` | servers/resource/ResourceService.cpp:98-100 | confirming the record keeps them in step |
| `Upload.ReplayInPlace` | servers/resource/ResourceService.cpp:92-94 | below the confirmed offset the loop only compares and never passes it |
| `Upload.AppendInPlace` | servers/resource/ResourceService.cpp:89-100 | append is only ever called at exactly the confirmed offset, with a full chunk or the last one |
| `Upload.LoopKeeps` | servers/resource/ResourceService.cpp:81-103 | whatever fails, the offset does not decrease and never passes what is flushed, stored chunks do not change, file and row stay in step, every part the offset has moved past is in the file even if the reply is an error, and an acknowledged request is stored in full |
| `Upload.LoopAddsParts` | servers/resource/ResourceService.cpp:81-103 | whatever the reply, every chunk that is new in the file is the part of the request that belongs there |
| `Attachment.ChunkKeeps` | servers/resource/ResourceService.cpp:81-103 | a chunk request keeps the transfer invariant and only moves it onward |
| `Attachment.CompleteKeeps` | servers/resource/ResourceService.cpp:107-117 | so does completion: only a whole file with the declared digest is published |
| `Attachment.CreateKeeps` | servers/resource/ResourceService.cpp:75-79 | so does creation, with a commit that may be lost |
| `Attachment.CancelKeeps` | servers/resource/ResourceService.cpp:146-150 | so does a deletion request |
| `Attachment.DownloadedKeeps` | servers/resource/ResourceService.cpp:153-155 | so does the receiver's download notice |
| `Attachment.MaintainKeeps` | servers/resource/ResourceService.cpp:229-237 | so does maintenance, also when it crashes between file and row |
| `Attachment.PowerLossKeeps` | servers/resource/ResourceService.cpp:95-100 | so does a power loss that drops unflushed bytes at any point |
| `Attachment.CrashedInStep` | servers/resource/ResourceService.cpp:95-100 | after it file and row are still in step, because the offset moves only after the flush |
| `Attachment.StepKeeps` | servers/resource/ResourceService.cpp:53-237 | every operation keeps the invariant |
| `Attachment.RunKeeps` | servers/resource/ResourceService.cpp:53-237 | so does every sequence of operations, failures, crashes and power losses |
| `Attachment.UploadSurvivesCrashes` | servers/resource/ResourceService.cpp:81-103 | after any run the confirmed offset is 32 KiB aligned or the total, the file holds the confirmed bytes, all of them flushed, and at most one record more, and the offset never goes back |
| `Attachment.ConfirmedBytesStay` | servers/resource/ResourceService.cpp:81-103 | every byte of a request that was acknowledged, or that the offset has moved past although the reply was an error or got lost, is in the file in every later state in which the file exists |
| `Attachment.ResumedUploadIsTheFile` | servers/resource/ResourceService.cpp:81-103 | if every chunk request of a run carries a slice of one string at its offset, then in every state with a file its content is a prefix of that string, the confirmed bytes are exactly its first `offset` bytes, and a published file is the string up to the declared size |
| `Attachment.BytesNeverChange` | servers/chat/files/EncryptedFileStore.cpp:194-257 | over every run without a power loss the bytes of the file are only extended, and a torn tail is final |
| `Nonces.StepExtendsExactly` | servers/chat/files/EncryptedFileStore.cpp:92-118 | an operation extends the bytes of a file that stays if and only if it is not a power loss that takes unflushed bytes |
| `Nonces.PowerLossReseals` | servers/chat/files/EncryptedFileStore.cpp:194-257 | a run in which two different texts are sealed under one nonce, with a power loss between them |
| `Nonces.ResumedUploadSealsOnce` | servers/chat/files/EncryptedFileStore.cpp:194-257 | if every chunk request of a run carries a slice of one string at its offset, then of the files at any two moments one is a beginning of the other, torn tails and power losses included, so nothing is sealed twice under one nonce |
| `Attachment.PublishedFileIsFixed` | servers/resource/ResourceService.cpp:107-117 | once published, every later read is a slice of one string of the declared size and digest, and the status never returns to uploading |
| `Attachment.EventFollowsPublication` | servers/resource/ResourceService.cpp:104-117 | the publish event exists exactly from publication to deletion of the row, and a readable row has all its bytes |
| `Attachment.PublishedIsReadable` | servers/resource/ResourceService.cpp:171-175 | while a row is published and unexpired every chunk of its file can be read |
| `ResourceService.Transfer.CreateUpload` | servers/resource/ResourceService.cpp:53-80 | creation on the mutable state is the creation step |
| `ResourceService.Transfer.PutChunk` | servers/resource/ResourceService.cpp:81-103 | the chunk request on row and file bytes is the chunk step |
| `ResourceService.Transfer.CompleteUpload` | servers/resource/ResourceService.cpp:107-117 | completion is the completion step |
| `ResourceService.Transfer.Delete` | servers/resource/ResourceService.cpp:146-150 | deletion is the cancel step |
| `ResourceService.Transfer.PostDownloaded` | servers/resource/ResourceService.cpp:153-155 | the download notice is its step |
| `ResourceService.Transfer.Collect` | servers/resource/ResourceService.cpp:229-237 | collection is the maintenance step |
| `ResourceService.Transfer.LosePower` | servers/chat/files/EncryptedFileStore.cpp:92-118 | a power loss that leaves any prefix of the file bytes reaching past the flushed ones is the power-loss step |
| `ResourceService.Transfer.ReadChunk` | servers/resource/ResourceService.cpp:171-175 | a read returns the chunk exactly while the file is published and not expired |
| `RangeStream.SelectRange` | servers/resource/ResourceService.cpp:157-167 | an accepted range lies inside the file and a partial one is not empty (section 14.1.2 of RFC 9110) |
| `RangeStream.ClosedRange` | servers/resource/ResourceService.cpp:157-167 | "bytes=a-b" selects bytes a to b clipped to the file, or is refused |
| `RangeStream.OpenRange` | servers/resource/ResourceService.cpp:157-167 | "bytes=a-" selects the rest from a, or is refused |
| `RangeStream.SuffixRange` | servers/resource/ResourceService.cpp:157-167 | "bytes=-n" selects the last n bytes, or the whole file |
| `RangeStream.ContentRangeNamesSelection` | servers/resource/ResourceService.cpp:157-167 | asking for the range that the Content-Range header states selects the same bytes, however the request put it |
| `RangeStream.Stream` | servers/resource/main.cpp:68-87 | the record-aligned loop sends a prefix of exactly the selected bytes, all of them unless a read fails, and ends |
| `Download.ReadsAreFaithful` | servers/resource/ResourceService.cpp:171-175 | reads of a published file, each in whatever state the service has reached by then, return chunks of one string |
| `Download.ServeRange` | servers/resource/main.cpp:68-87 | a ranged answer sends exactly the selected bytes of the published file while other requests, crashes and maintenance go on, all of them if the file is published and unexpired at every read, and its Content-Range header states exactly the bytes of a complete partial answer |
| `Avatar.StepKeeps` | servers/resource/Avatar.cpp:61-88 | every step of uploads, crashes and collection keeps the avatar invariant, if a lock is taken while its row stands |
| `Avatar.CommitKeeps` | servers/resource/Avatar.cpp:79-87 | publication keeps it: the new avatar is complete, the old one starts to expire |
| `Avatar.AvatarsSafe` | servers/resource/Avatar.cpp:61-88 | over every interleaving in which each lock finds its reservation standing, a current avatar has a row that does not expire and three complete files, no file is unlisted, and every other row expires |
| `Avatar.PromptLocksStand` | servers/resource/Avatar.cpp:61-73 | locks taken before their deadline find it standing |
| `Avatar.ReservationStands` | servers/resource/ResourceService.cpp:214-228 | before its deadline a reservation is never reclaimed |
| `Avatar.LockDecides` | servers/resource/Avatar.cpp:67-73 | after the lock, the next file is unlisted exactly when the row had been reclaimed before the lock |
| `Avatar.LateLockHappens` | servers/resource/Avatar.cpp:61-88 | a run from the start in which a reservation is reclaimed before its lock, the upload writes its three sizes and is published, and the user's current avatar has files and no row |
| `Avatar.LateCommitDangles` | servers/resource/Avatar.cpp:83-85 | publishing any upload whose row is gone makes current an avatar without a row |
| `Avatar.SameVersionWinsOnce` | servers/resource/Avatar.cpp:79-83 | of two uploads of one user naming the same version at most one is published (section 13.1.1 of RFC 9110) |
| `Avatar.WriteVariants` | servers/resource/Avatar.cpp:69-78 | the loop over sizes ends with all three variants listed and stored completely |
| `Avatar.WriteOne` | servers/resource/Avatar.cpp:70-77 | one turn of it lists the size, then writes the file chunk by chunk to its full length |
| `Avatar.Collect` | servers/resource/ResourceService.cpp:218-228 | collecting a reclaimable avatar removes all its files and its row |
| `Avatar.VersionCountsUpdates` | servers/resource/Avatar.cpp:81-83 | bookkeeping: in every run, late locks included, the version is the number of published updates |
| `Thumbnail.BlockInside` | servers/resource/Avatar.cpp:41-46 | every sample block is non-empty and inside the centred square |
| `Thumbnail.BlocksAdjoin` | servers/resource/Avatar.cpp:44-46 | with at least one source pixel per output pixel each block ends where the next begins |
| `Thumbnail.BlocksAreSinglePixels` | servers/resource/Avatar.cpp:44-46 | with fewer, every block is a single pixel |
| `Thumbnail.SampledExactlyOnce` | servers/resource/Avatar.cpp:43-46 | every source column of the square is sampled by exactly one output column |
| `Thumbnail.PixelSampledOnce` | servers/resource/Avatar.cpp:41-49 | every source pixel of the square lies in the block of exactly one output pixel |
| `Thumbnail.SampleInBuffer` | servers/resource/Avatar.cpp:48-49 | every sample index lies in the pixel buffer |
| `Thumbnail.MeanBetween` | servers/resource/Avatar.cpp:47-50 | every output value lies between the least and the greatest value sampled |
| `Thumbnail.MeanIsByte` | servers/resource/Avatar.cpp:50 | so it fits an unsigned char |
| `Thumbnail.SizesFit` | servers/resource/Avatar.cpp:40-45 | for every size, no 32-bit product wraps for any decoded image if and only if the size is at most 37837 |
| `Thumbnail.BlockSums` | servers/resource/Avatar.cpp:47-49 | the inner loops add up exactly the three channels of the block |
| `Thumbnail.Shrink` | servers/resource/Avatar.cpp:39-51 | every output position holds the mean of its block |
| `KeyedExecutor.StepKeepsInv` | common/KeyedExecutor.h:51-139 | every post, take, finish and stop keeps the executor invariant |
| `KeyedExecutor.TasksConserved` | common/KeyedExecutor.h:51-139 | in every state of every run accepted = queued + running + completed + cancelled, and no queue exceeds the capacity |
| `KeyedExecutor.SameKeyInOrder` | common/KeyedExecutor.h:109-138 | tasks of one shard start in acceptance order and never overlap |
| `KeyedExecutor.OneShardPerKey` | common/KeyedExecutor.h:48-52 | equal keys share a shard |
| `KeyedExecutor.StopTerminates` | common/KeyedExecutor.h:66-84 | once stopping, worker steps lower the remaining work, nothing raises it, and it is zero exactly when the worker has left |
| `KeyedExecutor.WorkerCanStep` | common/KeyedExecutor.h:109-138 | a stopping worker that has not left can always go on |
| `KeyedExecutor.DrainRunsEverything` | common/KeyedExecutor.h:66-84 | after a draining stop every accepted task has run exactly once, in order |
| `KeyedExecutor.DrainingStopEnds` | common/KeyedExecutor.h:66-84 | and it ends within a number of worker steps fixed by the queue |
| `KeyedExecutor.Workers.PostTask` | common/KeyedExecutor.h:51-64 | a post is accepted exactly when the shard is running and has room |
| `KeyedExecutor.Workers.TakeTask` | common/KeyedExecutor.h:125-130 | a worker takes the oldest task |
| `KeyedExecutor.Workers.FinishTask` | common/KeyedExecutor.h:102-108 | a task that throws still completes |
| `KeyedExecutor.EveryShardStopped` | common/KeyedExecutor.h:66-84 | stopping the shards one after the other stops each as if alone |
| `KeyedExecutor.Workers.Stop` | common/KeyedExecutor.h:66-84 | the loop stops every shard and, unless draining, cancels what is queued |
| `ConnectionPool.PoolConserved` | common/MysqlConnectionPool.h:120-294 | over every interleaving the live count is exact and within the pool size, and every connection made is in exactly one place, once |
| `ConnectionPool.OnePlace` | common/RedisConnectionPool.h:97-278 | no connection is idle, lent, under a health check or freed at the same time as another of these, and none is freed twice |
| `ConnectionPool.NoUnderflow` | common/MysqlConnectionPool.h:134-275 | no decrement of the count is ever skipped by its guard or wraps |
| `ConnectionPool.ClosedStaysEmpty` | common/MysqlConnectionPool.h:167-189 | after close the idle queue stays empty for ever and nobody borrows or creates |
| `ConnectionPool.ClosedPoolFreesAll` | common/RedisConnectionPool.h:145-167 | when a closed pool has everything back, every connection ever made has been freed exactly once |
| `ConnectionPool.BoundedPool.GetConnection` | common/MysqlConnectionPool.h:120-132 | a borrow takes the oldest idle connection unless stopped or empty |
| `ConnectionPool.BoundedPool.ReturnConnection` | common/RedisConnectionPool.h:125-139 | a return keeps the connection while the pool is open and frees it afterwards |
| `ConnectionPool.BoundedPool.DiscardConnection` | common/RedisConnectionPool.h:227-233 | a discard frees the connection and then gives its place back |
| `ConnectionPool.BoundedPool.ReservePlace` | common/RedisConnectionPool.h:196-204 | the first locked section of a creation reserves a place unless the pool is stopped or full |
| `ConnectionPool.BoundedPool.FinishCreation` | common/RedisConnectionPool.h:206-225 | the second, in any state of the pool: the connection becomes idle, or its place is given back when it failed or the pool has stopped meanwhile |
| `ConnectionPool.BoundedPool.CreateOneConnection` | common/RedisConnectionPool.h:196-225 | the two in sequence |
| `ConnectionPool.BoundedPool.CheckIdleConnections` | common/MysqlConnectionPool.h:240-275 | an undisturbed health pass keeps the healthy connections in order and lowers the count by the others |
| `ConnectionPool.BoundedPool.TakeForCheck` | common/MysqlConnectionPool.h:247-255 | the health check takes the oldest idle connection unless stopped or empty |
| `ConnectionPool.BoundedPool.FinishCheck` | common/MysqlConnectionPool.h:257-274 | after the test, in any state of the pool, a healthy connection goes back, or is freed after a stop, and any other is discarded |
| `ConnectionPool.BoundedPool.CheckFront` | common/MysqlConnectionPool.h:247-274 | the two in sequence |
| `ConnectionPool.BoundedPool.Close` | common/RedisConnectionPool.h:145-167 | close stops the pool and frees every idle connection |
| `Frames.DecodeEncodes` | servers/chat/network/MsgNode.cpp:7-17 | round trip: admitted frames followed by anything decode to themselves first |
| `Frames.DecodeIsExact` | client/network/TcpMgr.cpp:61-116 | unique decoding: a stream is the encoding of what was read and then what is left, only admitted frames are read, and nothing readable is left |
| `Frames.DecodeAppend` | client/network/TcpMgr.cpp:61-116 | a stream that arrives in two parts reads as one |
| `Frames.BadStaysBad` | client/network/TcpMgr.cpp:86-100 | a refused header stays refused, whatever follows |
| `FrameParsers.Parse` | client/network/TcpMgr.cpp:73-115 | the client's buffer loop decodes exactly the stream it holds |
| `FrameParsers.ClientParser.ReadyRead` | client/network/TcpMgr.cpp:61-116 | a read dispatches exactly the frames completed by it, and aborts exactly at a refused header or an overflow |
| `FrameParsers.ClientParser.ResetParser` | client/network/TcpMgr.cpp:736-741 | a reset parser holds nothing |
| `FrameParsers.ServerReader.ReadSome` | servers/chat/network/CSession.cpp:172-317 | the head and body reads are the read step on values, for every piece and every answer of the gates |
| `FrameParsers.ReadStepDecodes` | servers/chat/network/CSession.cpp:172-317 | one such read carries the decoder of the stream one piece further, and closes exactly at a refused header or a gate that fails |
| `FrameStreams.ChunkingDoesNotMatter` | client/network/TcpMgr.cpp:61-116 | for a decoder that buffers without limit, any split of a stream gives the same frames, the same survival and the same leftover |
| `FrameStreams.ClientSurvives` | client/network/TcpMgr.cpp:62-67 | the client survives a well-formed stream exactly when no read overflows its buffer, and then dispatches all of it |
| `FrameStreams.SmallReadsFit` | client/network/TcpMgr.cpp:62-67 | reads of up to 196610 bytes never overflow |
| `FrameStreams.OneBigRead` | client/network/TcpMgr.cpp:62-67 | more than 256 KiB of good frames in one read are lost although smaller reads dispatch them all |
| `FrameStreams.DispatchedPrefix` | client/network/TcpMgr.cpp:82-100 | exactly the frames before the first refused one are dispatched |
| `FrameStreams.ReceiveAll` | client/network/TcpMgr.cpp:61-116 | a sequence of client reads on the mutable parser is the run on values that the stream results speak of |
| `FrameStreams.ServerDispatches` | servers/chat/network/CSession.cpp:172-317 | for any pieces and any answers of the gates, what the server dispatches is a prefix of the decoded stream, all of it unless it closes, and it closes exactly when a header is refused or a gate fails |
| `FrameStreams.OpenGatesDispatch` | servers/chat/network/CSession.cpp:205-224 | with open gates it dispatches exactly the frames before the first file-transfer frame |
| `FrameStreams.ServeAll` | servers/chat/network/CSession.cpp:172-317 | a sequence of server reads on the mutable reader is that run on values |
| `FrameStreams.ClientToServer` | client/network/TcpMgr.cpp:837-882 | for every sequence of frames the client agrees to write, cut into any pieces and with open gates, the server dispatches exactly those before the first file-transfer frame, and stays open exactly when there is none |
| `FrameStreams.FileFrameCloses` | servers/chat/service/LogicSystem.cpp:155-158 | a file-transfer frame that the client writes closes the session and is not dispatched |
| `FrameStreams.ServerToClient` | servers/chat/network/CSession.cpp:79-111 | what the server sends is dispatched up to the first frame the client refuses, and the connection survives exactly when there is none |
| `SendQueue.StepKeeps` | servers/chat/network/CSession.cpp:79-130 | every send, write and close keeps the queue invariant |
| `SendQueue.QueueRefinesFifo` | servers/chat/network/CSession.cpp:319-346 | over every interleaving the byte count is exact and within 4 MiB, at most 1000 frames wait, one write is in flight at most and one whenever an open session has frames, and accepted = written + queued in order |
| `SendQueue.WireIsPrefix` | servers/chat/network/CSession.cpp:319-346 | the socket has carried a prefix of the encodings of the accepted frames, and all once the queue is empty |
| `SendQueue.PeerDispatchesAcceptedPrefix` | servers/chat/network/CSession.cpp:79-130 | end to end, what the client has dispatched is a prefix of what was accepted for sending |
| `SendQueue.FlushesAll` | servers/chat/network/CSession.cpp:120-130 | an open session never stalls: at most two steps per frame put everything accepted on the wire |
| `SendQueue.Session.Send` | servers/chat/network/CSession.cpp:79-110 | true exactly when the frame was taken; an oversized body closes the session |
| `SendQueue.Session.StartWrite` | servers/chat/network/CSession.cpp:120-130 | starts the front frame of an open session |
| `SendQueue.Session.HandleWrite` | servers/chat/network/CSession.cpp:319-346 | a completed write removes its frame and starts the next; a failed one closes |
| `TokenBucket.RateBound` | common/TokenBucket.h:12-27 | in every window of every run the grants total at most capacity + rate x elapsed time, also when the clock steps back |
| `TokenBucket.GrantedIffNoWindowBreaks` | common/TokenBucket.h:17-27 | a request is granted exactly when it breaks the bound on no window |
| `TokenBucket.GrantedExactly` | common/TokenBucket.h:17-27 | the same for every run, against the log of grants |
| `TokenBucket.Limiter.Consume` | common/TokenBucket.h:17-27 | the tokens after a call and its answer, within zero and the capacity |
| `ResourceHttp.StepKeeps` | client/network/ResourceHttp.cpp:12-99 | every event keeps the request invariant |
| `ResourceHttp.AtMostOneCallback` | client/network/ResourceHttp.cpp:59-99 | over every order of events a request gets at most one callback and six sends, and at most 64 wait |
| `ResourceHttp.SilentForEver` | client/network/ResourceHttp.cpp:35-58 | after cancel or reset a request causes no further callback and no further send, for ever |
| `ResourceHttp.NeverForgotten` | client/network/ResourceHttp.cpp:41-99 | a live request without its callback is pending in exactly one place where something can happen, and if it waits for a credential a renewal timer is running |
| `ResourceHttp.TokenIsForThisLogin` | client/network/ResourceHttp.cpp:12-15 | a token is taken only for the login that asked for it |
| `ResourceHttp.LateTokenIgnored` | client/network/ResourceHttp.cpp:12-15 | a token asked for under an earlier login changes nothing, however late it arrives |
| `ResourceHttp.FailureIsReported` | client/network/ResourceHttp.cpp:96 | a failed reply is never reported as a success |
| `ResourceHttp.Gate.ResetAccount` | client/network/ResourceHttp.cpp:35-40 | a reset starts a new generation and drops credential, queue and renewal |
| `ResourceHttp.Gate.RenewCredential` | client/network/ResourceHttp.cpp:41-52 | one renewal at a time, under a new id, with its timer |
| `ResourceHttp.Gate.IssueRequest` | client/network/ResourceHttp.cpp:59-99 | a request is dropped, answered, queued or sent, as the control object and credential say |
| `ResourceHttp.Gate.StartRequest` | client/network/ResourceHttp.cpp:59-69 | a new request gets its own control object and is issued |
| `ResourceHttp.Gate.CancelRequest` | client/network/ResourceHttp.cpp:53-58 | a cancelled request is marked, whatever it is waiting for |
| `ResourceHttp.Gate.RetryTimer` | client/network/ResourceHttp.cpp:92-94 | a retry goes on only if its request is live |
| `ResourceHttp.Gate.RenewalTimer` | client/network/ResourceHttp.cpp:48-51 | a renewal timer acts only on the login and renewal it was set for |
| `ResourceHttp.Gate.TokenArrived` | client/network/ResourceHttp.cpp:12-24 | a matching token issues everything that waited, in order |
| `ResourceHttp.Gate.ReplyFinished` | client/network/ResourceHttp.cpp:84-97 | a reply is dropped, retried or reported |

## Left out

- Qt user interface, configuration, logging, metrics, deployment and migration scripts.
- Sockets, TLS, gRPC, HTTP and JSON parsing, hiredis and JDBC: they appear as events that succeed, fail or lose a reply.
- Cryptography, image decoding and encoding, digests: abstract functions; the cipher is assumed to invert and to be authentic only as far as `Lawful` says.
- File locks and NFS: mutual exclusion per id is assumed.
- Authentication, ownership, friendship and the attachment quota in `create`: the model creates a fresh row and an empty file.
- The case-insensitive collation of the MySQL schema: message ids are compared exactly.
- `pending` ordering and `history` in the client's message store, and the friend lists.
- A file left by a crash inside `store_.create` or by an ambiguous commit of `create`: reclaimed by a confirmation outside this model.
- The legacy file path (`LogicWorker` and the file methods of `MysqlDao`): the server never starts its workers, so its frames only close the session.
- Gap locks, lock waits and deadlocks of the database: they appear only as inserts that come later or as rollbacks.
- UUIDs are taken to be distinct: transfer ids, avatar ids, variant ids and renewal ids.
- Session ids are ordered integers, and text is its UTF-8 byte string.
- TextProgress.BacklogDrains: states that loss-free rounds exist; that every sequence of them drains the backlog is `Rounds.RoundsDrain`. Neither claims that the network or the scheduler provides them.
- ResourceService.Transfer.CreateUpload: the replay of an idempotency key, friendship and the quota are left out.
- Attachment.BytesNeverChange: power losses are excluded; what holds with them is `Nonces.StepExtendsExactly` and `Nonces.ResumedUploadSealsOnce`.
- Attachment.PowerLossKeeps: a power loss drops unflushed bytes of the file; it does not bring back a file whose removal had not reached the disk.
- TokenBucket.Limiter.Consume: amounts and times are reals, so rounding of doubles and NaN are not modelled; a bucket with a limit that is not positive cannot be constructed.
- KeyedExecutor.Workers.Stop: the join of the worker threads that follows is not modelled; `KeyedExecutor.StopTerminates` and `KeyedExecutor.DrainingStopEnds` say that they leave.
- KeyedExecutor.StopTerminates: a task that never returns is not modelled.
- ConnectionPool.BoundedPool.GetConnection: the timed wait before the locked part is not modelled.
- ConnectionPool.BoundedPool.CreateOneConnection: nothing comes between its two sections; each section alone, in any state of the pool, is `ReservePlace` and `FinishCreation`.
- ConnectionPool.BoundedPool.CheckIdleConnections: one undisturbed pass; its sections alone, in any state of the pool, are `TakeForCheck` and `FinishCheck`, and every interleaving is in the steps of `ConnectionPool.PoolConserved`.
- ConnectionPool.BoundedPool.CheckFront: nothing comes between its two sections.
- FrameParsers.ClientParser.ReadyRead: a handler that resets the parser from inside the loop is not modelled.
- FrameParsers.ServerReader.ReadSome: the request budget, registration, login and queue answers are inputs.
- SendQueue.Session.HandleWrite: a failed write is any prefix of the frame; TLS records are not modelled.
- Thumbnail.Shrink: the PNG encoding that follows is left out, and sizes above 37837, where products wrap, are not considered; the service asks for 64, 128 and 256.
- Avatar.WriteVariants: database rows and files are values that the method steps through, not objects updated in place; files are modelled by how many bytes are written of how many, not by their bytes.
- ResourceHttp.Gate.IssueRequest: header, URL and body of the network request are left out; a caller that passes one control object to two requests is not modelled, and none does.
