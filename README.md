# Random-Stuff: a verified model of its sequential cores

This project models, in Dafny, the parts of a collection of small Python
programs whose behaviour is plain integer, byte, string and collection
logic, and proves what those programs promise about them.

- **tcpQueue.py** is a TCP message-queue broker. The model covers:
  - the length-prefixed frame (`b"%d:%s"`) and the readers that parse it;
  - the hub's two FIFO queues and the per-request dispatch of `serverThread`;
  - the client calls `getConsumer`/`getProducer`, `sendToProducer` with its retry loop, `sendToConsumer`, `clearQueues` and the size queries;
  - the `manageWorkers` reaper.
- **heartbeat.py** is a two-node failover daemon. The model covers:
  - the reaction to each one-byte datagram;
  - the missed-pong counter;
  - the force files;
  - the test that the watched process is running.
- **web_stats.py**: the per-host statistics store (`addType`, `addVal`, `delOldVals`, `retVals`, `retTypes`), the update order of `process_data`, and the integer scaling of `vsize`.
- **quova.py**: the request decoder (`decode_quova`), `uni_to_ba`, the reply layout of `encode_quova` with its fallback, and the lookup counter.
- **pong.py**: the paddles (`Player`), the ball step (`moveBall`), `detectCollision` and the win/reset rule of the main loop.
- **checkmedia.py**: the thread count, the round-robin split of the sorted file list, `compareStats` and the per-file decision of `hashThreads` over a table of inserted rows.
- **linux_sys_stats.py / mac_sys_stats.py**: `parse_top`. Each dispatches on the line prefix, picks readings by token position and builds a process table from the `PID` row. The shared table logic is in `ProcessTable`.
- **cookieMonster.py / obfuscated_cookie.py**: the cookie layout, the tamper check and the error paths. The layout is 55 characters of base85 key, then the base85 Fernet token, then 160 characters of base85 SHA-512 digest.

The modules are:

- `Common`: Option, byte, Min, Max.
- `PyText`: the Python text semantics the programs rely on: `split()`, `split(sep)`, ASCII `lower()`, `int()` over ASCII digits and `"%d"`.
- one module per program.

Foreign code is treated as follows:

- zlib, pickle, Fernet, SHA-512 and base85 are never interpreted. They are parameters: functions, or a record of functions (`CookieMonster.Library`). Its predicate `Lawful` states the only facts the proofs use.
- Sockets are a class holding the peer's bytes and a script of send outcomes.
- Clocks, random draws, file-system results and the lines printed by `ps`/`top` are parameters.

## Model

| member | source | states |
|---|---|---|
| TcpQueue.DecimalBytes | tcpQueue.py:237-243 | The `%d` header bytes are ASCII digits and read as the decimal text of the length |
| TcpQueue.FirstColon | tcpQueue.py:183-195 | Position of the first `:`: no earlier byte is a colon, and the position is the end or a colon |
| TcpQueue.ScanHeader | tcpQueue.py:183-209 | The header loop consumes at most 10 bytes and never more than it was given |
| TcpQueue.ScanHeaderCases | tcpQueue.py:183-209 | Exactly three outcomes, each characterised by the input. (1) Found: a `:` among the first 9 bytes, at most 8 colon-free digits, and `|digits|+1` bytes consumed. (2) Too long: 10 bytes with no `:` in the first 9. (3) Peer closed: fewer than 10 bytes and no `:` |
| TcpQueue.ScanFound | tcpQueue.py:183-195 | A colon-free header of at most 8 bytes followed by `:` is found, and exactly it and the colon are consumed |
| TcpQueue.ScanClosed | tcpQueue.py:184-194 | Fewer than 10 bytes without a `:`: the peer closed during the header |
| TcpQueue.ScanTooLong | tcpQueue.py:196-209 | 10 or more bytes with no `:` among the first 9: refused after consuming 10 bytes |
| TcpQueue.ReadFrameSpec | tcpQueue.py:183-225 | Reading a frame never consumes more than the input, and at least one byte when it yields a frame |
| TcpQueue.ReadFound | tcpQueue.py:210-225 | After a found header of value n, the payload is exactly the next n bytes; the rest stays unread |
| TcpQueue.EncodeLayout | tcpQueue.py:237-243 | For payloads below 10^8 bytes, a frame is the 1-8 decimal digits of the length, `:`, then the payload unchanged, and the digits read back as the length |
| TcpQueue.EncodedHeader | tcpQueue.py:237-243 | The header of an encoded frame is found, and its digits read back as the payload length |
| TcpQueue.EncodedScan | tcpQueue.py:183-195 | At most 8 digits followed by `:` are found by the header loop, whatever follows |
| TcpQueue.FrameRoundTrip | tcpQueue.py:183-243 | Decoding `encode(p) ++ rest` yields `p` and consumes exactly the frame, for every payload below 10^8 bytes |
| TcpQueue.EncodedPayload | tcpQueue.py:211-225 | The payload slice after the header of an encoded frame is the payload |
| TcpQueue.HeaderAsWrittenNeverAccepts | tcpQueue.py:183-195 | As written (bytes compared with `":"` and `""`), the server's header loop refuses or spins on every input |
| TcpQueue.PullRequestDiscrepancy | tcpQueue.py:412-421 | The request `b"1:c"` is a frame under byte semantics and is never accepted as written |
| TcpQueue.DispatchCases | tcpQueue.py:226-264 | `c`/`p` pop the head of their queue, or reply with the empty-list sentinel on an empty queue; anything else is pushed on the producer tail with no reply; the other queue is unchanged |
| TcpQueue.PushesAppend | tcpQueue.py:261-264 | Pushed payloads join the producer tail in order, with no replies |
| TcpQueue.PullsDrainInOrder | tcpQueue.py:244-260 | n `p` requests return the first n producer items, oldest first, and leave the rest |
| TcpQueue.Socket.constructor | tcpQueue.py:329-336 | A new socket: not connected, nothing sent, the peer's bytes and the send outcomes given |
| TcpQueue.Socket.Connect | tcpQueue.py:384-388 | Connect succeeds only on a fresh socket; a failure leaves it closed |
| TcpQueue.Socket.Recv | tcpQueue.py:211-225 | `recv(n)` returns a prefix of at most n of the waiting bytes, and `b""` only when the peer has closed |
| TcpQueue.Socket.SendAll | tcpQueue.py:237-243 | `sendall` delivers all of the data or raises and delivers nothing; it consumes one scripted outcome when connected |
| TcpQueue.Socket.Close | tcpQueue.py:390-401 | After shutdown and close, the socket is closed and disconnected |
| TcpQueue.Socket.Reopen | tcpQueue.py:329-336 | A new connected socket to the same peer (used only by the corrected retry loop) |
| TcpQueue.ReadHeader | tcpQueue.py:180-195 | The header loop method returns the header scan of its input and consumes exactly the bytes the scan used |
| TcpQueue.ReadPayload | tcpQueue.py:210-225 | The payload loop reads exactly `itotal` bytes when available; otherwise it returns None with the input exhausted |
| TcpQueue.ReadFrame | tcpQueue.py:179-225 | Reads the frame the frame specification gives and consumes exactly its bytes |
| TcpQueue.Advance | tcpQueue.py:179-275 | A pass that goes on strictly shrinks the unread input; a pass that ends the session sends nothing |
| TcpQueue.ServeAdvances | tcpQueue.py:168-275 | A session's end is carried over pass by pass (the loop invariant of `serverThread`) |
| TcpQueue.LiveMembers | tcpQueue.py:150-154 | A worker is kept by a reap pass iff it was registered and is alive |
| TcpQueue.LiveAppend | tcpQueue.py:150-154 | Reaping keeps registration order (it distributes over concatenation) |
| TcpQueue.LiveIdempotent | tcpQueue.py:150-154 | A second pass with the same liveness changes nothing |
| TcpQueue.Hub.constructor | tcpQueue.py:109-113 | Both queues and the worker registry start empty; shutdown is off |
| TcpQueue.Hub.HandleRequest | tcpQueue.py:226-264 | One request updates the queues and replies as the dispatch specification says |
| TcpQueue.Hub.ServeFrame | tcpQueue.py:179-275 | One loop pass: the queues, the bytes sent, the unread input and the remaining outcomes are those of `Advance`; the socket stays open iff the loop goes on |
| TcpQueue.Hub.ServerThread | tcpQueue.py:158-275 | A whole session: queues, output and leftovers are those of `Serve`, and the socket ends closed |
| TcpQueue.Hub.RegisterWorker | tcpQueue.py:298-300 | A started worker joins the tail of the registry |
| TcpQueue.Hub.ReapPass | tcpQueue.py:146-155 | After a pass the registry is exactly the live workers, in their original order |
| TcpQueue.Hub.ManageWorkers | tcpQueue.py:127-155 | The registry after one pass per liveness snapshot; on shutdown after a single pass |
| TcpQueue.ReapedStep | tcpQueue.py:132-155 | Passes compose one snapshot at a time, from either end |
| TcpQueue.CommandFrames | tcpQueue.py:412 | `b"1:c"` and `b"1:p"` are the frames of the one-byte commands |
| TcpQueue.Redial | tcpQueue.py:446-473 | A redialling run makes at most `tries` calls, and delivers only after at least one |
| TcpQueue.RedialFirst | tcpQueue.py:452-473 | One attempt either delivers or adds one call to the run of the remaining tries |
| TcpQueue.RedialDelivers | tcpQueue.py:446-449 | With redialling, a frame is delivered iff one of the first `tries` attempts succeeds |
| TcpQueue.RetriesAreLost | tcpQueue.py:451-473 | As written, a first failed send loses the frame even when a later attempt would succeed; the redialling loop delivers it |
| TcpQueue.MyQueue.constructor | tcpQueue.py:310-338 | The queue is configured iff the port is in 1..65535; an unconfigured one has a closed socket |
| TcpQueue.MyQueue.StartClient | tcpQueue.py:379-388 | Connect, or close on failure; nothing else changes |
| TcpQueue.MyQueue.Close | tcpQueue.py:390-401 | The client socket ends closed; nothing else changes |
| TcpQueue.MyQueue.Pull | tcpQueue.py:403-533 | `getConsumer`/`getProducer`. One request frame is sent. A failed send yields `[]` and closes. Otherwise the reply frame is read exactly as the frame specification says, and the unpacked data, `[]`, or (getProducer only) the raised error is returned |
| TcpQueue.MyQueue.SendToProducer | tcpQueue.py:446-473 | As written: the frame goes out iff the first send succeeds; otherwise four calls are made and the socket ends closed |
| TcpQueue.MyQueue.SendToProducerRedialing | tcpQueue.py:446-473 | Corrected: at most four attempts with a new connection after each failure; stops at the first success |
| TcpQueue.MyQueue.SendToConsumer | tcpQueue.py:475-489 | Exactly one item joins the consumer tail |
| TcpQueue.MyQueue.ClearQueues | tcpQueue.py:535-550 | Both queues end empty |
| TcpQueue.MyQueue.PQSize | tcpQueue.py:581-590 | Returns the producer queue's length |
| TcpQueue.MyQueue.CQSize | tcpQueue.py:570-579 | Returns the consumer queue's length |
| TcpQueue.MyQueue.IsPQEmpty | tcpQueue.py:552-559 | True iff the producer queue is empty |
| TcpQueue.MyQueue.IsCQEmpty | tcpQueue.py:561-568 | True iff the consumer queue is empty |
| Heartbeat.PingPongKeepsRole | heartbeat.py:368-388 | `B` resets the counter and keeps the role; `A` is answered with `B` (when the send works) and keeps the role |
| Heartbeat.ToldRoles | heartbeat.py:390-410 | `P` sets the role to P and `S` sets it to S, whatever it was; `N` sets S and tells the peer `P` |
| Heartbeat.QueryRule | heartbeat.py:412-426 | `G` turns N into P and keeps any other role; the reply is `S` iff the node was P before, else `P` |
| Heartbeat.OtherBytesIgnored | heartbeat.py:357-433 | Any other byte changes nothing and draws no reply |
| Heartbeat.QueryOfStandaloneGivesTwoPrimaries | heartbeat.py:412-426 | As written, a standalone node that is queried becomes P and tells the requester to be P: both end primary |
| Heartbeat.QueryAfterKeepsOnePrimary | heartbeat.py:412-426 | Answering from the role after the query, exactly one node of the pair ends primary |
| Heartbeat.TicksCount | heartbeat.py:208-233 | Without pongs, the counter is delivered pings mod 6, and the node is N iff six or more were counted |
| Heartbeat.MatchCountAppend | heartbeat.py:99-104 | The count of matching lines grows by one per line whose first word is the process name |
| Heartbeat.ProcessCountMeaning | heartbeat.py:99-113 | The loop raises iff some line is blank; otherwise it counts lines whose first word is the name |
| Heartbeat.ProcessCountNone | heartbeat.py:99-113 | Once a prefix of the listing raises, the whole loop does |
| Heartbeat.CountProcesses | heartbeat.py:99-104 | The counting loop computes the count specification |
| Heartbeat.Node.constructor | heartbeat.py:22-34 | Initial role U, counter 0, process taken to be alive |
| Heartbeat.Node.Start | heartbeat.py:275-322 | The role is reset to U; a failed `G` query makes the node N |
| Heartbeat.Node.Receive | heartbeat.py:357-426 | One datagram: role, counter, reply and halting as the reaction rule says; the counter stays in 0..5 |
| Heartbeat.Node.ForcePrimary | heartbeat.py:326-339 | The file is removed, the role becomes P and the peer is told `S`; a failed removal changes nothing |
| Heartbeat.Node.ForceSecondary | heartbeat.py:342-355 | The file is removed, the role becomes S and the peer is told `P`; a failed removal changes nothing |
| Heartbeat.Node.Pass | heartbeat.py:324-364 | The force-primary file wins over the force-secondary file, which wins over the socket; a failed receive changes nothing |
| Heartbeat.Node.RequestState | heartbeat.py:192-205 | The once-a-minute query sends `G` |
| Heartbeat.Node.PingTick | heartbeat.py:208-233 | A delivered ping increments the counter; at 6 it resets to 0 and the role becomes N |
| Heartbeat.Node.CheckForServer | heartbeat.py:95-148 | No listing, a blank line or a count of 0 make the node S with the process dead and send `P`; the result is True only for the count of 0 with the notice delivered. A nonzero count marks the process alive and returns True |
| WebStats.WithType | web_stats.py:45-47 | The kind exists afterwards, existing series are untouched, and a new kind gets an empty series |
| WebStats.WithTypeIdempotent | web_stats.py:45-47 | Adding a kind twice is adding it once |
| WebStats.Pruned | web_stats.py:49-55 | Pruning keeps every kind |
| WebStats.PrunedKeeps | web_stats.py:49-55 | A sample survives iff its time is not below `now - secs_to_keep`, and it keeps its value |
| WebStats.PrunedIdempotent | web_stats.py:49-55 | Pruning twice with the same bound is pruning once |
| WebStats.DelOldValsReturnsOnlyWhenIdle | web_stats.py:49-55 | As written, `delOldVals` returns without raising iff pruning would remove nothing |
| WebStats.AscendingFirst | web_stats.py:62-68 | The oldest sample is listed first |
| WebStats.AscendingFromSeries | web_stats.py:62-68 | Every listed pair is a stored sample with its value |
| WebStats.AscendingCovers | web_stats.py:62-68 | Every stored sample is listed |
| WebStats.AscendingIncreasing | web_stats.py:62-68 | Listed times strictly increase, so nothing is listed twice |
| WebStats.ScaleVsizeUnits | web_stats.py:227-233 | `"%d"` then `t`/`T` scales by 1024·1024, `g`/`G` by 1024, any other unit by 1 |
| WebStats.Stats.constructor | web_stats.py:41-43 | A new store is empty |
| WebStats.Stats.AddType | web_stats.py:45-47 | The store becomes `WithType` of the old one |
| WebStats.Stats.DelOldVals | web_stats.py:49-55 | The store becomes its pruning at `now - secs_to_keep` |
| WebStats.Stats.AddVal | web_stats.py:57-60 | The sample is stored at `now` in its kind, overwriting a same-second one; other kinds are unchanged |
| WebStats.Stats.RetVals | web_stats.py:62-68 | Every sample of the kind, oldest first; none for an unknown kind |
| WebStats.Stats.RetTypes | web_stats.py:70-71 | Exactly the stored kinds, each once |
| WebStats.Stats.ProcessData | web_stats.py:112-119 | Prune first, then record each of the five kinds in order; complete iff all five are present |
| WebStats.RecordedStep | web_stats.py:118-119 | Recording kinds one at a time |
| WebStats.RecordedStops | web_stats.py:118-119 | A missing kind stops the recording there (KeyError) |
| WebStats.RecordedComplete | web_stats.py:116-119 | A complete poll adds exactly one sample at `now` to each kind and touches no other kind |
| Quova.Decimals | quova.py:57 | One `%d` text per byte |
| Quova.OctetsOfDecimals | quova.py:57 | Each byte's decimal text reads back as that byte and holds no dot |
| Quova.DecodeQuovaRoundTrip | quova.py:54-58 | The decoded address reads back as exactly the last four bytes of the request |
| Quova.DefaultIsDottedQuad | quova.py:31 | The default address is the dotted quad 129.130.8.50 |
| Quova.DefaultDecimals | quova.py:31 | The parts of the default address are the decimals of 129, 130, 8 and 50 |
| Quova.DecodeQuovaShort | quova.py:54-61 | A request shorter than four bytes decodes to the default address |
| Quova.ByteArray.constructor | quova.py:83-85 | A new array holds the given bytes |
| Quova.ByteArray.Append | quova.py:47 | `append` adds one byte at the end |
| Quova.ByteArray.Extend | quova.py:89 | `+=` adds the bytes at the end |
| Quova.NarrowPrefix | quova.py:44-51 | The codes appended before the first character that does not fit in a byte |
| Quova.NarrowPrefixOfNarrow | quova.py:42-48 | Byte-sized text is appended whole |
| Quova.UniToBa | quova.py:42-51 | Returns the same array it was given. One code is appended per character, up to the first that does not fit; the earlier appends are kept |
| Quova.LowerBytes | quova.py:88 | `lower()` keeps the length and lower-cases each byte |
| Quova.BodyFails | quova.py:81-124 | Encoding fails iff some field is missing or longer than 255 bytes |
| Quova.ReadField | quova.py:86-117 | One encoded field reads back as its lower-cased text, then the rest |
| Quova.ReadBody | quova.py:86-117 | An encoded body reads back as the lower-cased texts of its fields |
| Quova.BodyStep | quova.py:86-117 | A writable body is field i followed by the body from field i+1 |
| Quova.PacketRoundTrip | quova.py:64-117 | A reply that encodes a record reads back as the record's lower-cased fields, in the fixed order |
| Quova.NoRecordsIsNoPacket | quova.py:123-124 | The fallback reply does not parse as a record reply |
| Quova.ContinueStep | quova.py:86-117 | Writing field i moves its bytes from the body still to write to the bytes built so far |
| Quova.Responder.constructor | quova.py:39 | The lookup counter starts at 0 |
| Quova.Responder.EncodeQuova | quova.py:64-127 | The reply is the encoded packet or the no-records reply, and the counter goes up by exactly one either way |
| Quova.WriteField | quova.py:87-89 | One field appends its framed bytes to the same array |
| Quova.FramedParts | quova.py:87-89 | Length byte, body and tail appended in turn form one framed field |
| Pong.Up | pong.py:42-45 | `moveUp` moves at most one row up, only when above 92, and keeps `ybottom == ypos + 50` |
| Pong.Down | pong.py:47-50 | `moveDown` moves at most one row down, only when below 190, and keeps `ybottom == ypos + 50` |
| Pong.FollowOneRow | pong.py:60-73 | A paddle in its field stays in it and moves at most one row per call |
| Pong.FollowDirection | pong.py:60-73 | Steps toward the ball when clear of it (away from it when `silly`); still when they overlap |
| Pong.Hits | pong.py:52-58 | `collision` is true iff the ball's top or bottom row lies within the paddle |
| Pong.Player.constructor | pong.py:31-35 | A paddle starts at row 130 with score 0 |
| Pong.Player.Reset | pong.py:37-40 | Row 130, bottom 180, score 0 |
| Pong.Player.MoveUp | pong.py:42-45 | The position becomes `Up` of the old one |
| Pong.Player.MoveDown | pong.py:47-50 | The position becomes `Down` of the old one |
| Pong.Player.Move | pong.py:60-73 | Moves only on the ball's side (`xpos == 0` and `lr`, or `xpos == 300` and not `lr`) |
| Pong.Player.AddScore | pong.py:75-76 | The score goes up by one |
| Pong.StepBallAcross | pong.py:141-159 | Past the right edge p1 scores, past the left p2; either recentres at x 160. Otherwise x moves one pixel in the travel direction |
| Pong.StepBallUpDown | pong.py:161-173 | y moves by exactly one; it turns iff past 220 going down or past 92 going up; after a point y is 119 or 121 |
| Pong.StepBallInField | pong.py:138-173 | The ball stays within its field |
| Pong.MoveBall | pong.py:138-173 | The ball step, with the point credited once to the right player |
| Pong.DetectCollision | pong.py:181-190 | `lr` flips iff at x 20 the left paddle is hit or at x 280 the right one is |
| Pong.RoundKeepsPlaying | pong.py:242-269 | A pass keeps paddles, scores and ball in range |
| Pong.RoundScores | pong.py:257-267 | A point that reaches 15 resets both players and puts the ball at (160, 100); otherwise only the credited score rises by one |
| Pong.Game.constructor | pong.py:231-236 | The players start reset and the ball starts at (160, 100) |
| Pong.Game.Tick | pong.py:242-269 | One pass of the main loop is `Round` |
| Pong.Game.PlayPass | pong.py:245-249 | The moves of a pass are `Play` |
| CheckMedia.NumThreads | checkmedia.py:15-17 | At least 1: half the CPUs from 4 up, else one more than half |
| CheckMedia.BucketSize | checkmedia.py:199-207 | Worker i gets `|files|/n` files, plus one when `i < |files| mod n` |
| CheckMedia.BucketsBalanced | checkmedia.py:199-207 | Share sizes differ by at most one |
| CheckMedia.BucketPrefix | checkmedia.py:203-207 | The share of a prefix is a prefix of the share |
| CheckMedia.BucketIndex | checkmedia.py:203-207 | File k lands in worker `k mod n`, at place `k / n` |
| CheckMedia.BucketElements | checkmedia.py:203-207 | The p-th file of worker i is file `p·n + i`: order is kept and no file is in two shares |
| CheckMedia.BucketNext | checkmedia.py:203-207 | Each file joins only the share of the wrapping counter |
| CheckMedia.EmptyShares | checkmedia.py:200-202 | One empty list per worker |
| CheckMedia.Partition | checkmedia.py:199-207 | Each worker's list is its round-robin share |
| CheckMedia.FullPaths | checkmedia.py:33 | One full path per file name |
| CheckMedia.InsertOrdered | checkmedia.py:39 | Insertion keeps the list ordered and adds exactly the element |
| CheckMedia.Sort | checkmedia.py:39 | `sorted` returns an ordered permutation |
| CheckMedia.GetFileList | checkmedia.py:28-39 | The walk's full paths, sorted |
| CheckMedia.CompareStats | checkmedia.py:152-158 | False for an unstattable file; otherwise true iff size and all three times match |
| CheckMedia.Latest | checkmedia.py:94-98 | The record of a path is one of its rows |
| CheckMedia.LatestNone | checkmedia.py:104-105 | No record iff no row carries the path |
| CheckMedia.LatestIsLast | checkmedia.py:94-98 | The record is the path's last row |
| CheckMedia.Decide | checkmedia.py:162-185 | Insert iff the file was statted and either has no record, or its mtime/ctime/size changed and the new hash is nonempty and new |
| CheckMedia.Step | checkmedia.py:162-185 | One file adds at most one row and keeps the earlier rows |
| CheckMedia.Processed | checkmedia.py:161-187 | A worker's pass only appends rows |
| CheckMedia.LatestKept | checkmedia.py:94-98 | A path with a row keeps one when rows are appended |
| CheckMedia.RecordKept | checkmedia.py:91-118 | A path with a record keeps one when the table grows |
| CheckMedia.StepRecords | checkmedia.py:165-175 | A statted file has a record after its turn |
| CheckMedia.ProcessedRecordsAll | checkmedia.py:161-185 | After a pass, every statted file of the share has a record |
| CheckMedia.HashStep | checkmedia.py:162-185 | One turn of the loop keeps its invariant |
| CheckMedia.MediaDb.constructor | checkmedia.py:14 | Empty table and empty updated-queue |
| CheckMedia.MediaDb.InsertRow | checkmedia.py:75-88 | One row appended and its path queued |
| CheckMedia.MediaDb.HashFile | checkmedia.py:162-185 | The rows after the rule for one file; a path is queued iff a row was inserted |
| CheckMedia.MediaDb.HashThreads | checkmedia.py:161-187 | The rows after the rule for each file in turn; a path is queued iff a row was inserted |
| ProcessTable.AddProcess | linux_sys_stats.py:102-107 | One row appended to `processes` (created if missing); the other entries are unchanged |
| ProcessTable.LeadingChars | linux_sys_stats.py:34-97 | A line starting with a prefix agrees with it in its first two characters |
| ProcessTable.Mismatch | linux_sys_stats.py:34-97 | A line that differs from a prefix at one of its positions does not start with it |
| ProcessTable.TextsAt | linux_sys_stats.py:35-37 | Tokens at the positions, or None (IndexError) iff some position is past the end |
| ProcessTable.IntsAt | linux_sys_stats.py:44-48 | `int()` of the tokens at the positions, or None iff one is missing or not an integer |
| ProcessTable.HeaderOf | linux_sys_stats.py:97-100 | The column map of a `PID` row: names and keys agree |
| ProcessTable.HeaderOfDistinct | linux_sys_stats.py:98-100 | With distinct names, each name maps to its own position, in order |
| ProcessTable.LowerKeysMembers | linux_sys_stats.py:105-106 | The record's keys are the lower-cased header names |
| ProcessTable.RecordDefined | linux_sys_stats.py:104-106 | A record over k columns exists iff the row reaches column k |
| ProcessTable.RecordOfColumns | linux_sys_stats.py:104-106 | Each lower-cased name maps to the token in its column |
| ProcessTable.RecordStep | linux_sys_stats.py:105-106 | One more column keeps the record exact |
| ProcessTable.ColumnsStep | linux_sys_stats.py:105-106 | Entering a column with a new lower-cased name keeps the record exact |
| ProcessTable.PositionalHeader | linux_sys_stats.py:98-100 | Names distinct up to case give each its own position |
| ProcessTable.RowOfHeader | linux_sys_stats.py:104-106 | A row is read iff it has a token in every column. Its keys are then exactly the lower-cased names, each mapped to that column's token |
| ProcessTable.BuildHeader | linux_sys_stats.py:97-100 | The `enumerate` loop builds the column map |
| ProcessTable.BuildRow | linux_sys_stats.py:104-106 | The `pdict` loop builds the row record |
| ProcessTable.RecordStops | linux_sys_stats.py:104-106 | Once a column is missing, the row raises |
| ProcessTable.AppendRowOfHeader | linux_sys_stats.py:101-107 | A full row appends one record keyed by the lower-cased header names; the other entries and the header are kept |
| ProcessTable.RowBeforeHeaderRaises | linux_sys_stats.py:101-107 | A process row before any `PID` row raises |
| ProcessTable.PutKeepsProcesses | linux_sys_stats.py:38-96 | Summary groups never touch `processes` or the column map |
| LinuxSysStats.ParseTop | linux_sys_stats.py:28-108 | The loop computes the parse specification |
| LinuxSysStats.AbsorbLine | linux_sys_stats.py:30-107 | One iteration of the loop body: the first branch whose test the line passes, in source order |
| LinuxSysStats.ScannedStops | linux_sys_stats.py:30-107 | Once a line raises, the whole parse does |
| LinuxSysStats.SummaryKey | linux_sys_stats.py:34-96 | A summary line's group is never `hostname` or `processes` |
| LinuxSysStats.SummaryKeepsHostname | linux_sys_stats.py:34-96 | A summary line writes only its own group |
| LinuxSysStats.LineKeepsHostname | linux_sys_stats.py:29-107 | No branch writes `hostname` |
| LinuxSysStats.HostnameKept | linux_sys_stats.py:29-108 | The result always holds the starting host name |
| LinuxSysStats.NonBlank | linux_sys_stats.py:31-32 | The lines without the empty ones |
| LinuxSysStats.BlankLinesSkipped | linux_sys_stats.py:31-32 | Dropping blank lines changes nothing |
| LinuxSysStats.TasksLine | linux_sys_stats.py:43-55 | `Tasks:` records the integers at tokens 1, 3, 5, 7 and 9 and changes nothing else |
| LinuxSysStats.TasksBranch | linux_sys_stats.py:43-55 | The `Tasks:` branch stores the counts it read |
| LinuxSysStats.TasksTokens | linux_sys_stats.py:33-43 | A `Tasks:` line is dispatched to the `Tasks:` branch |
| LinuxSysStats.TasksCounts | linux_sys_stats.py:44-48 | The five counts are read back by `int()` |
| LinuxSysStats.LoadAvgLine | linux_sys_stats.py:34-42 | `top - ` records tokens 12 and 13 without their last character, and token 14; fewer than 15 tokens raise |
| LinuxSysStats.LoadTexts | linux_sys_stats.py:35-37 | Tokens 12-14 exist iff the line has 15 tokens |
| LinuxSysStats.TopTokens | linux_sys_stats.py:33-34 | A `top - ` line splits back to its tokens |
| LinuxSysStats.TopPrefix | linux_sys_stats.py:34 | The tokens `top`, `-` start a `top - ` line |
| LinuxSysStats.PidLine | linux_sys_stats.py:97-100 | First token `PID`: the column map becomes its tokens and nothing else changes |
| LinuxSysStats.ProcessLine | linux_sys_stats.py:101-107 | Any other non-blank line is a process row |
| LinuxSysStats.SummaryLinesKeepProcesses | linux_sys_stats.py:34-96 | Summary lines never touch the process table or the column map |
| MacSysStats.SummaryKey | mac_sys_stats.py:39-135 | A summary line's group is never `hostname` or `processes` |
| MacSysStats.ParseTop | mac_sys_stats.py:30-147 | The loop computes the parse specification |
| MacSysStats.AbsorbLine | mac_sys_stats.py:33-146 | One iteration of the loop body |
| MacSysStats.ScannedStops | mac_sys_stats.py:33-146 | Once a line raises, the whole parse does |
| MacSysStats.LineKeepsHostname | mac_sys_stats.py:32-146 | No branch writes `hostname` |
| MacSysStats.HostnameKept | mac_sys_stats.py:32-147 | The result always holds the starting host name |
| MacSysStats.Kept | mac_sys_stats.py:34-37 | The lines the loop does not skip |
| MacSysStats.SkippedLinesIgnored | mac_sys_stats.py:34-37 | Dropping blank lines and `<year>/` lines changes nothing |
| MacSysStats.YearPrefixStart | mac_sys_stats.py:36 | The year prefix starts with a digit or a minus sign |
| MacSysStats.LetterLineNotSkipped | mac_sys_stats.py:34-37 | A line starting with a capital letter is not skipped |
| MacSysStats.ProcessesCounts | mac_sys_stats.py:40-43 | The four counts are read back by `int()` |
| MacSysStats.ProcessesTokens | mac_sys_stats.py:38-39 | A `Processes:` line is dispatched to its branch |
| MacSysStats.ProcessesLine | mac_sys_stats.py:39-49 | `Processes` records the integers at tokens 1, 3, 5 and 7 and changes nothing else |
| MacSysStats.ProcessesBranch | mac_sys_stats.py:39-49 | The `Processes` branch stores the counts it read |
| MacSysStats.BeforeParenIsPrefix | mac_sys_stats.py:102-103 | `split("(")[0]` is the token up to its first `(` |
| MacSysStats.VmLine | mac_sys_stats.py:99-109 | `VM` succeeds iff there are 9 tokens; tokens 1 and 3 are kept, and 6 and 8 are cut before `(` |
| MacSysStats.TransferRoundTrip | mac_sys_stats.py:111-116 | `count/amount` reads back as the integer and the text |
| MacSysStats.TransferNeedsSlash | mac_sys_stats.py:111-116 | A token without `/` raises |
| MacSysStats.NetworksLine | mac_sys_stats.py:110-122 | `Networks` records packet counts as integers and amounts as text, changing nothing else |
| MacSysStats.NetworksBranch | mac_sys_stats.py:110-122 | The `Networks` branch reads tokens 2 and 4 |
| MacSysStats.TransfersOf | mac_sys_stats.py:111-116 | Two transfer tokens read together |
| MacSysStats.DisksLine | mac_sys_stats.py:123-135 | `Disks` records sector counts as integers and amounts as text, changing nothing else |
| MacSysStats.DisksBranch | mac_sys_stats.py:123-135 | The `Disks` branch reads tokens 1 and 3 |
| MacSysStats.PidLine | mac_sys_stats.py:136-139 | A `PID` line sets the column map to its tokens and changes nothing else |
| MacSysStats.ProcessLine | mac_sys_stats.py:140-146 | Every other kept line is a process row |
| MacSysStats.SummaryLinesKeepProcesses | mac_sys_stats.py:39-135 | Summary lines never touch the process table or the column map |
| PyText.Lower | linux_sys_stats.py:106 | ASCII `lower()`: keeps the length, maps `A`-`Z` to `a`-`z` and leaves every other character as it is |
| PyText.Split | linux_sys_stats.py:33 | `split()` yields non-empty, blank-free tokens |
| PyText.SplitJoinWords | linux_sys_stats.py:33 | `split()` undoes joining tokens with single spaces |
| PyText.FormatIntRoundTrip | linux_sys_stats.py:44 | `int()` reads back exactly what `"%d"` wrote |
| PyText.DecimalLength | tcpQueue.py:183-196 | A length has at most k digits iff it is below 10^k (the 8-digit header bound) |
| PyText.SplitOn | mac_sys_stats.py:111-112 | `split("/")` always has a first part: the text up to the first separator |
| PyText.JoinSplitOn | mac_sys_stats.py:111-112 | Joining a split gives the text back |
| PyText.SplitOnJoin | mac_sys_stats.py:111-112 | Splitting a join gives the parts back when no part holds the separator |
| CookieMonster.KeyAndDigestLengths | cookieMonster.py:22-29 | base85 of a 44-byte key is 55 characters and of a 128-character digest 160 |
| CookieMonster.Utf8 | cookieMonster.py:37 | UTF-8 is never shorter than the text |
| CookieMonster.Utf8AsciiLength | cookieMonster.py:37 | ASCII text encodes to as many bytes as characters |
| CookieMonster.Utf8OfLatin1 | cookieMonster.py:37-43 | Decoding base85 output and encoding it again gives the same bytes |
| CookieMonster.Clip | cookieMonster.py:50-54 | Python's index clipping, negative indices counting from the end |
| CookieMonster.Slice | cookieMonster.py:50-54 | Python's `s[lo:hi]`: its length and its elements |
| CookieMonster.Parts | cookieMonster.py:50-54 | Pieces of 55, any and 160 characters are cut back out at 55 and -160 |
| CookieMonster.ChosenKey | cookieMonster.py:30-31 | The caller's key, or the generated one when the caller's is empty |
| CookieMonster.MadeParts | cookieMonster.py:22-43 | Under the documented 44-character key, a cookie cuts back into the key text, the token text and the digest of the token text |
| CookieMonster.MakeEmpty | cookieMonster.py:32-42 | `makeCookie` returns `""` iff Fernet refuses the key or pickling raises |
| CookieMonster.MakeCarriesKey | cookieMonster.py:22-34 | Under the documented 44-character key, the key part decodes to the caller's key, or to the generated one |
| CookieMonster.MadePassesCheck | cookieMonster.py:53-55 | A cookie made under the documented 44-character key passes the tamper check |
| CookieMonster.Returned | cookieMonster.py:46-65 | Python's view of an outcome: the data, or None |
| CookieMonster.Opened | cookieMonster.py:58-65 | The try block never raises; data comes out only under a key Fernet accepts |
| CookieMonster.Eat | cookieMonster.py:46-65 | As written: raises iff the key text is not base85; data only after the digest matched |
| CookieMonster.EatChecked | cookieMonster.py:46-65 | Corrected: never raises, and agrees with `eatCookie` wherever that returns |
| CookieMonster.TamperedBeforeDecrypt | cookieMonster.py:53-57 | A digest mismatch refuses the cookie whatever Fernet and pickle would do |
| CookieMonster.EatRaisesOnBadKey | cookieMonster.py:50-51 | A cookie starting with a space raises as written; the corrected version refuses it |
| CookieMonster.RoundTrip | cookieMonster.py:13-18 | A cookie of picklable data under an accepted, documented 44-character key is nonempty and eats back to the data |
| CookieMonster.LongKeyShiftsCut | cookieMonster.py:30-55 | A longer key Fernet still accepts (a key plus a newline) has a key text over 55 characters. The cut at 55 falls inside it, so the hashed middle starts with the rest of the key text, and the cookie is eaten only if SHA-512 gives that middle the token text's digest |
| ObfuscatedCookie.Head | obfuscated_cookie.py:54 | `[:55]` is a prefix of the cookie |
| ObfuscatedCookie.Middle | obfuscated_cookie.py:56 | `[55:-160]` is empty unless the cookie is longer than 215 characters |
| ObfuscatedCookie.Tail | obfuscated_cookie.py:60 | `[-160:]` has at most 160 characters |
| ObfuscatedCookie.SlicesAgree | obfuscated_cookie.py:54-60 | The closed-form slices are Python's slices at 55 and -160 |
| ObfuscatedCookie.MakeAgrees | obfuscated_cookie.py:18-45 | The make function computes `makeCookie` |
| ObfuscatedCookie.EatAgrees | obfuscated_cookie.py:48-73 | The eat function computes `eatCookie`, raising on the same cookies |
| ObfuscatedCookie.RoundTrip | obfuscated_cookie.py:76-81 | The test's claim, under the documented 44-character key: a nonempty cookie that eats back to the data |
| ObfuscatedCookie.TamperedIsNone | obfuscated_cookie.py:61-63 | A digest mismatch returns None |

## Left out

- PyText.Lower: lower-cases ASCII letters only. Python's `str.lower()` (linux_sys_stats.py:106, mac_sys_stats.py:144) also folds other Unicode letters and can change the length (`'İ'` becomes two characters). This is not captured.
- PyText.Int: accepts ASCII digits only. Python's `int()` on a `str` also reads other Unicode decimal digits (`'١٢'` is 12). This is not captured.
- WebStats.Stats.RetTypes: returns the kinds as a set. The insertion order of `list(self.data.keys())` (web_stats.py:70-71) is not captured.
- Threads, locks, `sleep`, `random()` back-off, `accept`/`settimeout`, `startServer` (bind/listen) and logging in tcpQueue.py. These are concurrency and I/O. The queues are accessed sequentially.
- `recv` chunking is chosen by the socket model: any non-empty prefix of at most n bytes.
- The outcome of each `sendall` is a scripted sequence of success values.
- zlib and pickle are not interpreted. `getConsumer`/`getProducer` take the decompress and load functions as parameters. The empty-list reply and the compressed envelope of `sendToConsumer` are given bytes.
- The reflective `__str__` of `myQueue` (tcpQueue.py:592-622), which uses `inspect`.
- `myQueue.__init__` with a host that is not a `str`: the model's host is always text.
- TcpQueue.Classify: the evident byte semantics are modelled. As written, `str(sockData).lower()[0]` (tcpQueue.py:226) is always `b`, so every request would be a push.
- Heartbeat: the `gmtime` scheduling, `randint` offsets and sleeps. Also left out: the state file writer (`updateFile`), daemonising, signal handlers, the lock around the globals, and the unit test that needs a live socket.
- Heartbeat: the outcome of each UDP send and file removal, and the `ps` lines, are parameters.
- web_stats.py: polling with `requests`, pickling of the store, `__repr__`/`__str__`, plotting, and the float "used" memory conversion (web_stats.py:202-209).
- WebStats.Stats.DelOldVals: models the removal the loop intends. The `RuntimeError` that Python 3 raises when the loop deletes a sample is stated separately, by `WebStats.DelOldValsRaises` and `WebStats.DelOldValsReturnsOnlyWhenIdle` (see Findings). The partial deletion made before the error is not modelled.
- quova.py: the GeoIP lookup, the sockets, syslog, the daemon and its worker pool (`process_connection`). The record's texts are byte strings (`str` under Python 2).
- pong.py: drawing, the backlight level (floats), buttons, the QR screen, the colour cycle and garbage collection. Each `random.random()` draw is a boolean parameter.
- checkmedia.py: sqlite, md5, `os.walk`, `os.stat`, the threads and the printing of updated paths. The table is the list of inserted rows.
- CheckMedia.GetDB: `ORDER BY whent DESC LIMIT 1` is taken to be the last inserted row. The `strptime` of `whent` and the `None` returned on a database error are not modelled.
- `subprocess` `top` and `node()`: the lines and the host name are parameters. The current year of mac_sys_stats.py is a parameter.
- LinuxSysStats.Line: float readings are kept as text. A reading that `float()` would refuse does not raise in the model.
- MacSysStats.Line: float readings are kept as text. A reading that `float()` would refuse does not raise in the model.
- Fernet, SHA-512, base85 and pickle are not interpreted. Their facts are stated in `CookieMonster.Lawful`:
  - base85 round trip, length and alphabet;
  - a hex digest is 128 ASCII characters;
  - an accepted key has at least 44 bytes (Fernet's lenient base64 decoding skips bytes outside the alphabet, so a valid key followed by a newline is accepted);
  - decrypt undoes encrypt, and loads undoes dumps.
- The 44-character key length that the docstring of `makeCookie` asks for (cookieMonster.py:22-29), which `Fernet.generate_key()` also returns, is the predicate `CookieMonster.DocumentedKey`. The layout and round-trip lemmas require it. `CookieMonster.LongKeyShiftsCut` covers the longer keys Fernet accepts. It does not decide whether those cookies are refused, because that would depend on a SHA-512 collision.
- Fernet's random IV and clock are a `nonce` parameter. `Fernet.generate_key()` is the `generated` parameter. The logging calls are left out.
- The `.decode("utf-8")` of base85 output is modelled as reading each byte as its character. This is the same for the ASCII bytes base85 writes.

## Findings

| source | as written | input that shows it | evidently intended | confidence | as-written member | corrected member |
|---|---|---|---|---|---|---|
| tcpQueue.py:183-185 | The server's header loop compares the received `bytes` with `":"` and `""`. Under Python 3 these never match, so no frame is ever accepted. tcpQueue.py:416-418 and 506 have the same comparisons | the request `b"1:c"`: the loop reads past the colon and refuses after 10 bytes, or spins once the peer closes | compare with `b":"` and `b""`, as tcpQueue.py:432 and 504 do | high (not executed) | TcpQueue.HeaderAsWrittenNeverAccepts | TcpQueue.FrameRoundTrip |
| tcpQueue.py:451-473 | After a failed `sendall` the loop calls `close()` and retries on the closed socket, so every retry fails | send outcomes `[false, true]`: the first send fails; the second would succeed on a new connection but is made on the closed socket, and the message is dropped | retry up to three more times on a working connection, as the docstring at tcpQueue.py:447-449 says | high (not executed) | TcpQueue.RetriesAreLost | TcpQueue.MyQueue.SendToProducerRedialing |
| heartbeat.py:412-426 | The reply to `G` is chosen from the role before the query, so a standalone node answers `P` while making itself primary | a node in role N receives `G`: it becomes P and tells the requester to be P, leaving both primary | answer from the role after the query (`S` when now primary) | medium (not executed) | Heartbeat.QueryOfStandaloneGivesTwoPrimaries | Heartbeat.QueryAfterKeepsOnePrimary |
| cookieMonster.py:50-51 | The key text is base85-decoded before the tamper check and outside the `try`, so a garbled key part raises instead of returning None. obfuscated_cookie.py:54-55 does the same | any cookie whose first character is a space (not a base85 digit) | decode the key inside the error handling and return None, as the docstring's "full error checking" promises | high (not executed) | CookieMonster.EatRaisesOnBadKey | CookieMonster.EatChecked |
| web_stats.py:49-55 | `delOldVals` deletes entries from the dict it is iterating over. Under Python 3 the next iteration step raises `RuntimeError`, so no call that has a sample to remove returns, and `process_data` (web_stats.py:116) fails on every poll once a sample is older than eight hours | a store whose `cpu` series holds a sample at time 0, pruned at time 28801 | collect the old timestamps first, then delete them | high (not executed) | WebStats.DelOldValsReturnsOnlyWhenIdle | WebStats.Stats.DelOldVals |
