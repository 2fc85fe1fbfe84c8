# FairTalk matchmaking and chat relay, modelled in Dafny

FairTalk pairs anonymous users for a one-to-one text chat. This project models
its core and proves properties of that model:

- the **matchmaking engine** (`backend/services/matchingService.js`): bio-tag
  extraction, the pairwise compatibility score with its queue-size threshold
  and reason, one scheduler tick over the Redis sorted set (the first row with
  an acceptable partner commits its best pair through one Redis pipeline), and the delayed cleanup of a finished match;
- the **alternative strategies and the payload validator**
  (`backend/config/matchConfig.js`): distance-, interest-, random- and
  hybrid-based selection, the strategy lookup, and `validateUserData`;
- the **Redis hash store** (`backend/services/redisService.js`): the queue
  hash, the session hashes with their TTL, the nearest-match query, and each
  operation's error path;
- the **location-based socket server** (`backend/services/websocketService.js`):
  the connection table and every message handler, with what each one sends;
- the **chat relay** of `backend/server.js`: rooms of device sockets, relaying,
  leaving and closing;
- the **eligibility, test-user and report controllers** over the user
  collection (`backend/controllers/*.js`, `backend/models/User.js`);
- the **browser side**: the socket wrapper with its outbox, listener registry
  and reconnect backoff (`frontend/src/utils/websocketClient.js`), the profile
  form (`frontend/src/components/ProfileSetup.jsx`) and the device identity
  (`frontend/src/utils/identity.js`).

Every module corresponds to one source file, except that `matchingService.js`
is split into `MatchScore` (pure scoring) and `MatchingService` (the stateful
engine), and `backend/models/User.js` is `UserModel`. Shared helpers live in
`Common` (Option, Outcome, filtering), `OrderedMap` (insertion-ordered
dictionaries: JavaScript objects and `Map`s, and Redis hashes taken in
insertion order) and `JsText`
(ASCII lower-casing, substring search, `trim`, JavaScript truthiness).

Code that keeps state is modelled as classes whose fields are the state:
`MatchingService.MatchStore` (the Redis keys of the engine),
`RedisService.RedisStore`, `WebsocketService.LocationServer`,
`RelayServer.RelayHub`, `UserModel.UserCollection`,
`ReportController.ReportLog`, `WebsocketClient.FairTalkSocket` and
`Identity.LocalStorage`. Its loops are methods with loop invariants. Pure code
is modelled as functions, and lemmas state their properties.

What the process cannot see is passed in as parameters:
- the clock (`now`) and fresh ids (uuid, random suffixes);
- `Math.random()`;
- the haversine formula, as a function `(Location, Location) -> real`;
- whether a storage call fails;
- which event listeners throw.

A JavaScript `TypeError` that escapes a function is `Outcome.Threw`, or a
`threw` result of the method.

Three behaviours of the scoring code worth stating plainly:
- The score has no gender filter and no threshold relaxation.
- A candidate without `personalityAnswers` makes scoring throw. That abandons
  the whole tick (the `try` around the tick catches it); the pair is not merely
  skipped.
- The fairness bonus uses only the second user's join time.

Two observations about the code are stated as members rather than findings:
- **Twice-queued device.** `zrem` removes by the exact JSON member. A device
  queued twice under different JSON stays queued after its match
  (`MatchingService.CommitCanLeaveActiveDeviceQueued`).
- **Disconnect by user id.** `handleUserDisconnect` deletes the connection by
  userId. A stale socket of a user who reconnected therefore drops the newer
  connection (`WebsocketService.LocationServer.StaleCloseDropsReconnected`).

The report controller writes `reportsCount` and `reportScore`. The user schema
does not declare them, so the record type carries them as optional fields.

## Model

| member | source | states |
|---|---|---|
| JsText.ToLower | backend/services/matchingService.js:29 | lower-casing keeps the length and maps every character independently |
| JsText.IncludesIffOccurs | backend/services/matchingService.js:32 | `includes` holds exactly when the keyword occurs at some position of the text |
| JsText.Trim | frontend/src/components/ProfileSetup.jsx:26 | the trimmed string is empty or starts and ends with a non-space, and is no longer than the input |
| JsText.TrimDropsOnlySpaces | frontend/src/components/ProfileSetup.jsx:26 | trim removes only white space, and only from the two ends |
| JsText.TrimIdempotent | frontend/src/components/ProfileSetup.jsx:40 | trimming twice gives the same as trimming once |
| OrderedMap.Put | backend/services/redisService.js:35 | after HSET the field reads the new value, other fields are unchanged, a new field is appended at the end, an existing one keeps its place (the order the model takes HGETALL to follow) |
| OrderedMap.Remove | backend/services/redisService.js:50 | after HDEL the field is absent, other fields are unchanged, and the remaining fields keep their order |
| OrderedMap.PutSize | backend/services/redisService.js:35 | HSET adds one entry for a new field and none for an existing one |
| MatchScore.AnyKeyword | backend/services/matchingService.js:32 | `some` holds exactly when one of the tag's keywords occurs in the text |
| MatchScore.MatchingTags | backend/services/matchingService.js:31-35 | the tags collected are exactly the vocabulary tags that have a keyword in the text, in vocabulary order |
| MatchScore.ExtractBioTags | backend/services/matchingService.js:27-37 | a missing or empty bio gives no tags; otherwise the first two matching tags of the lower-cased bio, in vocabulary order, without repeats |
| MatchScore.ExtractedTagsAreVocabularyMatches | backend/services/matchingService.js:31-36 | every extracted tag has one of its keywords in the lower-cased bio |
| MatchScore.ExactMatches | backend/services/matchingService.js:42-49 | counts at most four slots; all four exactly when every answer is strictly equal (two missing answers are equal), none exactly when every pair differs |
| MatchScore.QuestionPointsValues | backend/services/matchingService.js:42-51 | question points are 0, 2, 4, 6 or 8, and 8 exactly when all of q1..q4 agree |
| MatchScore.SharedCountIsIntersection | backend/services/matchingService.js:56-58 | for repeat-free tag lists the shared count is the size of the tag intersection |
| MatchScore.BioPointsBound | backend/services/matchingService.js:54-58 | bio points are 1.5 per shared tag, so between 0 and 3 |
| MatchScore.FairnessPoints | backend/services/matchingService.js:61-62 | the wait bonus is never negative, is 0 exactly when B has not waited, and is 0.05 per second waited |
| MatchScore.ThresholdMonotone | backend/services/matchingService.js:68-70 | a longer queue never lowers the acceptance threshold |
| MatchScore.ClassifyMeaning | backend/services/matchingService.js:75-77 | strong alignment exactly at question points of 4 or more, shared interests exactly below that with bio points of 1.5 or more, low traffic otherwise |
| MatchScore.ReasonNamesStrength | backend/services/matchingService.js:75-79 | two reason texts agree up to the score exactly when their strengths agree, so the stored reason determines the classification |
| MatchScore.Score | backend/services/matchingService.js:39-82 | throws exactly when either user lacks answers; otherwise rejects exactly below the threshold, and an accepted pair carries its total and its classified reason |
| MatchScore.AcceptedScoreBounds | backend/services/matchingService.js:65-72 | an accepted score is at least 0.5 and at most 11 plus the wait bonus |
| MatchScore.TotalBound | backend/services/matchingService.js:42-64 | the total is at most 8 question points plus 3 bio points plus the wait bonus |
| MatchScore.ExampleFullAgreement | backend/services/matchingService.js:39-81 | full agreement with no bios in a queue of one scores 8.0 as strong personality alignment |
| MatchScore.ExampleLongWait | backend/services/matchingService.js:61-78 | no agreement, a 200-second wait and a queue of twelve score 10.0 as low traffic compatibility |
| MatchingService.Snapshot | backend/services/matchingService.js:89 | ZRANGE 0 49 is the first fifty entries in score order |
| MatchingService.Zrem | backend/services/matchingService.js:142-143 | ZREM drops exactly the entries of that member and keeps the rest |
| MatchingService.ZremKeepsWellFormed | backend/services/matchingService.js:142-143 | removing a member keeps the sorted set ordered by score and free of repeated members |
| MatchingService.ScanRow | backend/services/matchingService.js:109-125 | the inner loop stops at the first pair that throws, reports no partner only when every eligible pair was rejected, or returns the first strictly best accepted partner after row i |
| MatchingService.SelectPair | backend/services/matchingService.js:105-155 | the outer loop never reports too few candidates; it gives up at the first throwing pair after rejecting every earlier row, pairs the first row with an acceptable partner (its best, all earlier rows rejected), and finds no pair only when every row was rejected |
| MatchingService.MatchStore.Tick | backend/services/matchingService.js:87-155 | a rejecting ZRANGE, fewer than two candidates, no acceptable pair or a throwing pair leaves the store unchanged; otherwise the committed pair is the chosen one (earlier rows all rejected, best of its row) and the store is the commit's result |
| MatchingService.MatchStore.Commit | backend/services/matchingService.js:140-151 | the pipeline removes both members, marks both active, stores the session with a 3600 s TTL, maps both devices to the match and publishes it, keeping the queue a sorted set |
| MatchingService.MatchStore.Cleanup | backend/services/matchingService.js:162-172 | deletes the session key and the listed devices from the device map and the active set, nothing else |
| MatchingService.ChosenPairIsTwoMembers | backend/services/matchingService.js:113-117 | a committed pair is two different members of two different devices |
| MatchingService.CommitRemovesExactlyThePair | backend/services/matchingService.js:142-143 | after commit the queue holds exactly the previous entries of other members |
| MatchingService.ZremAbsent | backend/services/matchingService.js:142-143 | ZREM of an absent member changes nothing |
| MatchingService.ZremPresent | backend/services/matchingService.js:142-143 | ZREM of a present member of a sorted set removes exactly one entry |
| MatchingService.CommitShrinksQueueByTwo | backend/services/matchingService.js:142-143 | with both members queued, the commit shrinks the queue by exactly two |
| MatchingService.CommitRegistersBoth | backend/services/matchingService.js:144-149 | both devices become active and map to the new match, the session is stored with the one-hour TTL, it is published once, and no other device's activity changes |
| MatchingService.CommitKeepsPoolAndActiveDisjoint | backend/services/matchingService.js:142-145 | when each matched device has only its chosen entry queued, waiting and active devices stay disjoint |
| MatchingService.CommitCanLeaveActiveDeviceQueued | backend/services/matchingService.js:142-145 | a device queued twice under different JSON is still waiting after it is matched and marked active |
| MatchingService.CleanupIdempotent | backend/services/matchingService.js:165-171 | a second cleanup of the same match changes nothing |
| MatchingService.CleanupRemovesOnlyListed | backend/services/matchingService.js:165-171 | cleanup removes the session and the listed devices and keeps every other key, device, queue entry and publication |
| MatchingService.CleanupUndoesCommit | backend/services/matchingService.js:141-171 | cleanup right after a commit restores the active set, device map and session keys, minus the two devices |
| Geo.AtMostTotalOrder | backend/config/matchConfig.js:88 | the distance comparison (with Infinity last) is reflexive, total and transitive |
| Geo.FirstMinIndex | backend/config/matchConfig.js:88-89 | picks a smallest distance, the first of equals, as a stable ascending sort would |
| Geo.FirstMaxIndex | backend/config/matchConfig.js:117-118 | picks a largest value, the first of equals, as a stable descending sort would |
| Geo.Available | backend/config/matchConfig.js:73 | keeps exactly the users other than the requester, and is empty exactly when nobody else is queued |
| Geo.RankAll | backend/config/matchConfig.js:77-80 | decorates each available user, in order, with its distance from the requester |
| Geo.FirstNearestIsMinimal | backend/config/matchConfig.js:88-89 | the first entry after sorting by distance is no farther than any candidate |
| MatchConfig.DistanceStrategy | backend/config/matchConfig.js:72-90 | null exactly when no other user is within 100 km; otherwise another queued user within 100 km, with its own distance, no farther than any other such user |
| MatchConfig.NearbyAreValid | backend/config/matchConfig.js:77-83 | every other user within 100 km survives the distance filter |
| MatchConfig.IntersectionWithinUnion | backend/config/matchConfig.js:106-111 | shared interests never outnumber all interests, and are equal in number only for equal sets |
| MatchConfig.Similarity | backend/config/matchConfig.js:100-111 | similarity lies in [0, 1], is 0 exactly when nothing is shared, and is 1 exactly for equal non-empty interest sets |
| MatchConfig.SimilaritySymmetric | backend/config/matchConfig.js:106-111 | similarity does not depend on which user asks |
| MatchConfig.SimilarAll | backend/config/matchConfig.js:102-114 | decorates each available user, in order, with its similarity to the requester |
| MatchConfig.InterestsStrategy | backend/config/matchConfig.js:95-119 | null when nobody else is queued; otherwise throws without preferences, or returns another queued user of maximal similarity |
| MatchConfig.MostSimilarIsMaximal | backend/config/matchConfig.js:117-118 | the first entry after sorting by similarity is at least as similar as any candidate |
| MatchConfig.RandomStrategy | backend/config/matchConfig.js:124-131 | null exactly when nobody else is queued; otherwise some other queued user |
| MatchConfig.ScaledIndex | backend/config/matchConfig.js:129 | `Math.floor(Math.random() * n)` is the index k with k <= rnd * n < k + 1, hence below n |
| MatchConfig.DistanceScore | backend/config/matchConfig.js:147 | the distance score is never negative, at most 1 for a real distance, and 0 exactly at Infinity or 100 km and beyond |
| MatchConfig.CombinedScore | backend/config/matchConfig.js:158-160 | the combined score is never negative and at most 0.8 for a real distance |
| MatchConfig.HybridAll | backend/config/matchConfig.js:144-163 | decorates each available user, in order, with its combined, distance and interest scores |
| MatchConfig.HybridStrategy | backend/config/matchConfig.js:136-168 | null exactly when nobody else is queued; otherwise another queued user of maximal combined score |
| MatchConfig.BestHybridIsMaximal | backend/config/matchConfig.js:166-167 | the first entry after sorting by combined score scores at least as high as any candidate |
| MatchConfig.GetMatchFunction | backend/config/matchConfig.js:174-176 | "interests", "random" and "hybrid" select their strategy exactly; anything else, or nothing, selects distance |
| MatchConfig.ValidateUserData | backend/config/matchConfig.js:181-200 | valid exactly with a userId, a location, truthy coordinates and a given age within [18, 120]; the missing-field error exactly without userId or location; the coordinate error exactly when those are present but a coordinate is falsy; the age error exactly when all that passes and a given age is outside [18, 120]; no other result |
| MatchConfig.ZeroCoordinateRejected | backend/config/matchConfig.js:188-190 | a latitude of exactly 0 is refused as invalid coordinates |
| MatchConfig.ZeroAgeSkipsRangeCheck | backend/config/matchConfig.js:192-197 | an age of 0 is falsy and passes without a range check |
| RedisService.ReadQueue | backend/services/redisService.js:65-69 | reading the queue gives one user per hash field, in hash order |
| RedisService.ReadQueueUserIds | backend/services/redisService.js:66-69 | when payloads carry their key, the users read back are exactly the hash fields, in order |
| RedisService.PayloadUserIdOverridesKey | backend/services/redisService.js:66-69 | a userId inside the payload overrides the field it is filed under |
| RedisService.PutCarriesKey | backend/services/redisService.js:35 | HSET of a payload naming its own user keeps every entry naming its own field |
| RedisService.RemoveCarriesKey | backend/services/redisService.js:50 | HDEL keeps every entry naming its own field |
| RedisService.RemoveAbsentIsNoOp | backend/services/redisService.js:50 | HDEL of an absent field leaves the hash as it was |
| RedisService.ReAddOverwrites | backend/services/redisService.js:35 | re-adding a user overwrites its payload without adding an entry |
| RedisService.CalculateDistance | backend/services/redisService.js:94-109 | Infinity exactly when either location is missing, otherwise the great-circle distance |
| RedisService.NearestOther | backend/services/redisService.js:79-90 | null exactly when nobody else is queued; otherwise another queued user no farther than any other, with no distance cut-off |
| RedisService.SessionView | backend/services/redisService.js:135 | a hash with no fields reads as null, any other as itself |
| RedisService.LookupSession | backend/services/redisService.js:129-140 | the session is returned exactly when the read succeeds and its hash has fields |
| RedisService.CreatedSessionReadsBack | backend/services/redisService.js:117-135 | a created session reads back with user1 and user2 as written |
| RedisService.HalfWrittenSession | backend/services/redisService.js:116-125 | a session whose second field write failed reads back with user1 and no user2 |
| RedisService.RedisStore.AddToMatchQueue | backend/services/redisService.js:30-42 | true and HSET on success, false and no change on a storage error |
| RedisService.RedisStore.RemoveFromMatchQueue | backend/services/redisService.js:45-57 | true and HDEL on success, false and no change on a storage error |
| RedisService.RedisStore.GetMatchQueue | backend/services/redisService.js:60-74 | every queued user in hash order, or the empty list after a storage error |
| RedisService.RedisStore.FindBestMatch | backend/services/redisService.js:77-91 | null exactly when nobody else can be read from the queue; otherwise another queued user returned with its own calculateDistance, no farther than any other user |
| RedisService.RedisStore.CreateMatchSession | backend/services/redisService.js:112-126 | true exactly when all three writes succeed; a failure keeps the writes before it and sets no TTL |
| RedisService.RedisStore.GetMatchSession | backend/services/redisService.js:129-140 | the stored session hash, or null when it is empty or the read fails |
| WebsocketService.PartnerIsTheOther | backend/services/websocketService.js:181 | in a session of two different users each user's partner is the other |
| WebsocketService.PartnerOfOutsiderIsUser1 | backend/services/websocketService.js:181 | a caller outside the session is directed to user1, and a user paired with itself is its own partner |
| WebsocketService.PartnerSocket | backend/services/websocketService.js:181-184 | a partner socket exists exactly when the session names a partner who is connected |
| WebsocketService.LocationServer.Connect | backend/services/websocketService.js:12-36 | registers the requested or fresh userId with no location and no match, replacing an older entry, and acknowledges on the socket |
| WebsocketService.LocationServer.HandleLocationUpdate | backend/services/websocketService.js:94-106 | a connected caller's location is replaced; a missing payload throws; nothing is sent |
| WebsocketService.LocationServer.HandleFindMatch | backend/services/websocketService.js:108-167 | queues the caller, then either reports waiting or creates the session, notifies the caller and a connected partner, and takes both off the queue |
| WebsocketService.LocationServer.AnnounceMatch | backend/services/websocketService.js:125-158 | the session holds both users with a one-hour TTL, match_found goes to the caller and a connected partner, and neither stays queued |
| WebsocketService.LocationServer.HandleAcceptMatch | backend/services/websocketService.js:169-203 | records the match id on the caller; with the session and a connected partner, both are told the match started; a missing payload throws |
| WebsocketService.LocationServer.HandleChatMessage | backend/services/websocketService.js:205-235 | relays the text to a connected partner and acknowledges to the caller, only with a match id and a session; otherwise sends nothing |
| WebsocketService.LocationServer.HandleRejectMatch | backend/services/websocketService.js:237-250 | clears the caller's match id and confirms; throws exactly when the caller is not connected |
| WebsocketService.LocationServer.HandleLeaveChat | backend/services/websocketService.js:252-276 | tells a connected partner of the session, then clears the caller's match id |
| WebsocketService.LocationServer.HandleUserDisconnect | backend/services/websocketService.js:278-303 | takes the user off the queue, tells a connected partner, and deletes the user's connection |
| WebsocketService.LocationServer.StaleCloseDropsReconnected | backend/services/websocketService.js:14-50 | a user connected twice under one userId loses the newer connection when the older socket closes |
| WebsocketService.LocationServer.Receive | backend/services/websocketService.js:38-92 | an unparsable message and a thrown handler error are answered "Invalid message format", an unknown type "Unknown message type" |
| RelayServer.DeliveriesReachExactlyOthers | backend/server.js:59-67 | one relay pass reaches exactly the open sockets of the other devices in the room, never the sender's own device |
| RelayServer.ClosedRoomsAsWritten | backend/server.js:86-92 | the close handler as written: throws when the room is gone, deletes the device entry whatever socket it names, then an empty room |
| RelayServer.StaleCloseDropsLiveSocket | backend/server.js:86-92 | closing a replaced socket deletes the live socket's entry and the room, and the live socket's later close throws |
| RelayServer.ClosedRooms | backend/server.js:86-92 | closing leaves other rooms unchanged, leaves no empty room, and removes the device only when its entry names the closing socket |
| RelayServer.ClosingKeepsOtherSockets | backend/server.js:86-92 | closing one socket never unregisters another socket in any room |
| RelayServer.RelayHub.Connect | backend/server.js:40-50 | the room is the query's matchId or "default", the device is the query's deviceId or "device-" and a suffix, and its entry now names this socket |
| RelayServer.RelayHub.Broadcast | backend/server.js:59-67 | the frames sent are exactly one pass over the room's entries |
| RelayServer.RelayHub.Receive | backend/server.js:52-84 | "message" relays the text to the other open sockets; "leave" notifies them, unregisters the device and closes the socket; anything else, an unparsable frame or a missing room does nothing |
| RelayServer.RelayHub.Close | backend/server.js:86-92 | the close handler, with the corrected rule for a reused deviceId |
| UserModel.UserCollection.FindOne | backend/controllers/userController.js:13 | finds the document exactly when one is stored under the deviceId |
| UserModel.UserCollection.Save | backend/controllers/reportController.js:58 | saving replaces the document stored under its deviceId and keeps the collection keyed by deviceId |
| UserController.EligibleExactly | backend/controllers/userController.js:9-27 | eligible exactly when the deviceId is given and the user is found, unblocked and under five daily matches; status 400 exactly without a deviceId |
| UserController.BlockedBeatsDailyCount | backend/controllers/userController.js:19-25 | a blocked user is answered "User is blocked" whatever its daily count |
| UserController.EligibilityIn | backend/controllers/userController.js:13-17 | an unknown deviceId is answered "User not found" |
| UserController.Upserted | backend/controllers/userController.js:45-58 | the upsert sets gender, lastVerified and unblocks, keeps an existing daily count and starts a new one at 0 |
| UserController.CreateTestUser | backend/controllers/userController.js:36-66 | 400 and no change without a deviceId; otherwise 200 and the upserted document, gender defaulting to "unknown" |
| UserController.UpsertKeepsDailyMatches | backend/controllers/userController.js:45-58 | re-creating a user keeps its match count, so it is eligible again exactly when under the limit |
| ReportController.ReportKeysCanCollide | backend/controllers/reportController.js:14 | two different (match, reporter) pairs can share a report key when an id contains ':' |
| ReportController.ReportDataOf | backend/controllers/reportController.js:23-30 | the custom reason is kept only for reason "other", and the time is the given timestamp or now |
| ReportController.Reported | backend/controllers/reportController.js:45-57 | one report adds 1 to the count and 10 to the score, and blocks exactly when already blocked or the count reaches three |
| ReportController.ReportedTimesCounts | backend/controllers/reportController.js:45-57 | after n reports the counters grew by n and 10n, a block is never lifted, and a count of three or more blocks |
| ReportController.ThirdStrikeBlocks | backend/controllers/reportController.js:52-56 | a fresh user is not blocked by two reports and is blocked by the third |
| ReportController.SubmitReport | backend/controllers/reportController.js:5-64 | 400 for a missing field, 429 for a repeat report, else 200 with the report stored for 30 days (the write taken to succeed) and a known reported user updated; a refused report changes nothing |
| WebsocketClient.IndexOf | frontend/src/utils/websocketClient.js:182 | the first position of the callback, or -1 exactly when it is absent |
| WebsocketClient.RemoveFirstMeaning | frontend/src/utils/websocketClient.js:179-187 | off removes exactly the first occurrence and keeps the order of the rest; an absent callback changes nothing |
| WebsocketClient.OnThenOff | frontend/src/utils/websocketClient.js:169-187 | registering a new callback and removing it restores the listener list |
| WebsocketClient.FailedAreThrowingCalls | frontend/src/utils/websocketClient.js:192-202 | the logged failures are exactly the calls of throwing listeners, and a throwing listener does not stop the later ones |
| WebsocketClient.NextDelay | frontend/src/utils/websocketClient.js:217-232 | below five attempts the next delay is 3000 ms times the new attempt count; at five there is none |
| WebsocketClient.BackoffSchedule | frontend/src/utils/websocketClient.js:217-232 | from a fresh start the delays are 3, 6, 9, 12 and 15 seconds, then none |
| WebsocketClient.DelaysBounded | frontend/src/utils/websocketClient.js:217-232 | no delay exceeds 15 seconds, and retrying stops after five attempts |
| WebsocketClient.FairTalkSocket.constructor | frontend/src/utils/websocketClient.js:7-20 | the userId is the given one or "user-" and a suffix; not connected, nothing queued, no listeners, no attempts |
| WebsocketClient.FairTalkSocket.Connect | frontend/src/utils/websocketClient.js:27-33 | a socket now exists, not yet open |
| WebsocketClient.FairTalkSocket.Send | frontend/src/utils/websocketClient.js:96-106 | sent at once when connected with a socket, otherwise appended to the outbox |
| WebsocketClient.FairTalkSocket.FlushMessageQueue | frontend/src/utils/websocketClient.js:207-212 | the outbox empties onto the socket first-in first-out, after what was already sent |
| WebsocketClient.FairTalkSocket.On | frontend/src/utils/websocketClient.js:169-174 | the callback is appended after the event's existing listeners |
| WebsocketClient.FairTalkSocket.Off | frontend/src/utils/websocketClient.js:179-187 | the first occurrence of the callback is removed from the event's listeners |
| WebsocketClient.FairTalkSocket.Emit | frontend/src/utils/websocketClient.js:192-202 | every listener of the event is called in order with the same data, and the throwing ones are logged |
| WebsocketClient.FairTalkSocket.HandleMessage | frontend/src/utils/websocketClient.js:158-164 | the type's listeners get the other fields, then the 'message' listeners get the whole message |
| WebsocketClient.FairTalkSocket.OnOpen | frontend/src/utils/websocketClient.js:35-44 | connected, attempts reset, 'connected' emitted with the userId, outbox flushed in order |
| WebsocketClient.FairTalkSocket.AttemptReconnect | frontend/src/utils/websocketClient.js:217-232 | below the cap the attempt count rises by one and the delay is 3000 ms times it; at the cap 'maxReconnectAttemptsReached' is emitted |
| WebsocketClient.FairTalkSocket.OnClose | frontend/src/utils/websocketClient.js:61-66 | not connected; 'disconnected' emitted to its listeners, then the reconnect attempt: the count rises by one below the cap, the delay follows the backoff schedule, and at the cap 'maxReconnectAttemptsReached' is emitted after it |
| WebsocketClient.FairTalkSocket.OnError | frontend/src/utils/websocketClient.js:55-59 | 'error' emitted to its listeners, every other field unchanged |
| WebsocketClient.FairTalkSocket.Disconnect | frontend/src/utils/websocketClient.js:237-242 | with a socket the client is no longer connected; without one nothing changes |
| ProfileSetup.HandleSubmit | frontend/src/components/ProfileSetup.jsx:24-45 | completes exactly with a trimmed nickname of 3 to 20 and an untrimmed bio of at most 120; the nickname error comes first; the profile holds both trimmed |
| ProfileSetup.SubmitIsStable | frontend/src/components/ProfileSetup.jsx:26-41 | submitting a submitted profile again gives the same profile |
| ProfileSetup.PaddedBioRefused | frontend/src/components/ProfileSetup.jsx:33-36 | a bio over 120 characters is refused even if it would be short enough once trimmed |
| ProfileSetup.IsQuestionsComplete | frontend/src/components/ProfileSetup.jsx:16 | complete exactly when every question has a non-empty answer |
| ProfileSetup.HandleOptionSelect | frontend/src/components/ProfileSetup.jsx:12-14 | the question now has the chosen option and every other answer is unchanged |
| ProfileSetup.AnsweringEveryQuestionCompletes | frontend/src/components/ProfileSetup.jsx:12-16 | choosing a non-empty option for every question completes the questionnaire |
| Identity.GetOrCreate | frontend/src/utils/identity.js:3-21 | a stored truthy id is returned with nothing written; otherwise the fresh id is returned and stored with its creation time |
| Identity.GetOrCreateIdempotent | frontend/src/utils/identity.js:4-14 | a second call returns the first call's id and writes nothing |
| Identity.CreatedAtOnlyOnCreate | frontend/src/utils/identity.js:13-14 | the creation time is written only when an id is made, and no other key is touched |
| Identity.GetOrCreateDeviceId | frontend/src/utils/identity.js:3-21 | returns and stores the id as GetOrCreate does; the id is never empty |

## Left out

- WebsocketService.LocationServer.Receive: its contract states only the parse-error, unknown-type and reject_match cases; the other message types are stated on their handlers, not repeated on the dispatcher.
- MatchingService.MatchStore.Commit: the pipeline is not a MULTI/EXEC transaction, yet it is applied as one step with every command succeeding. Another client's commands between its stages, and a partly applied `exec` whose single commands fail, are not modelled. A rejecting ZRANGE is modelled (`Tick`'s `readFails`).
- WebsocketService.LocationServer: storage is taken not to fail in the socket server's calls into RedisService. RedisService.RedisStore models each error path on its own.
- RedisService.RedisStore: the queue hash is read back in insertion order. Redis keeps that order only for small listpack-encoded hashes (values of at most 64 bytes by default), and the queue's JSON payloads are longer, so HGETALL's order is in fact unspecified. The order `GetMatchQueue` returns and the user `FindBestMatch` picks among equally near users (all of them when the requester has no location) depend on it; the contracts promise only a nearest user, which holds in any order.
- RedisService.RedisStore.CreateMatchSession: the expiry of session keys is recorded as a TTL and never elapses. The expiry of report keys and of matching-engine session keys is also not modelled.
- `initializeRedis` and `getRedisClient`: client set-up and the "not initialized" throw are not modelled, because connecting a client is I/O.
- The haversine formula, NaN, and floating point in general: scores and distances are exact reals. The formula is passed in as a function.
- `Math.random`, `uuid`, `Date.now`, `setInterval`, `setTimeout`, and the random suffixes of ids are parameters. Timer scheduling and concurrency between handlers are not modelled.
- JSON parsing and serialisation, `toFixed` formatting of the reason text, and logging are not modelled. The reason is kept as its classification; `ReasonPrefix` is its text up to the score.
- How entries get into the matching engine's sorted set: no file of the core adds them.
- `Object.entries` lists integer-like keys first; keys are taken in insertion order.
- Unicode case mapping and UTF-16 lengths: lower-casing is ASCII-only, and lengths count characters.
- The HTTP 500 paths of the controllers (database errors) are not modelled.
- ReportController.SubmitReport: the report write is taken to succeed and to set a 30-day expiry. The call passes the expiry as an options object `{ ex: … }` to an ioredis client, and ioredis may not read that form (it takes `"EX", seconds`). If so, the write rejects into the 500 path: no report key is ever stored, the 429 branch cannot trigger, and the reputation update never runs. That library behaviour is outside this model.
- Mongoose strict mode is not modelled. It drops the undeclared `reportsCount` and `reportScore`; the model keeps them.
- ReportController.Reported: the three-strikes rule is proved for stored counters, which the program as written does not have. Under strict mode `save` never persists `reportsCount`, so every `findOne` reads it as undefined: each report sets it to 1 and `reportScore` to 10, `reportsCount >= 3` never holds, and no user is ever blocked by reports. `ReportedTimesCounts` and `ThirdStrikeBlocks` hold for the model, not for that program. This depends on Mongoose behaviour outside this model.
- WebsocketClient.FairTalkSocket: `getWebSocketUrl` reads the browser's location and build settings, and is not modelled.
- WebsocketClient.FairTalkSocket: the convenience senders (`sendLocation`, `findMatch`, `acceptMatch`, `rejectMatch`, `sendChat`, `leaveChat`) are each one `send` of a fixed type, and are not modelled separately.
- WebsocketClient.FairTalkSocket.OnError: the rejection of the `connect` promise is not modelled; no field depends on it.
- WebsocketClient.FairTalkSocket.Disconnect: the `close` event that `ws.close()` triggers arrives later as its own event, `OnClose`, which also schedules a reconnect; the model does not force that event to follow.
- WebsocketClient.FairTalkSocket.Emit: listeners that call `on` or `off` while an emit is running are not modelled. Listeners are ids, not code.
- MatchConfig.HybridStrategy: takes location and preferences directly, so the throw when `userData` itself is missing is not modelled.
- MatchConfig.ValidateUserData: takes the payload as a value, so the TypeError of destructuring a missing `userData` is not modelled.
- MatchConfig.GetMatchFunction: a strategy name that is an inherited object property (such as "toString") is treated like any unknown name.
- ProfileSetup: the question list comes from a data file and is a parameter. Rendering and the step counter are not modelled.
- The routes, the verification controller, the AI service and the React pages are not part of this model.

## Findings

| source | as written | input that shows it | evidently intended | confidence | as-written member | corrected member |
|---|---|---|---|---|---|---|
| backend/server.js:86-92 | the close handler deletes `sessions[matchId][deviceId]` whatever socket that entry names, then reads the room even after it was deleted | socket 1 and then socket 2 connect as device "A" to room "m"; socket 1 closes, which deletes socket 2's entry and the room; socket 2's close then reads a deleted room and throws | a closing socket removes only the entry that still names it, and a missing room is left alone | not executed | RelayServer.StaleCloseDropsLiveSocket | RelayServer.ClosingKeepsOtherSockets |
