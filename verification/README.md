# Firego, modelled and verified in Dafny

Firego is a small Firebase-style backend in Go. This project models the parts of it that carry state or an
algorithm, in the form the program has them, and proves what they are for.

* **The realtime database** (`Paths`, `JsonTree`, `TreeLaws`, `Heap`, `Database`, `Isolation`, `References`). The
  content is a JSON object; Set, Update and Delete are the pure function `Apply` on it, and its laws are proved there.
  The program itself walks and changes nested Go maps in place: `Heap` says when a heap of maps and slices is an
  unshared tree that stands for a JSON value, and each method of `Database.DB` is proved to keep that and to do to
  the value what `Apply` does. Get copies, and what it hands out is never touched again, whatever calls follow. What
  Set and Update are given stays referred to by their events; `References` says what that stands for later.
* **The hub** (`HubModel`, `Hub`, `HubSends`): a class over subscribers and bounded channels; its calls are steps of
  a state machine about which the theorem over all interleavings is proved, also for calls of Publish that overlap.
* **The stream** (`Reorder`, `Sharing`, `Catchup`, `Stream`, `StreamHub`, `Convergence`, `StreamLimits`, `StreamData`,
  `StreamHandler`): a database, the hub and one streaming client together. The client subscribes, takes a snapshot, and
  applies every event it is sent to a copy of its own. Writers commit under the lock and publish after it, so that
  events may come in another order than their writes; events of writes that the snapshot already holds are replayed on
  top of it; and the data of an event is a reference into the tree, read when the event is sent on, when later writes
  may have changed it. The replay law and what `Reorder` and `Catchup` build on it say when all this is harmless.
* **Push keys** (`PushId`, `PushUnique`, `PushOrder`, `PushList`, `PushSeries`): the generator with its digit and carry
  loops, the order and uniqueness of the keys, and the list that a series of pushes leaves.
* **Security rules** (`Tokenizer`, `Evaluator`, `Grammar`, `Reading`, `Refusal`, `RuleTexts`, `RuleSet`, `RuleSamples`):
  the tokenizer, the parser that evaluates while it reads, the documented grammar and its meaning, what any text is
  read as, which texts refuse everybody, and the walk down the rules tree.
* **The rate limiter** (`RateLimit`) and **token revocation** (`Jwt`, `Auth`), as classes and as runs over a clock.

A clock reading, random bytes, and the MAC are parameters. A call under a mutex is one step; calls of Publish, which
hold theirs for reading only, overlap in `HubSends`.

## Where the program and what is written about it differ

The model follows the code.

* "The event is at, above, or below the watched node" (`internal/realtime/hub.go:51-52`) fails between the root and
  any other node: `/` matches only `/`. `Paths.MatchesIsRelated` says exactly when the test holds, and
  `StreamLimits.AlignmentExact` for which pairs of paths a client is left behind by a single write.
* Every mutation is broadcast to the streams, but outside the lock (`internal/database/database.go:117-121`): when
  writes to related paths overtake each other on the way to the hub, a client may end with another value than the
  database. `StreamLimits.PublishOrderExact` says for which pairs of paths that can be.
* Push keys sort "by creation time" (`internal/database/database.go:238-239`): a key is above the previous one
  exactly if the clock went on, or stood still and the suffix was not all 63 (`PushId.NextKeyOrder`,
  `PushId.RunOrder`; a failing input is in `PushId.WrapBreaksOrder`), which `PushOrder.RunOrderExact` says of the clock
  and the first suffix of each millisecond alone. They are "globally unique", as far as one
  run of the program with a clock that does not go back is concerned, exactly if no millisecond has more than 64^12
  calls (`PushUnique.KeysUnique`; a failing input is in `PushUnique.KeyRepeats`).
* "On any parse error it returns false" (`internal/rules/rules.go:467`): which texts are well-formed is
  `Reading.WellFormedExact`. A text that is not refuses every user and binding exactly if it refuses finitely many that
  are made of its own strings (`Refusal.FailsClosedExact`); a lone `!` grants (`Refusal.LoneNotGrants`).
* The limiter "allows at most limit requests per dur" (`internal/ratelimit/ratelimit.go:27`): of every interval of
  that length this is true exactly for a limit of one (`RateLimit.LimitPerDuration`). The bound that does hold is met by
  a run (`RateLimit.BoundAttained`).
* "Subsequent Verify calls with the same token return ErrTokenRevoked" (`internal/auth/auth.go:202`): for as long as
  the program runs, that is the answer until the token expires, and that it is invalid from then on, exactly if the
  token has an id and an expiry (`Auth.RevocationExact`).
* Section 4.1.4 of RFC 7519 has a token refused on its expiry time; the code accepts it in that second
  (`Jwt.Lifetime`).

## Model

| member | source | states |
|---|---|---|
| Paths.EventNamesPath | internal/database/database.go:206-211 | the path published for a write is the canonical text of the written segments, and splits into those segments again |
| Paths.TextRoundTrip | internal/database/database.go:74-80 | splitting undoes the text form of every canonical segment list, inner empty segments included |
| Paths.SplitExact | internal/database/database.go:74-80 | a path text names a segment list exactly if the list is canonical and the text is that of the list with any number of slashes before and behind it |
| Paths.OuterSlashes | internal/database/database.go:74-80 | slashes before and behind a path change neither its segments nor the path published for it |
| Paths.PushSegments | internal/database/database.go:154-161 | for every path, whatever slashes it starts or ends with, Push writes at the segments of the path and then the key |
| Paths.MatchesIsRelated | internal/realtime/hub.go:53-66 | the byte-level prefix test holds exactly if one segment list is a prefix of the other and not just one of them is the root |
| TreeLaws.SubtreeProjection | internal/database/database.go:103-204 | what is read at a path after Set, Update or Delete is a function of the operation and of what was read there before |
| TreeLaws.ProjectCases | internal/database/database.go:103-204 | that function for an operation at or below, above, and beside the path read |
| TreeLaws.Frame | internal/database/database.go:103-204 | an operation changes nothing that is read at a path neither above nor below its own |
| TreeLaws.Commute | internal/database/database.go:103-204 | operations at incomparable paths commute, also when a common ancestor was absent or a scalar |
| TreeLaws.Idempotent | internal/database/database.go:103-204 | repeating an operation changes nothing |
| TreeLaws.Congruent | internal/database/database.go:103-204 | trees that an operation makes equal are still made equal by it after any other operation on both |
| TreeLaws.Replay | internal/database/database.go:103-204 | running any history of operations again on its own result gives that result |
| Reorder.SameEffect | internal/database/database.go:103-204 | two orders of a history have the same effect if only operations at incomparable paths change places |
| Reorder.ReplayReordered | internal/server/server.go:560-578 | a history, part of which was already carried out, carried out again in another order, has the effect of the history, if each operation is independent of the later ones that overtake it |
| Heap.TracksStands | internal/database/database.go:26-32 | a heap that is laid out as an unshared tree stands, at every path, for the value there |
| Heap.EntryReplaced | internal/database/database.go:114-114 | overwriting or removing one entry of one map keeps the heap an unshared tree and replaces exactly that entry of the value |
| Heap.StoreEntry | internal/database/database.go:114-114 | storing a separate value in one map of the tree is Put at the path of that map and the key |
| Heap.DropEntry | internal/database/database.go:179-179 | deleting an entry of one map of the tree is Delete at the path of that map and the key |
| Database.EnsureParent | internal/database/database.go:193-204 | the walk ends at the map of the parent path, having put empty maps where none stood and changed nothing else |
| Database.DB.StoreValue | internal/database/database.go:104-115 | the locked part of Set does to the value what Put at the path does, and keeps the heap a tree without foreign objects |
| Database.DB.Set | internal/database/database.go:103-123 | Set refines Put, keeps the heap a tree, and publishes one put event for the path |
| Database.CopyEntries | internal/database/database.go:140-142 | copying the entries one by one, in any order, patches the target with all of them |
| Database.DB.Update | internal/database/database.go:126-150 | Update refines Patch, keeps the heap a tree, and publishes one patch event |
| Database.DeleteAt | internal/database/database.go:170-180 | the walk removes the entry, or changes nothing when it meets no object on its way |
| Database.DB.Delete | internal/database/database.go:164-189 | Delete refines removal at the path, keeps the heap a tree, and publishes one delete event |
| Database.Walk | internal/database/database.go:87-98 | the walk of Get finds the reference that stands for the value at the path, or reports that there is none exactly when there is none |
| Database.DeepCopy | internal/database/database.go:213-230 | the copy stands for the same value and consists of new maps and slices only |
| Database.DB.Get | internal/database/database.go:83-100 | Get finds exactly what the content has at the path, as a new unshared copy |
| Database.DB.Push | internal/database/database.go:154-161 | Push puts the value under the segments of the path and the generated key, returns that key, and publishes the child path |
| Isolation.GetIsolated | internal/database/database.go:99-99 | what Get returns shares no map or slice with the database or the hub |
| Isolation.SetKeepsReads | internal/database/database.go:103-123 | Set touches no map or slice of an isolated value and leaves it isolated |
| Isolation.UpdateKeepsReads | internal/database/database.go:126-150 | Update touches no map or slice of an isolated value and leaves it isolated |
| Isolation.DeleteKeepsReads | internal/database/database.go:164-189 | Delete touches no map or slice of an isolated value and leaves it isolated |
| Isolation.PushKeepsReads | internal/database/database.go:154-161 | Push touches no map or slice of an isolated value and leaves it isolated |
| Isolation.SeriesKeepsReads | internal/database/database.go:103-189 | so does any series of Set, Update, Delete and Push, whose effect is that of the operations one after the other, and whose keys are those that the generator gives one after the other |
| Isolation.EarlierReadKept | internal/database/database.go:82-99 | after any series of later calls a value that was read stands for what was stored when it was read |
| Isolation.UntouchedTracks | internal/database/database.go:82-82 | a value none of whose maps and slices was touched stands for what it stood for |
| References.StepFollows | internal/database/database.go:103-204 | when an operation is done, a reference that was handed over before is the map in the tree at its path, changed as the account of shared data says, or stands for the value it stood for when it left the tree |
| References.LeavesWhole | internal/database/database.go:103-204 | the maps of an object that an operation overwrites or removes hold what they held |
| References.LeftIsOff | internal/database/database.go:103-204 | what an operation takes out of the tree is not in it afterwards, so that no later call writes it |
| References.HandedOver | internal/database/database.go:103-189 | after any series of later calls, the data of the event of a call, a reference into the maps that later calls write, stands for exactly what the account of shared data says of that event when it is read late |
| HubModel.HubRun | internal/realtime/hub.go:34-82 | in every interleaving: a channel is open exactly while registered and holds at most 16 events; received and queued events are in order a part of the matching ones; every matching event was received, is queued or was dropped |
| HubModel.NoPanic | internal/realtime/hub.go:40-82 | no step of any run sends to a closed channel or closes one again |
| HubModel.DroppedExact | internal/realtime/hub.go:76-80 | in every run an event offered to a subscriber is queued last if fewer than 16 are queued, and dropped otherwise |
| HubModel.NothingLost | internal/realtime/hub.go:70-82 | a subscriber without drops has received or queued exactly the matching events published while it was subscribed |
| HubSends.SeenSerial | internal/realtime/hub.go:70-82 | in every interleaving of overlapping calls of Publish, each subscriber sees a run of single steps that has each call exactly once, unless it has still to send to it, and the same channel at its end |
| HubSends.SeenInTurn | internal/realtime/hub.go:70-82 | each subscriber sees a call that ended before another began before that other |
| HubSends.BusyRun | internal/realtime/hub.go:34-82 | so the run theorem holds of every subscriber, overlapping calls included |
| HubSends.SendsToOpen | internal/realtime/hub.go:70-82 | nor does a send of overlapping calls go to a closed channel |
| HubSends.PublishAlone | internal/realtime/hub.go:70-82 | a call of Publish that nothing interrupts, in whatever order it sends, does what the one step does |
| HubSends.SingleSteps | internal/realtime/hub.go:34-82 | every run of single steps is one of overlapping calls, so that nothing that holds of these is lost in those |
| Hub.Hub.Subscribe | internal/realtime/hub.go:34-49 | registers a new subscriber with a new open channel, as the subscribe step |
| Hub.Hub.Unsubscribe | internal/realtime/hub.go:40-47 | removes and closes once; for a subscriber that is gone it does nothing |
| Hub.Hub.FanOut | internal/realtime/hub.go:73-81 | the loop over the registered subscribers, in any order, offers the event to exactly the matching ones and drops it where the channel is full |
| Hub.Hub.Publish | internal/realtime/hub.go:70-82 | the call is the publish step of the state machine; no channel it sends to is closed |
| Hub.Hub.Accounts | internal/realtime/hub.go:15-24 | the run theorem, of the objects in every reachable state of the hub |
| Sharing.AttachedReads | internal/database/database.go:114-121 | as long as no write at or above it took it out of the tree, the data of a put is what the database holds at its path |
| Sharing.LateRead | internal/server/server.go:574-578 | reading an event late has the effect of its write and then of those later writes that have changed its data |
| Catchup.Absorbed | internal/database/database.go:103-204 | an operation that comes again later need not be done before |
| Catchup.SentSuffice | internal/realtime/hub.go:70-82 | for the value at the stream's path the writes that are sent do what all the writes do |
| Catchup.CatchesUp | internal/server/server.go:560-578 | a copy that agrees with the content at the snapshot, and is given the events of all later writes, some of earlier ones, in another order, and with later writes in their data, agrees with the content at the end, if only unrelated writes overtake each other |
| Catchup.CatchesUpAfresh | internal/server/server.go:574-578 | so does any copy that is given all events from a put or removal of the whole stream on |
| Convergence.Converges | internal/server/server.go:560-584 | in every run of many writers, with commits and publications interleaved and event data read late, a client that lost no event and has applied all it was sent holds at its path what the database holds, if only writes to unrelated paths were published out of order |
| Convergence.ConvergesInTurn | internal/server/server.go:560-584 | in particular if events are published in the order of the writes |
| Convergence.Recovers | internal/realtime/hub.go:76-80 | a client that has lost events holds what the database holds again once a put or removal at or above its path was sent to it after the last loss |
| StreamLimits.AlignmentExact | internal/realtime/hub.go:53-66 | a client that is there for one write and has applied all it was sent is sure to be in step exactly if the write is to the root just when the stream is |
| StreamLimits.PublishOrderExact | internal/database/database.go:117-121 | two writes that are sent to a client, published the other way round and applied, are sure to leave it in step, whatever they write, exactly if their paths are unrelated |
| StreamLimits.LossLeavesBehind | internal/realtime/hub.go:76-80 | on every path: when more puts than the channel holds come before the client reads, and it applies all that is queued, it is in step exactly if the last put that found room and the last of all put the same value |
| StreamData.WrittenExact | internal/server/server.go:574-591 | what a stream is written at once for a write that it is told of is fixed by what then stands at its path, whatever is written, exactly if the write is at or below that path and not to the root |
| Stream.StaysGood | internal/server/server.go:560-584 | in every reachable state the copy of a live client is its snapshot with the events it was given, and what it was given and is queued ends in all that was sent to it since its last loss, or is all if there was none |
| StreamHub.HubOfRun | internal/server/server.go:560-584 | the hub of every run is that of a run of the hub by itself, with the steps of all other subscribers; the client is registered exactly from when it connects until it disconnects |
| StreamHub.OthersAccounted | internal/realtime/hub.go:34-82 | so the run theorem of the hub holds of the other subscribers too |
| StreamHandler.Open | internal/server/server.go:547-566 | without leave of the rules at the path nothing happens; with it, the handler subscribes to the canonical prefix first and then writes the snapshot, a copy of the value there, if there is one; the database and the hub stay in order |
| StreamHandler.Forward | internal/server/server.go:574-578 | one round of the loop writes the first queued event, if any |
| PushId.AlphabetSorted | internal/database/database.go:22-24 | the alphabet is in byte order |
| PushId.EncodeValue | internal/database/database.go:248-252 | eight digits hold a time below 64^8 without loss |
| PushId.BumpValue | internal/database/database.go:261-268 | the carry loop adds exactly one, or wraps to zero if all digits are 63 |
| PushId.ReducedBytes | internal/database/database.go:254-260 | each digit of the suffix comes from exactly four values of its random byte, the byte itself if it is below 64 |
| PushId.SpellOrder | internal/database/database.go:22-24 | spelled keys of one width are ordered as strings as their digits are as numbers |
| PushId.NextKeyOrder | internal/database/database.go:240-274 | a key is above the previous one exactly if the clock went on, or stood still and the suffix was not all 63 |
| PushId.RunOrder | internal/database/database.go:238-274 | the keys of a run are strictly ascending exactly if every call after the first advances |
| PushOrder.RunOrderExact | internal/database/database.go:238-274 | the keys of a run are strictly ascending exactly if the clock does not go back and in each millisecond the number of the first suffix and of the further calls stays below 64^12 |
| PushId.WrapBreaksOrder | internal/database/database.go:262-268 | after a suffix of all 63, the next key of the same millisecond is below its predecessor |
| PushUnique.KeysUnique | internal/database/database.go:238-274 | the keys of a run with a clock that does not go back are unique exactly if no millisecond has more than 64^12 calls, also where the suffix wraps |
| PushUnique.KeyRepeats | internal/database/database.go:254-268 | of 64^12 + 1 calls at one time the first key and the last are equal |
| PushId.Generator.TimeDigits | internal/database/database.go:248-252 | the digit loop writes the encoded time |
| PushId.Generator.Increment | internal/database/database.go:262-268 | the carry loop replaces the digits by those of the successor |
| PushId.Generator.Generate | internal/database/database.go:240-274 | a call moves the generator state as specified and returns the key of the new state |
| PushList.PushedMembers | internal/database/database.go:152-161 | below a node without members, a series of pushes leaves exactly the pushed values under their keys |
| PushList.OneListing | internal/database/database.go:22-24 | a set of keys has one ascending listing |
| PushList.PushListOrder | internal/database/database.go:152-161 | below a node without members, listing the keys in byte order gives the keys in push order exactly if the clock does not go back and every millisecond has room, and then the values are in push order too |
| PushSeries.SeriesListing | internal/database/database.go:152-161 | the same for any series of calls of Push on texts of one path, whatever slashes they are written with, and the keys that these calls return |
| PushSeries.PushAll | internal/database/database.go:152-161 | so on the database itself, after such a series of calls |
| Tokenizer.Tokenize | internal/rules/rules.go:255-309 | the index loop with its inner scans yields the tokens of the specification |
| Tokenizer.LexEnds | internal/rules/rules.go:307-308 | every text has one EOF token, the last |
| Tokenizer.LexLayout | internal/rules/rules.go:255-309 | tokens written in either quote style and with any white space that keeps them apart are read back exactly, with longest match for the operators |
| Tokenizer.LexSpaced | internal/rules/rules.go:255-309 | the same for separating spaces, for every sequence of writable tokens |
| Tokenizer.OneName | internal/rules/rules.go:296-302 | a text of bytes is one identifier exactly if it is not empty, has only letters, digits, `_` and `$`, and does not begin with a digit; letters beyond ASCII are those of Latin-1 |
| Tokenizer.PassedOver | internal/rules/rules.go:277-304 | a character that begins no token, and a single `=`, `&` or vertical bar, is passed over, whatever follows |
| Tokenizer.UnclosedString | internal/rules/rules.go:287-295 | a string that is not closed goes to the end of the text |
| Evaluator.EvalParser.ParseOr | internal/rules/rules.go:363-371 | the loop computes the value and leaves the tokens that the recursive specification says |
| Evaluator.EvalParser.ParseAnd | internal/rules/rules.go:373-381 | likewise, one level down |
| Evaluator.EvalParser.ParseCmp | internal/rules/rules.go:383-396 | likewise, for at most one comparison |
| Evaluator.EvalParser.ParseUnary | internal/rules/rules.go:398-405 | likewise, for negation |
| Evaluator.EvalParser.ParsePrimary | internal/rules/rules.go:407-432 | likewise, with parentheses and dotted chains; the cursor never goes back |
| Evaluator.EvalText | internal/rules/rules.go:468-471 | the program evaluates a text as the specification does; it ends on every text |
| Evaluator.StopsAtEOF | internal/rules/rules.go:348-361 | on every text the cursor stops at or before EOF, having read no EOF |
| Grammar.ParensDerive | internal/rules/rules.go:5-13 | parentheses put by precedence make a derivation of every expression and keep its meaning |
| Reading.ReadsPrimary | internal/rules/rules.go:407-464 | a phrase of the lowest level is read as itself and exactly its tokens are consumed |
| Reading.ReadsOr | internal/rules/rules.go:363-432 | the same for every expression, with parentheses wherever the grammar allows them |
| Reading.EvaluatesMeaning | internal/rules/rules.go:468-471 | for every derivation of the grammar, every layout of its tokens, every user and binding: the text is read to its end, and evaluating it is the truth of the meaning |
| Reading.PrintedEvaluates | internal/rules/rules.go:468-471 | in particular for the printed text, with parentheses by precedence |
| Reading.Unambiguous | internal/rules/rules.go:5-13 | no two derivations have the same tokens |
| Reading.WellFormedExact | internal/rules/rules.go:466-467 | a text is a layout of a derivation exactly if every character belongs to a token, the tree it is read as has no error in it, and no token is left over |
| Reading.KeywordMembers | internal/rules/rules.go:5-13 | a keyword followed by a dot and a name is not well-formed |
| Reading.AnyTextEvaluates | internal/rules/rules.go:468-471 | every text, well-formed or not, begins with the tokens of exactly one tree of phrases and marked errors, and evaluates to the truth of that tree, for every user and binding |
| Refusal.RefusalExact | internal/rules/rules.go:466-471 | an expression is false for every user and binding exactly if it is false for finitely many, made of the strings in it, two constants and a few fresh strings |
| Refusal.FailsClosedExact | internal/rules/rules.go:466-467 | the promise that a malformed text evaluates to false for everybody holds of a text exactly if it is well-formed or refuses those finitely many |
| Refusal.LoneNotGrants | internal/rules/rules.go:466-471 | the text `!` is malformed and evaluates to true |
| RuleTexts.TruthOfText | internal/rules/rules.go:325-325 | a text evaluates to false for null, false and the empty string, and to true for anything else |
| RuleTexts.StringsAsCompared | internal/rules/rules.go:325-325 | a text for a string evaluates as a text that compares that string with the empty one by `!=` |
| RuleTexts.NegatedText | internal/rules/rules.go:398-404 | a text for a negation evaluates to the opposite of a text for what is negated |
| RuleTexts.ConjoinedText | internal/rules/rules.go:373-381 | a text for a conjunction evaluates to true exactly if texts for both parts do |
| RuleTexts.DisjoinedText | internal/rules/rules.go:363-371 | likewise for a disjunction, if a text for either part does |
| RuleTexts.ComparedText | internal/rules/rules.go:383-396 | the texts for `==` and `!=` between the same sides evaluate to opposites |
| RuleTexts.AuthText | internal/rules/rules.go:442-447 | `auth` evaluates to whether there is a user, and `!auth` to the opposite |
| RuleTexts.MemberText | internal/rules/rules.go:449-454 | `auth.uid` and `auth.email` evaluate to true exactly for a user of whom they are not empty |
| RuleTexts.VariableText | internal/rules/rules.go:456-461 | a `$` variable evaluates to true exactly where it is bound to a segment that is not empty |
| RuleTexts.UnknownText | internal/rules/rules.go:436-463 | any other name evaluates to false |
| RuleTexts.TrueText | internal/rules/rules.go:436-437 | `true` evaluates to true |
| RuleSet.RuleSet.Check | internal/rules/rules.go:177-213 | the loop takes a literal-first walk; it allows only at a node that grants, and refuses only after a complete walk without one; with at most one wildcard at each node it allows exactly if some node on the walk grants |
| RuleSet.CheckDecides | internal/rules/rules.go:177-213 | with at most one wildcard at each node, Check allows exactly if some node on the walk grants under the variables bound up to it |
| RuleSet.ReadsDecide | internal/rules/rules.go:215-220 | who may read is decided by the read rules alone: trees that differ in their write rules only answer every read alike |
| RuleSet.WritesDecide | internal/rules/rules.go:215-220 | likewise for writing and the write rules |
| RuleSet.LiteralFirst | internal/rules/rules.go:193-203 | children that are added beside the literal ones on the way change no answer, wherever in the tree |
| RuleSet.AddedChild | internal/rules/rules.go:193-203 | in particular a wildcard child added to the root changes no answer at or below its literal children |
| RuleSet.WildcardsTake | internal/rules/rules.go:193-206 | a segment that is no literal child goes to the children whose names begin with `$`, and to no other, and is bound to that name |
| RuleSet.BoundToSegment | internal/rules/rules.go:15-19 | on every walk down every tree of rules, a step to a wildcard child binds its variable to the segment exactly if the segment is not spelled like that wildcard |
| RuleSet.CheckCascades | internal/rules/rules.go:186-211 | a request that is allowed at a path is allowed at every path below it |
| RuleSamples.DefaultNeedsUser | internal/rules/rules.go:32-32 | under the default rules every request of a user is allowed and no other |
| RuleSamples.UsersReadNobodyWrites | internal/rules/rules.go:215-220 | with the default rule for reading and the refusing one for writing, exactly the users read and nobody writes |
| RuleSamples.DefaultText | internal/rules/rules.go:32-32 | the default rule is written as that lemma supposes |
| RuleSamples.NobodyText | internal/rules/rules_test.go:45-45 | the rule that refuses everybody is written as the next lemma but one supposes |
| RuleSamples.OwnerText | internal/rules/rules_test.go:45-45 | so is the rule of the own node |
| RuleSamples.OwnNodeOnly | internal/rules/rules_test.go:44-62 | with the per-user rules, exactly the owner reaches a user's node and what is below it; at a segment spelled `$uid` itself, exactly the requests without a user |
| RuleSamples.OwnNodeReads | internal/rules/rules_test.go:44-62 | with the read rules of that sample and any write rules, exactly the owner reads the node |
| RuleSamples.OwnNodeWrites | internal/rules/rules_test.go:44-62 | with the write rules of that sample and any read rules, exactly the owner writes the node |
| RateLimit.Limiter.Allow | internal/ratelimit/ratelimit.go:35-49 | the answer and the new windows |
| RateLimit.Limiter.Cleanup | internal/ratelimit/ratelimit.go:52-65 | the loop drops exactly the windows that have passed |
| RateLimit.CleanupInvisible | internal/ratelimit/ratelimit.go:51-65 | every request is answered as in the run without the cleanups before it |
| RateLimit.CleanupExact | internal/ratelimit/ratelimit.go:51-65 | after any run, a pass keeps exactly the windows that can still change the answer to some request at that time or later |
| RateLimit.RateBound | internal/ratelimit/ratelimit.go:35-49 | an interval of length L lets through at most (ceil(L/dur)+1)*max(1,limit) requests of a key, one less if L > 0 |
| RateLimit.BoundAttained | internal/ratelimit/ratelimit.go:35-49 | for every limit and every interval of up to dur whole windows some run meets that bound |
| RateLimit.RefusedWhenFull | internal/ratelimit/ratelimit.go:42-46 | a request is refused only if at least max(1,limit) requests of its key were let through in the time dur before it |
| RateLimit.LimitPerDuration | internal/ratelimit/ratelimit.go:27-32 | no interval of length dur ever lets through more than limit requests exactly if the limit is one |
| Jwt.Lifetime | internal/jwt/jwt.go:45-93 | a signed token is accepted from 30 seconds before it was issued to the second it expires, with the claims it was signed for |
| Jwt.ParseExact | internal/jwt/jwt.go:65-92 | a token under the header of Sign is accepted exactly if Sign made it with the same MAC, and in its lifetime |
| Jwt.TamperedRefused | internal/jwt/jwt.go:71-75 | if the MAC tells claims apart, an accepted token is refused at all times after its claims were changed |
| Jwt.AcceptedUntilExpiry | internal/jwt/jwt.go:64-93 | a token accepted once is accepted until it expires |
| Auth.Service.RegisterUser | internal/auth/auth.go:142-170 | a taken email changes nothing; otherwise the user is added under both keys and a token issued |
| Auth.Service.LogoutToken | internal/auth/auth.go:203-215 | an accepted token with an id is listed with its expiry; nothing else changes |
| Auth.Service.VerifyToken | internal/auth/auth.go:219-242 | the verdict, the checks in this order: token, list, user |
| Auth.Service.CleanBlacklist | internal/auth/auth.go:257-265 | the loop drops exactly the entries whose tokens have expired |
| Auth.StaysListed | internal/auth/auth.go:253-266 | in every run the entry of a logged out token stays until the token has expired |
| Auth.RevokedForGood | internal/auth/auth.go:201-242 | after Logout of a token with id and expiry every later Verify finds it revoked until it expires and invalid from then on, in any run in which no token with its id and another expiry is logged out |
| Auth.RevocationExact | internal/auth/auth.go:201-215 | for every token that Logout accepts, that holds of all later runs exactly if the token has an id and an expiry |
| Auth.IssuedIsRevocable | internal/auth/auth.go:244-250 | it holds of every token that Register and Login issue |
| Auth.AcceptedForLifetime | internal/auth/auth.go:219-250 | a token that is not logged out is accepted during its lifetime and at no other time, in any run |
| Auth.RegisteredAccepted | internal/auth/auth.go:142-199 | after a registration under a free key, and any later calls that register no one else under the same id, the key still belongs to that user, also after further registrations with it, and a token issued for the user, by Register or Login, yields exactly that user in its lifetime |
| Auth.RegisteredTokenAccepted | internal/auth/auth.go:142-170 | in particular the token of the registration itself, which carries the id and email of the user, unless it is logged out |
| Auth.AcceptedRegistered | internal/auth/auth.go:219-242 | since the start of the program, a user that a token yields was registered, as the first under that key, and the token names that user and has the right MAC |
| Auth.RevokedLoggedOut | internal/auth/auth.go:203-232 | since the start of the program, a token is found revoked only if one with its id was logged out while accepted |
| Auth.OnlySigned | internal/auth/auth.go:219-223 | in every state that calls lead to, a token under the header of Sign is other than invalid exactly if Sign made it, in its lifetime |
| Auth.TamperedInvalid | internal/auth/auth.go:219-223 | if the MAC tells claims apart, an issued token with other claims is invalid in every state and at every time |
| Auth.CleanExact | internal/auth/auth.go:253-266 | a pass keeps exactly the entries with an expiry that can still change the answer to a token with that expiry |

## Left out

- Convergence.Converges: encoding an event is one step; in the program it reads the shared maps without the lock.
- Convergence.Converges: the client that applies events to a copy of its own is a model of what the stream is for; the repository has no such client.
- Convergence.Converges: a call of Publish is one step; for one subscriber that is no loss, by `HubSends.SeenSerial` and `HubSends.SeenInTurn`.
- Convergence.Converges: the copy of the client is an object, as the root of the database is; after a put of a scalar or a removal at the root both are `{}`, while the event carries the scalar or null.
- References.HandedOver: calls come one after the other here, as they do under the lock.
- StreamHandler.Open: who the user is, is a parameter; the steps of other requests between subscription and snapshot are in `Stream`, not here; the keep-alive timer and the cancelled request only end or pause the loop.
- Heap.Stands: slices are never written by the database, so what lies below them may be shared and is not addressed by paths.
- Database.DB.Update: a nil map as argument is modelled as an empty one.
- Database.DB.Set: the caller hands its value over, so that no other reference into it is left; this is what decoding a request gives.
- Database.DB.Set: saving to disk is taken to succeed and left out, with loading, in all four operations.
- PushId.Generator.Generate: the clock is not negative; a negative one makes the Go code index out of range.
- RuleSet.CheckDecides: at most one wildcard child at each node; with more, Go's map order picks one, and `RuleSet.RuleSet.Check` says what holds then.
- Grammar.Derivation: `true`, `false` and `null` followed by members are no accesses of the grammar here; the code ignores the members.
- Auth.RevocationExact: Verify reads the clock once, for the token and the list together.
- Auth.Service.LoginUser: whether the password matches is a parameter; bcrypt, the email pattern and storage of users are left out.
- Jwt.Parse: base64 and JSON are left out, and the MAC is any function of header and claims.
- Rules: reading rule trees from JSON and writing them back is a plain structural mapping and left out.
- `validateDBPath`: the laws hold for every path text, so which ones the server lets through does not matter to them.
- HTTP routing, middleware, logging, SSE framing and request decoding: no state worth a proof.
- `internal/storage`, `internal/apps`: file access and flat maps that would only add easy members.
