# Postino, verified

Postino keeps data in memory and serves it to clients. This project models its algorithms in Dafny and proves what
its code and documentation promise of them. `dafny verify dfyconfig.toml` checks everything.

| file | what it models |
|---|---|
| `Words`, `Glob`, `Automaton`, `GlobMatcher`, `GlobLaws` | glob patterns: reading a pattern, the special forms, and the bit-parallel automaton over 64-bit words, against recursive matching, and what patterns match in terms of their own text |
| `Capturing`, `Captured`, `Db` | snapshots taken in runs beside changes to the map, the keyspace, and its expiry index |
| `Commands`, `Laws`, `ExpiryLaws`, `Needs`, `Execution` | what commands on strings, lists and sets mean, laws of that meaning, what each needs of the limits, their execution under limits with expired keys still in memory, and replay of the journal |
| `Heads`, `Conn`, `ConnLaws` | request heads as bytes arrive, a connection of the event loop with backpressure, and what it makes of each request by its service's own answers |
| `Events`, `EventLaws` | the event feed with replay, dropped readers, and names that change hands, and whom an event reaches |
| `Waiters` | blocking waits under one lock |
| `Ids`, `Streams` | entry ids, streams, consumer groups and their lags |
| `Keys`, `Scan` | key order, scopes, walks in runs and SCAN paging |
| `ZSet` | sorted sets, with floats as sign and magnitude |
| `Trim` | fair trimming of broadcasts |
| `Arguments`, `KeyUse` | which arguments of a command are keys, and that a command uses no others |
| `Spread` | placement of chart labels by pooling adjacent violators, over the reals |
| `Sorting`, `Common` | sets in order; `Option`, `Result`, bytes, and facts about sets and sequences |

How the source is read:

- An object whose methods update its fields is a class with those fields. A `BTreeMap` is a map with a total
  order on its keys, and an ordered walk takes the least key not yet passed.
- Functions on values say what a step does; methods do it, and are proved against them. Theorems over whole
  runs are methods named `Play`, `Serve`, `Replay`, `Converse` or `ScanThrough`: they take any list of steps, so they
  hold for every interleaving. What a run leads to is a `Story`: what each step makes of the state before it, its reply
  included.
- Serializing a value, parsing a request beyond its head, encoding a response, what a service answers, and
  parsing a number are arbitrary functions, total or failing. Clocks, socket results and random choices are
  parameters.
- Times and counts are natural numbers, with 64-bit bounds written out where the source checks them: expiry
  times, entry ids, event ids.

Where the code does not do all one might expect, the model keeps the code as it is and says exactly when:

- RENAME notes the new key's deadline before the key is stored. When that makes the index rebuild itself, the
  deadline is lost, and the expire cycle passes the key over until the index is rebuilt again or the key gets another
  expiry. `Database.Db.Rename` states that the index still covers every key afterwards if and only if the rebuild does
  not come (`RenameDrops`); `Database.RenameCanLose` is a concrete run after which the cycle, repeated until nothing is
  due, leaves a key that is due. `Execution.TimelyThroughout` says for whole runs of commands that this is the only way.
- A connection tests whether the client closed its end before whether replies had filled up.
  `Connection.Conn.Reply` states when a connection that closes with all its replies written is behind what the stream
  leads to: if and only if the client had closed its end, replies had filled up, and more could have been done at once.
  `Connection.ClosingCutsShort` is a concrete run in which a whole request is never answered.
- A reader of events that has received nothing has no id to resume from. `EventFeed.MissesExactly` states that a
  reader comes to miss something if and only if it reconnects like that after something was published for it since it
  first connected; `EventFeed.ReaderCanMiss` is a concrete run in which it does, and is told nothing of it.

## Model

| member | source | states |
|---|---|---|
| `Glob.Atoms` | src/glob.rs:105-141 | reading a pattern in one pass gives its parse with no two stars adjacent, and gives nothing exactly when some class stays open |
| `Glob.Class` | src/glob.rs:143-168 | the class at a position is read as its grammar says: negation, a first `]`, escapes, ranges put in order |
| `Glob.MergeMatches` | src/glob.rs:103-141 | merging runs of stars changes no match |
| `Automaton.PrefixesIsMatches` | src/glob.rs:200-206 | live states at the end of the text are the recursive match: the simple form is refined |
| `Automaton.StepThenClose` | src/glob.rs:276-288 | one step on a character and one closing pass give exactly the states live after it, given no two stars adjacent |
| `Automaton.DeadStaysDead` | src/glob.rs:284-286 | once no state is live the text cannot match, so giving up early is right |
| `Automaton.Close` | src/glob.rs:296-303 | the closing pass over words, carries included, adds exactly the states past a live star |
| `Automaton.Step` | src/glob.rs:276-283 | the shift with carries across words moves exactly the states whose atom accepts |
| `Automaton.Build` | src/glob.rs:221-243 | the star words and the table for ASCII characters hold a bit exactly where an atom is a star or accepts |
| `Automaton.Run` | src/glob.rs:260-292 | running the automaton over the text says whether the atoms match it |
| `GlobMatcher.Classify` | src/glob.rs:171-198 | each special form, exact, prefix, suffix, contains or any, is taken only when it means the same as the atoms |
| `GlobMatcher.KindMatches` | src/glob.rs:78-88 | matching a compiled pattern by its form says whether it matches |
| `GlobMatcher.GlobMatches` | src/glob.rs:54-304 | for every pattern and text, compiling and matching agrees with recursive matching; an unclosed class matches nothing |
| `GlobLaws.StarMeans` | src/glob.rs:105-119 | a `*` and a pattern after it match a text when the pattern matches what is left of it past some point |
| `GlobLaws.AnyMeans` | src/glob.rs:44-46 | a `?` takes any one character, and the pattern after it matches the rest |
| `GlobLaws.PlainMeans` | src/glob.rs:46 | a plain character takes that one |
| `GlobLaws.EscapeMeans` | src/glob.rs:120-141 | a character after a backslash takes that one, whatever it is |
| `GlobLaws.ClassMeans` | src/glob.rs:47-49 | a class, of characters, escapes and ranges whichever end comes first, takes one character: one that it lists, or after a `^` one that it does not |
| `GlobLaws.ListMeans` | src/glob.rs:143-168 | `[abc]` matches exactly those characters, and `[^abc]` exactly the others |
| `GlobLaws.SpanMeans` | src/glob.rs:143-168 | `[a-z]` matches what lies between its ends in either order, and `[^a-z]` what does not |
| `GlobLaws.UnclosedMeans` | src/glob.rs:56-60 | a `[` that no `]` follows matches nothing |
| `Glob.LiteralPrefixLeads` | src/db.rs:861-869 | every text a pattern matches starts with its literal prefix |
| `GlobMatcher.HearsKeysMissesNone` | src/broker.rs:217-226 | a subscription not told of key changes matches no channel of key changes |
| `Capturing.PreserveKeeps` | src/db.rs:592-604 | writing a key early, just before it changes, keeps the account of the snapshot |
| `Capturing.StepKeeps` | src/db.rs:693-705 | passing the next key, written or already written early, keeps the account of the snapshot |
| `Capturing.Step` | src/capture.rs:147-180 | a run of any budget keeps the account, and goes on until the budget is spent or the last key is passed |
| `Capturing.Finished` | src/capture.rs:195-208 | a capture that has passed every key has written each starting value once, correctly joined across parts |
| `CapturedMap.Captured.Insert` | src/capture.rs:111-114 | the map changes as asked, and a capture under way keeps its account |
| `CapturedMap.Captured.DrainCapture` | src/capture.rs:185-193 | parts handed out are exactly those written and not handed out before |
| `CapturedMap.Captured.EndCapture` | src/capture.rs:197-208 | with what was drained before, the output is the prefix and the comma-joined starting values, each once, and it fails only if a value could not be serialized |
| `CapturedMap.Captured.Play` | src/capture.rs:43-213 | in any run of changes, steps and drains the map ends as the changes alone would make it, what is handed out is the snapshot of the map at the start, and it fails if and only if a starting value could not be serialized |
| `Database.Db.CaptureStep` | src/db.rs:679-707 | a run of keys of any budget keeps the account of the snapshot |
| `Database.Db.Clear` | src/db.rs:632-640 | emptying the keyspace first writes everything a capture has not reached |
| `Database.Db.EndCapture` | src/db.rs:711-722 | the output is one JSON object of exactly the keys as they were at the start, each once |
| `Database.Db.Play` | src/db.rs:498-773 | for any run of insert, replace, take, get_mut, prune, clear, expiry and capture steps, keys and deadlines end as the operations alone would make them, and the entries written are the keyspace at the start |
| `Database.Db.Store` | src/commands.rs:2186-2197 | storing a key, if it is held or admitted, and then noting its deadline keeps every expiring key among the deadlines, rebuild or not |
| `Database.Db.SetExpiry` | src/commands.rs:2061-2118 | changing a stored key's expiry keeps every expiring key among the deadlines |
| `Database.Db.Rename` | src/commands.rs:2141-2166 | what RENAME does to the keys, and that every expiring key is among the deadlines afterwards if and only if no rebuild came between |
| `Database.RenameCanLose` | src/commands.rs:2154-2158 | a concrete run in which a renamed key has no deadline left, and the expire cycle leaves it at any time after it is due |
| `Database.Db.ExpireKeys` | src/db.rs:830-850 | a batch takes the soonest deadlines in order and with each the key that expires just then; it removes only keys that are due, keeps the deadlines of the others, and stops only when it is full, has looked at four times as many deadlines, or nothing more is due |
| `Database.Db.Sweep` | src/db.rs:827-858 | repeating batches until nothing is due ends, and removes only keys due by now; all of them when every expiring key is among the deadlines |
| `Laws.PushPopRestores` | src/commands.rs:1409-1461 | pushing items and popping as many off the same end gives them back, last first, and leaves the keys as they were |
| `Laws.MoveConserves` | src/commands.rs:2387-2429 | LMOVE neither loses nor makes up an item, and touches no other key |
| `Laws.RemExactly` | src/commands.rs:1513-1552 | LREM takes away, and replies, as many occurrences as are asked for or there are, the first or the last ones; the other items keep their places and no other key changes |
| `Laws.SMoveConserves` | src/commands.rs:1761-1801 | SMOVE takes the member from one set exactly as it joins the other |
| `Laws.AddRemove` | src/commands.rs:1638-1673 | SADD then SREM of new members leaves the keys as they were, each replying how many changed; a key made by it goes again |
| `Laws.MSetAllOrNone` | src/commands.rs:1155-1180 | MSET and MSETNX write all pairs or none; a key named twice ends up with its last value |
| `Laws.BPopIsPop` | src/commands.rs:2431-2456 | BLPOP takes from the first of its keys that holds anything, as LPOP of that key would |
| `Laws.RenameBack` | src/commands.rs:2141-2166 | renaming to a free name and back changes nothing |
| `ExpiryLaws.ExpireSets` | src/commands.rs:2061-2118 | EXPIRE and its kin give a live key exactly the time asked for, from the clock or from the epoch, if NX, XX, GT and LT let it in by the old time; a time not to come takes the key away; the reply says whether, and nothing else changes |
| `ExpiryLaws.ExpireRefused` | src/commands.rs:2061-2090 | they are refused exactly for a time past 64 bits or for flags that rule each other out |
| `ExpiryLaws.SetStores` | src/commands.rs:2231-2304 | SET stores if and only if its NX, XX or IFEQ holds, with no expiry, the one it had, or the time asked for, and replies what GET asks for or whether it stored |
| `ExpiryLaws.SetRefused` | src/commands.rs:2231-2304 | SET is refused, in this order, exactly for a bad expiry, for a key that holds no string where one is needed, and for a string of more than 16 MiB |
| `ExpiryLaws.GetExSets` | src/commands.rs:2306-2350 | GETEX replies the string and gives it exactly the expiry asked for, or takes it away |
| `ExpiryLaws.TrimKeeps` | src/commands.rs:1553-1574 | LTRIM keeps exactly the items from one index to the other, each counted from its end, in order |
| `ExpiryLaws.LiveExactly` | src/db.rs:730-734 | a client sees a key exactly if it is held and has no expiry or one still to come |
| `Needing.NeedsAreMeant` | src/commands.rs:708-740 | what a command is said to need of the limits is what it comes to: it makes no key but those it stores under and makes those, the collection it adds to gets the size counted, no other grows, and the keys said to be used up go |
| `Execution.Exec.Mut` | src/commands.rs:753-782 | a collection opened for writing is the live one, and creating a key is refused past the key limit |
| `Execution.Exec.SetString` | src/commands.rs:2231-2304 | SET with its conditions and expiries does what it means to the live keys; when its condition holds it is refused by the key limit exactly if its key is not held and one more is too many, and a refusal changes nothing; if every expiring key was among the deadlines, it still is |
| `Execution.Exec.MSet` | src/commands.rs:1155-1180 | MSET counts every new key against the limit, each once, before it writes any, and is refused exactly when they are too many |
| `Execution.Exec.Expire` | src/commands.rs:2061-2118 | EXPIRE and its kin, their conditions and 64-bit overflow, do what they mean to the live keys, no limit refuses them, and the new expiry is among the deadlines if all were |
| `Execution.Exec.Rename` | src/commands.rs:2141-2166 | RENAME does what it means, and moves a collection without regard to the limits; every expiring key still is among the deadlines if and only if no rebuild came between |
| `Execution.Exec.Push` | src/commands.rs:1409-1431 | pushes do what they mean, refused exactly when the list would pass the element limit or a new key the key limit |
| `Execution.Exec.Pop` | src/commands.rs:1432-1461 | pops do what they mean, drop a list that becomes empty, and are refused by no limit |
| `Execution.Exec.Rem` | src/commands.rs:1513-1552 | LREM from either end does what it means, and is refused by no limit |
| `Execution.Exec.InsertBeside` | src/commands.rs:1575-1596 | LINSERT does what it means, refused exactly when the pivot is found and the list is full |
| `Execution.Exec.Move` | src/commands.rs:2387-2429 | LMOVE does what it means, refused before it takes the element, exactly when another list is full, or is to be made with no key free and none freed by the source |
| `Execution.Exec.SMove` | src/commands.rs:1761-1801 | SMOVE does what it means, refused before it takes the member under the same condition, and never when the other set holds it already |
| `Execution.Exec.SPop` | src/commands.rs:2458-2539 | SPOP takes as many distinct members as asked for or there are, replies them or the error that fits, and is journaled as SREM of those |
| `Execution.Exec.BPop` | src/commands.rs:2431-2456 | BLPOP does what it means, is refused by no limit, and is journaled as LPOP of the key it took from |
| `Execution.Exec.BMove` | src/commands.rs:1617-1637 | BLMOVE does what LMOVE means, is refused exactly when that would be, and is journaled as LMOVE |
| `Execution.Exec.Run` | src/commands.rs:905-927 | every command does to the live keys, and replies, what it means, unless a limit refuses it; one does, and says which, if and only if the collection added to would pass the element limit, or the names stored under and not held would pass the key limit; an error leaves every live key as it was; what is journaled does the same to the live keys; keys and collections keep their limits, a renamed collection aside; every expiring key stays among the deadlines if and only if the command is no RENAME that drops one |
| `Execution.ExpiredUnseen` | src/db.rs:827-850 | a batch of the expire cycle changes nothing a client sees |
| `Execution.TimelyThroughout` | src/db.rs:807-816 | through a run every expiring key is among the deadlines all along, if and only if it was at the start and no RENAME of the run drops one |
| `Execution.Serve` | src/commands.rs:161-182 | through any run of commands and expire cycles from any keyspace, with a clock that never goes back, every command is run and replied as `Exec.Run` states and every cycle as `ExpireKeys`; the journal holds exactly the lines they add and, onto what there was, mirrors the live keys; limits hold throughout, and only a RENAME that drops a deadline leaves a key without one |
| `Execution.ServeThenSweep` | src/db.rs:827-858 | after any such run, each command of it run, what the expire cycle removes is due, and exactly the keys that are not stay if no RENAME dropped a deadline |
| `Execution.Replay` | src/commands.rs:126-140 | replaying a journal runs every line of it without limits, and onto a snapshot gives the keys that the journal means |
| `Execution.ServeThenReplay` | src/commands.rs:161-182 | replaying what a run journaled, each command of it run, onto a copy of what there was shows the same live keys as the run did, then and at any later time |
| `Heads.HeadEndGrows` | src/http.rs:352-381 | a head that has ended goes on ending there as bytes arrive; one that has not ends past them |
| `Heads.ScanEnd` | src/http.rs:366-381 | scanning on from where it left off finds the end that scanning all the bytes would |
| `Heads.FrameGrows` | src/event.rs:836-855 | what a stream begins with, a head or one too large, is settled by the first bytes that settle it |
| `Heads.ParseHead` | src/http.rs:399-427 | a head is whole only up to the largest size and if it ends in a blank line; blank lines before it are left out |
| `Heads.MeasuredIsWhole` | src/http.rs:396-427 | a head measured by the scan is never taken for one that broke off |
| `Heads.ReadLine` | src/http.rs:120-150 | reading a line chunk by chunk gives it whole, or refuses it exactly when it passes the budget, or finds the stream closed |
| `Heads.ReadHead` | src/http.rs:206-231 | the waiting reader, whatever chunks arrive, finds the same head as the scan, refuses the same sizes, and leaves the bytes after it |
| `Connection.WholeSplits` | src/event.rs:814-926 | the replies to more of a stream continue the replies to less of it: where reads fall does not matter |
| `Connection.StreamAnswers` | src/event.rs:814-926 | well-formed requests sent one after another get one reply each by what the service parses, refuses and answers, in order, up to one that waits, is refused or closes |
| `ConnectionLaws.HeadMissing` | src/event.rs:836-855 | nothing is done until a head is whole, and one too large is answered 431 and closes |
| `ConnectionLaws.HeadBad` | src/event.rs:857-870 | a head that does not parse is answered as parsing says, a body past the limit 413, and the connection closes |
| `ConnectionLaws.BodilessAnswered` | src/event.rs:857-909 | a request without a body is not asked about, only answered |
| `ConnectionLaws.BodyJudged` | src/event.rs:857-923 | what refuses a request that has a body is sent once the body is past, as the last reply; 500 when that panics; a request let pass gets the answer to its body in the state left by then |
| `ConnectionLaws.BodyAwaited` | src/event.rs:857-923 | while a body is not all there nothing is sent, and what came of a refused one is forgotten |
| `Connection.Conn.Read` | src/event.rs:740-769 | reading makes exactly as many reads as there is room for and more may be there, keeps their bytes in order, and keeps unread input within the largest body and two reads |
| `Connection.Conn.WantsExactly` | src/event.rs:638-649 | reading is wanted exactly while the client has not ended, nothing closes, moves or is left to send, and what is unread is less than the body waited for and 64 KiB |
| `Connection.Conn.AnswerHead` | src/event.rs:836-881 | a head is judged once whole, and refused with 431 past its largest size, as in the whole stream |
| `Connection.Conn.AnswerBody` | src/event.rs:883-909 | a request is answered, handed off or failed as in the whole stream, and unsent output stays under its limit and one reply |
| `Connection.Conn.AnswerRefused` | src/event.rs:910-923 | a refused body is read past however it is cut, and the refusal sent once it is past |
| `Connection.Conn.Answer` | src/event.rs:816-926 | answering stops only for more bytes, for replies that fill up, for closing, or for a request that waits |
| `Connection.Conn.Receive` | src/event.rs:674-698 | afterwards replies have filled up, the connection closes or is moving, or nothing complete is left to answer; a request handed off at once has no reply waiting |
| `Connection.Conn.Write` | src/event.rs:771-789 | exactly as much is sent as the client takes at each write, in order and none twice |
| `Connection.MovesOn` | src/event.rs:816-926 | a connection that does not wait for more bytes can do something: the stream leads further than where it is |
| `Connection.Conn.Reply` | src/event.rs:701-721 | what is sent is what the client takes, and the connection closes, stays, hands off or answers on by the tests in their order; one kept with nothing to write wants to read and has done all the stream leads to; one that closes with all written is behind the stream if and only if the client had closed its end, replies had filled up, and more could have been done at once |
| `Connection.Conn.Play` | src/event.rs:278-318 | through any rounds of answering on, reads and partial writes, each round makes exactly the reads there are while they are wanted, sends what the client takes and decides as `Conn.Reply` does; it breaks off if and only if the last read was broken; and what was sent is the beginning of what the whole stream means |
| `Connection.Converse` | src/event.rs:674-937 | from a new connection on, every round reads, writes and decides as `Conn.Play` states, and the replies sent are those of reading the stream in one piece: a prefix while replies wait, all of them when it waits, those before the request it leaves with, and when it closes all of them except in the one case that `Conn.Reply` states |
| `Connection.ClosingCutsShort` | src/event.rs:711-717 | a concrete run: a client sends a head, then the body, another request and its end at once; the connection closes with the second request unanswered |
| `EventFeed.SeesResumes` | src/broker.rs:514-520 | what comes after the last event received is exactly what is left to receive |
| `EventFeed.Events.Publish` | src/broker.rs:464-491 | an event reaches every open feed whose agent is none or among those its scope names, if it names any, and that has room; a feed with none is dropped, and the others are as they were |
| `EventFeed.Events.ReplayIsAll` | src/broker.rs:508-520 | the ring and the handovers kept give the replay that all events and all handovers would give |
| `EventFeed.Events.Subscribe` | src/broker.rs:493-536 | a reader is told to start over if and only if its id is from the future or an event after it can no longer be replayed; else it is replayed exactly what it missed since its name changed hands, which `SeesReplayed` writes out |
| `EventFeed.SeesReplayed` | src/broker.rs:508-520 | what is replayed are, in order and once each, exactly the events after the id that name the agent or nobody and are not from before its name changed hands |
| `EventFeed.Events.HandOver` | src/broker.rs:544-552 | a handover closes the name's feeds and is on record; forgetting old handovers never changes a replay |
| `EventFeed.AfterOk` | src/broker.rs:464-552 | every deed keeps every account: a reader never told to start over, whose name did not change hands, has received and has on its way exactly what it may see from its base on |
| `EventFeed.Run.Play` | src/broker.rs:464-552 | in any run the ring and the handovers kept lead to exactly what all events and all handovers would, for the log, every feed and every reader; feeds hold nothing from before a handover for the new holder, nor after it for the old |
| `EventFeed.ToldExactly` | src/broker.rs:498-507 | a reader is told to start over if and only if at some connection its id leaves no telling what it missed |
| `EventFeed.MissesExactly` | src/broker.rs:514-523 | a reader comes to miss something if and only if it reconnects without an id after something was published for it since it first connected |
| `EventFeed.Heard` | src/broker.rs:464-552 | a reader that is owed an account has received each event it may see from its base on once, in order; when it is connected with nothing on the way, all of them, which are all since it first connected if and only if it missed nothing |
| `EventFeed.NeverHeard` | src/broker.rs:514-523 | what such a reader missed it never receives, whatever comes |
| `FeedLaws.StoryPrivate` | src/broker.rs:134-142 | through any run nobody receives, or has on its way, an event whose scope names only other agents |
| `FeedLaws.HeardExactly` | src/broker.rs:464-552 | an owed reader received only events that name its agent or nobody, from its base on, and all of them when it is connected with nothing on the way |
| `FeedLaws.NothingBefore` | src/broker.rs:544-552 | an open feed holds nothing from before its name last changed hands |
| `EventFeed.ReaderCanMiss` | src/broker.rs:493-536 | a concrete run: a reader connects, leaves, and connects again after an event for everyone; it is open, has received nothing, has nothing on its way, and was never told |
| `Waiting.Waiters.Add` | src/broker.rs:364-372 | the topic index stays exactly the inverse of the registrations, repeated topics included |
| `Waiting.Waiters.Remove` | src/broker.rs:374-384 | the same once a request leaves, with no topic kept that nobody waits for |
| `Waiting.Waiters.Wake` | src/broker.rs:386-394 | exactly the sleeping requests that registered one of the changed topics are woken |
| `Waiting.WakesExactly` | src/broker.rs:2404-2436 | an operation wakes exactly the requests asleep that wait for what it posts to, for a key it writes, or for any key when it writes all |
| `Waiting.Room.ReportsExactly` | src/broker.rs:2404-2436 | a command says which keys it wrote if and only if a request waits for a key or someone there may hear of keys |
| `Waiting.Room.Perform` | src/broker.rs:2404-2436 | exactly those that wait for something a command changes are noted to be woken, though keys are reported only when someone waits or listens |
| `Waiting.Room.Begin` | src/broker.rs:3185-3202 | a request that finds nothing sleeps registered before anything else can change |
| `Waiting.Room.Resume` | src/broker.rs:3203-3223 | a woken request looks again, and sleeps or leaves with its registrations gone |
| `Waiting.Room.Play` | src/broker.rs:3078-3224 | any run of the threads' steps leads to exactly what waking everyone concerned directly would; between holds of the lock nothing a sleeping request waits for has changed since it last looked |
| `Waiting.Room.NoneLost` | src/broker.rs:3182-3202 | since a request asleep last looked nothing was posted to a topic it waits for, no key it waits for was written, and not all keys were |
| `Ids.AfterIsLeast` | src/id.rs:29-36 | the id after another is the least greater one; only the largest has none |
| `Ids.NextAfterIsLeast` | src/id.rs:20-28 | a new id passes the last one even when the clock steps back, and is the least that the clock allows |
| `Ids.LessByNumber` | src/id.rs:8-13 | ids are in the order of their milliseconds and sequence numbers read as one number |
| `Streams.Stream.XAdd` | src/commands.rs:2740-2828 | XADD's id is the least past the last one that suits what was asked: not before the clock, in the millisecond named, or the one named; it is refused exactly when none does, or for want of room once trimmed; else the entry is added, trimmed as asked, and the stream is no larger than before or its limit |
| `Streams.TrimmedSize` | src/commands.rs:2806-2815 | what XADD counts as dropped is what the trim drops |
| `Streams.Stream.XTrim` | src/db.rs:233-250 | MAXLEN keeps the newest, and MINID exactly those from an id on |
| `Streams.Stream.XDel` | src/commands.rs:1965-1986 | the named entries are gone, counted once each |
| `Streams.GroupGives` | src/commands.rs:3132-3144 | handing out the next entry past the mark keeps a group's account |
| `Streams.Stream.ReadNew` | src/commands.rs:3123-3148 | the first entries past the mark are handed out in order, as many as asked for, and are pending for the consumer, which was seen now; a read that is not journaled changes no more than when the consumer was seen |
| `Streams.Stream.ReadAgain` | src/commands.rs:3149-3165 | reading from an id on gives again, in order and as many as asked for, the first entries past it that are pending for the consumer |
| `Streams.Stream.XClaim` | src/commands.rs:3276-3362 | exactly the entries pending for long enough, never delivered or forced are claimed, with their new consumer, time and exact count; those deleted are dropped; the others stay; unjournaled, nothing changed |
| `Streams.IdleLongEnough` | src/commands.rs:3345 | an entry is pending for long enough exactly when the time asked for has passed since it was delivered, a clock that stepped back counting as none |
| `Streams.Stream.XAutoClaim` | src/commands.rs:3365-3437 | the same for a run of pending entries, nothing pending lies between the run and where the next one starts, and it is journaled if and only if it claimed or dropped something |
| `Streams.LookedAmong` | src/commands.rs:3396-3401 | it looks at the first pending entries from where it starts, as many as asked for and at least one |
| `Streams.Stream.DelConsumer` | src/commands.rs:3050-3058 | what was pending for the consumer goes with it, and never without the command being journaled |
| `Streams.Stream.Ack` | src/commands.rs:2006-2026 | the named entries are no longer pending, counted once each |
| `Streams.Stream.Play` | src/commands.rs:2952-3190 | in any run without SETID or DESTROY each command does to the entries, groups and deliveries what it is to do, and every group goes on from where it was and keeps its account |
| `Streams.StoryGives` | src/commands.rs:3123-3148 | over a run, what a group has handed out, be it there from the start or created on the way, is exactly what its consumers were replied, in order |
| `Streams.Stream.HandsOut` | src/commands.rs:3123-3148 | a group's deliveries rise, none twice, and none past its start is skipped but those deleted before their turn; pending entries name registered consumers |
| `Streams.LagsOf` | src/commands.rs:3540-3565 | one walk gives for every mark the number of entries past it |
| `Streams.Stream.Lags` | src/commands.rs:3540-3565 | each group's lag is the number of entries after its mark, counted separately |
| `Scanning.Shortest` | src/scope.rs:39-53 | the starts kept are sorted, none starts with another, and each start dropped begins with one kept |
| `Scanning.SearchPrefixes` | src/scope.rs:68-84 | the runs to visit are apart and hold every readable key that starts as asked |
| `Scanning.WithPrefixes` | src/db.rs:783-801 | walking run by run gives exactly the keys of the runs past a key, in order, none twice |
| `Scanning.Scan.Run` | src/commands.rs:495-534 | a run finds exactly the wanted keys from where it was to where it came, and ends a page only at a key that may be read |
| `Scanning.ScanThrough` | src/broker.rs:3362-3368 | whatever changes between runs and pages, and whatever COUNT each page has, keys come in rising order and none twice; every run comes further, to a key there is at its moment; a scan that ends has returned every key wanted all along until then, one that does not has used every moment and found every such key it passed |
| `Scanning.ScanStill` | src/commands.rs:440-534 | on an unchanged keyspace, paging with any COUNT ends and returns in order exactly the keys that have not expired, match the pattern and the type asked for, and match a pattern of the scope |
| `Keys.BelowExactly` | src/db.rs:783-801 | keys are in the order of their first different characters, a key after its own beginnings |
| `SortedSets.NextUpIsLeast` | src/db.rs:103-112 | the next float up, as nextUp of section 5.3.1 of IEEE 754-2008, is the least with a larger value, zeros and infinities included |
| `SortedSets.PlaceRefines` | src/db.rs:39-43 | the total order of section 5.10 of IEEE 754-2008 refines the order of values |
| `SortedSets.ZSet.Insert` | src/db.rs:59-73 | the order stays exactly the scores as pairs, with one zero |
| `SortedSets.ZSet.Remove` | src/db.rs:75-83 | the same when a member leaves |
| `SortedSets.ZSet.ByScore` | src/db.rs:95-122 | exactly the members whose scores lie within the bounds, inclusive or exclusive, signed zeros and infinities included, by score and then by name |
| `SortedSets.ZSet.Rank` | src/db.rs:124-127 | a member's rank is its index in the order |
| `Trimming.TakeAbove` | src/broker.rs:1295-1310 | posts are taken only from a sender above its share at that time, oldest first; it stops short only when none is above |
| `Trimming.Trim` | src/broker.rs:1286-1320 | exactly the excess is dropped, each id once; those from a sender that then has more than one post and more than a quarter of the limit go first, and only once there is no such sender do others |
| `Arguments.StreamKeys` | src/commands.rs:620-636 | the loop finds the half of the arguments after STREAMS, past the options |
| `Arguments.ParseReadOptions` | src/commands.rs:2855-2893 | whenever the options parse, the keys read are those the key walk finds, with as many ids |
| `Arguments.ReadsItsKeys` | src/commands.rs:638-659 | the keys XREAD and XREADGROUP come to read are exactly their key arguments, in order, marked written for XREADGROUP only |
| `Arguments.Writes` | src/commands.rs:594-618 | a command counts as writing exactly when a key argument is marked written, or it is a flush |
| `KeyUse.UsesOnly` | src/commands.rs:367-398 | what a command other than a flush does to the keys it names, and replies, depends on nothing but what they hold, and it changes no other key |
| `KeyUse.ChangesMarked` | src/commands.rs:638-659 | a key that a command changes is one of its key arguments, and marked as changed |
| `KeyUse.KeyArgsGovern` | src/commands.rs:638-659 | two keyspaces that hold the same under a command's key arguments get the same reply, and the same under those afterwards |
| `KeyUse.LooksAtOne` | src/commands.rs:380-385 | a command that looks at one key has its first argument for it, not marked as changed |
| `KeyUse.LooksAtAll` | src/commands.rs:371 | EXISTS, MGET and the set combinations look at each argument, none marked as changed |
| `KeyUse.GroupKeys` | src/commands.rs:378-379 | XGROUP and XINFO have the argument after the subcommand for a key, changed by XGROUP alone |
| `Arguments.UpperExactly` | src/commands.rs:620-636 | words are looked up with each of the 26 small letters as its capital and all else as it is |
| `Spread.AveragesBest` | bench/plot.py:142-156 | pooled runs at their means, far enough apart, cost no more than any spaced placement in the same order |
| `Spread.BestInOrderIsBest` | bench/plot.py:141 | placing labels in the order of what they want costs no more than any other order |
| `Spread.Runs` | bench/plot.py:143-156 | the merging loop ends with runs in which every beginning pulls up and every ending down, each run clear of the next |
| `Spread.Spread` | bench/plot.py:139-162 | labels end at least the gap apart, and the sum of squared distances to what they want is the least of all such placements |

## Left out

- Hash and sorted-set commands, INCR and its kin, GETRANGE-like reads and the `*STORE` forms are not among the
  commands of `Execution`: they would add members of the same kind.
- Execution.Exec.Rename: the element limit is not claimed for the moved collection, because RENAME does not check it.
- Execution.Exec.SPop: which members are taken is left open; the count, their being distinct, and the journal are stated.
- Streams: journals of stream commands are not replayed; what each command leaves when it is not journaled is stated.
- Streams.Stream.Play: SETID and DESTROY are left out of the run, since a mark set by hand may hand entries out again; both are modelled, and mark the group's account as void.
- EventFeed.Heard: a reader told to start over is owed nothing from then on, since it may send an old id again.
- Connection.Conn.Reply: timeouts and slow readers are not modelled; a connection that expires is closed, after a 408 if it was in the middle of a request.
- Parsing the request line and headers, percent coding, and the bytes of a response are arbitrary functions.
- Heads.ReadHead: the deadline between socket reads is not modelled.
- Database.Db.CaptureStep: the cursor is stored after each key rather than once at the end of a run, which no other method can see.
- Execution.Exec.SetString: the limit on the length of a string counts characters; the source counts bytes, which differ outside ASCII.
- Automaton.Run: the words live in arrays of the length needed; keeping short ones on the stack is not modelled.
- Arguments.Writes: a name's length is counted in characters, not bytes; no command has a name outside ASCII.
- Keys removed by the expire cycle wake nobody: they are not counted as changes in `Waiters`, as in the source.
- Scanning.Scan.Run: the cursor is the key it names; writing it in hexadecimal is not modelled. KEYS, DBSIZE and
  INFO walk the same way and are not modelled one by one, nor is the limit on a reply's size.
- SortedSets.ZSet.Insert: adding to scores (ZINCRBY) and refusing results that are not numbers are not modelled.
- Key lookups around stream commands, a stream's place in the keyspace, and XREADGROUP over several streams at once.
- Leases, acknowledgements, rooms and questions, the journal's files and recovery, HTTP routing, authentication,
  the poller, the command line, memory accounting, and the rest of the benchmark scripts.
- Spread.Spread: positions are exact reals, not floats.
