# Models and proofs for nanonet

nanonet is a C++ library of small building blocks for network programs. This project models the
parts of it whose correctness cannot be read off one function body, and proves what they are for:

* **The blocking queue** (`SafeQueue.dfy`): a mutex, two condition variables and `notify_one`
  issued after unlocking. It is a transition system over the program counters of any number of
  threads, with spurious wakeups and an arbitrary scheduler; class `Queue` is the object itself,
  one method for each uninterrupted region of `push` and `pop`. Each method makes one transition,
  keeps the whole invariant, and states what the calling thread may conclude; the classes of the
  pool and the server are built in the same way.
* **The thread pool** (`ThreadPool.dfy`) on top of that queue: the worker loop, `dispatch`, and the
  destructor that pushes one stop item for each worker and joins them.
* **The registry**: a character lexer with three comment styles, two quote styles, escapes and a
  hold flag (`Lexing.dfy`, `Lexers.dfy`), and the recursive-descent parser and the key/value store
  (`Parsing.dfy`, `Parsers.dfy`). In each pair the first file is the specification on sequences and
  the second the objects, proved against it. What a registry file is, is written down a second time
  without scanner or parser: `Lexicon.dfy` has the characters, words, numbers, strings and tokens,
  `Gaps.dfy` white space and comments, `Grammar.dfy` terms and registries. `Numerals.dfy`,
  `Scanning.dfy` and `Grammar.dfy` prove, both ways, that lexer, parser and registry accept just that,
  and `Rejection.dfy` with which error they reject anything else.
  `Rendering.dfy` and `Printing.dfy` add the printer that the library declares but does not
  implement, and the round trips; `LineCounting.dfy` and `CommaPolicy.dfy` state two further laws.
* **The buffered stream adapters** `ostreambuf` (`OutputBuffers.dfy`) and `istreambuf`
  (`InputBuffers.dfy`), over a reader_writer that cuts the data into arbitrary pieces and may fail
  at any time. The input buffer is first a value, a window on the text, about which the laws are
  proved, and then a class over an array that keeps such a window.
* **The server's life** (`Server.dfy`, `Sentries.dfy`): an accept thread that detaches connection
  threads which refer to its local status object, kept sound by a count of sentries.
* **Companions**: XDR marshalling (`Xdr.dfy`), the size-limited `getline` (`GetLine.dfy`) and
  `to_fractional` (`Fractional.dfy`).

`Counting.dfy`, `Integers.dfy` and `Results.dfy` are shared helpers. To verify: `dafny verify dfyconfig.toml`.

Where the outside decides (the scheduler, a client, the handler, the pieces a `read` returns) the
model leaves the choice open and the theorems hold for every choice. Concurrency is modelled at the
granularity of the mutex and the atomic variables: a step is one region under the lock, one access
to an atomic, or one call out of the model.

Findings, where the code does not do what one would expect:

* Deleting separator commas under `comma_optional` changes the meaning of a term, or of a whole
  registry, exactly when lists and expressions share a delimiter: `CommaPolicy.CommasDeletableIff`.
  With braces for both, the texts `k={a, {}}` and `k={a {}}` differ:
  `CommaPolicy.SameDelimitersText`. With different delimiters it never does.
* Move assignment of an `auto_resource` does not dispose of the handle it overwrites. The count of
  an `increment_sentry` stays right exactly when the target held nothing of that counter or is
  assigned to itself (`Sentries.Assign`), and over any program it is too high by the number of the other
  assignments (`Sentries.RunAll`, `Sentries.CountIsRight`). `Sentries.LeakOne` is the shortest case.
* An `ostreambuf` that is full and whose write fails reports the character as refused but keeps it
  pending, in the cell past `epptr`; the next flush that succeeds writes it. A further character has
  a cell exactly if the buffer was not full, or was flushed to a sink: `OutputBuffers.OStreamBuf.Put`.
  `OutputBuffers.RefusedCharacter` is the failing case at a buffer of one cell. `overflow` with the
  end of file reports failure even when it succeeds.
* After a `read` that brought nothing the putback area of an `istreambuf` may hold the wrong
  characters, because it has been slid already and that is not undone. The window keeps showing what
  was read, whatever that was, exactly while the first chunk is held:
  `InputBuffers.FailedReadKeepsText`. What has been read of the current chunk can be put back in
  any case, unless the read spoilt the memory; `InputBuffers.PutBackAfterFailure` is a run in which
  the character before it comes back wrong. Characters not yet read are never affected.

## Model

| member | source | states |
|---|---|---|
| `SafeQueue.Bound` | include/nanonet/safe_queue.h:55-64 | which constructor arguments are accepted, and that a queue is bounded by its capacity exactly when it is declared bounded |
| `SafeQueue.StepKeepsInv` | include/nanonet/safe_queue.h:69-108 | every step of every thread, spurious wakeups included, keeps mutual exclusion, the FIFO history, the bound, program order and the two counting invariants about wakeups |
| `SafeQueue.Linearizable` | include/nanonet/safe_queue.h:69-108 | in every reachable state the elements popped and then the queue are the elements pushed, in lock order; the queue is within its bound although the test is for equality; a producer's elements keep its order |
| `SafeQueue.BusyThreadOrOwnerCanMove` | include/nanonet/safe_queue.h:69-108 | while some thread is neither outside the queue nor asleep, some call can go on: the mutex is never the obstacle |
| `SafeQueue.StuckOnlyForAReason` | include/nanonet/safe_queue.h:69-108 | no deadlock and no lost wakeup for any number of threads and any capacity: when nothing can move, poppers sleep only on an empty and pushers only on a full queue, never both |
| `SafeQueue.CallsSettle` | include/nanonet/safe_queue.h:69-108 | under every schedule at most six steps per thread are left before calls in progress have returned or gone to sleep |
| `SafeQueue.InnerLogs` | include/nanonet/safe_queue.h:77-98 | exactly which steps append to the push history, which to the pop history, and what this does to the length |
| `SafeQueue.Queue.EnterPush` | include/nanonet/safe_queue.h:69-71 | a call of `push` keeps the invariant, and its element is then the only one of the thread that is not in the queue's history |
| `SafeQueue.Queue.EnterPop` | include/nanonet/safe_queue.h:87-88 | a call of `pop` keeps the invariant, and the thread has been handed everything it took before |
| `SafeQueue.Queue.Lock` | include/nanonet/safe_queue.h:71-88 | with the mutex acquired, at first or after waking, every other thread is outside its critical sections |
| `SafeQueue.Queue.PushOrWait` | include/nanonet/safe_queue.h:72-78 | either the bounded queue is truly full and the mutex is free, or all the thread's elements are in, this one last, and the bound is respected |
| `SafeQueue.Queue.PopOrWait` | include/nanonet/safe_queue.h:92-98 | either everything ever pushed has been popped and the mutex is free, or the thread has the element pushed first of those not yet popped |
| `SafeQueue.Queue.Release` | include/nanonet/safe_queue.h:78-102 | before the notification the mutex is free: every thread that wants it can have it |
| `SafeQueue.Queue.NotifyOne` | include/nanonet/safe_queue.h:80-107 | a permitted sleeper is woken if there is one, and when the call returns all the thread ever pushed is in and all it ever took has been handed out |
| `ThreadPool.StepKeepsInv` | src/dispatch.cpp:22-82 | every step of workers, clients and the destructor keeps the pool invariant: all jobs before all stop items in the queue's history, every item popped is finished or in one thread's hand, a worker takes one stop item and no more |
| `ThreadPool.ShutdownIsComplete` | src/dispatch.cpp:22-71 | when the destructor returns, with no `dispatch` overlapping it, from a job either, every job dispatched has completed exactly once, every worker has taken jobs and then exactly one stop item and has exited, and the queue is empty, on every schedule |
| `ThreadPool.NoWorkerStarves` | src/dispatch.cpp:61-70 | once all stop items are pushed no worker looking for an item finds the queue empty |
| `ThreadPool.ShutdownNeverStuck` | src/dispatch.cpp:55-71 | from its call until the destructor has returned, some step that owes nothing to chance can be taken |
| `ThreadPool.ShutdownTerminates` | src/dispatch.cpp:55-71 | from the call of the destructor every schedule is finite: each step but a spurious wakeup decreases a measure, and it ends only with the destructor returned |
| `ThreadPool.OpenStuckIsDone` | src/dispatch.cpp:22-33 | while the pool is open and something dispatched is pending, queued or running, some step that is neither a new dispatch nor a spurious wakeup can be taken; when none can, every job is finished as often as dispatched |
| `ThreadPool.OpenSettles` | src/dispatch.cpp:22-33 | without new dispatches the steps left to an open pool are bounded on every schedule |
| `ThreadPool.CanSettle` | src/dispatch.cpp:22-71 | from every state some run without new dispatches or luck leads to where all is done, or to the return of the destructor |
| `ThreadPool.SingleWorkerIsSerial` | include/nanonet/dispatch.h:102-104 | with one worker jobs run one at a time and complete in the order in which they were queued |
| `ThreadPool.SingleWorkerActsDirectly` | src/dispatch.cpp:73-82 | a single worker executes the jobs in the order dispatched; a pool without workers executes the same ones exactly if none but the last throws |
| `ThreadPool.DispatchDirectly` | src/dispatch.cpp:77-81 | without workers each job is executed within `dispatch`, in order, and the exception of the first that throws ends the client's loop |
| `ThreadPool.ThreadPool.constructor` | src/dispatch.cpp:40-52 | starts exactly the given number of workers, none included, over an empty unbounded queue |
| `ThreadPool.ThreadPool.Dispatch` | src/dispatch.cpp:73-76 | the job is the only one of its thread that is not yet in the queue's history, which holds no stop item |
| `ThreadPool.ThreadPool.BeginDestroy` | src/dispatch.cpp:55-60 | when the destructor is called everything ever dispatched is in the queue's history |
| `ThreadPool.ThreadPool.PushNextStop` | src/dispatch.cpp:63-66 | the history is then the jobs followed by the stop items of the rounds before, and nothing else |
| `ThreadPool.ThreadPool.BeginJoin` | src/dispatch.cpp:66-68 | after the first loop there is one stop item for each worker |
| `ThreadPool.ThreadPool.JoinNext` | src/dispatch.cpp:68-70 | every worker joined so far has exited with one stop item |
| `ThreadPool.ThreadPool.EndDestroy` | src/dispatch.cpp:70-71 | when the destructor returns the queue is empty and the jobs finished are those dispatched, each as often |
| `ThreadPool.ThreadPool.TakeItem` | src/dispatch.cpp:23-31 | the worker loop leaves on a stop item, and only once the destructor has been called; a job it starts was dispatched |
| `ThreadPool.ThreadPool.CompleteJob` | src/dispatch.cpp:28-32 | no job completes more often than it was dispatched |
| `Lexers.Lexer.GetToken` | src/registry.cpp:540-699 | returns the next of the tokens ahead, with value and line, or the lexical error, and consumes it; a held token is returned first; the line number stays one plus the newlines before the cursor |
| `Lexers.Lexer.PeekToken` | src/registry.cpp:530-538 | returns the next token and leaves the tokens ahead as they were |
| `Lexers.Lexer.Putback` | include/nanonet/registry.h:315-323 | un-reads the current token with its value: the tokens ahead begin with it again; also on a lexer that has read nothing |
| `Lexers.Lexer.MunchTillAsteriskSlash` | src/registry.cpp:702-717 | skips to behind the first asterisk-slash, counting lines, or to the end |
| `Lexers.Lexer.SkipComment` | src/registry.cpp:562-615 | which characters open a comment in which style, and what is skipped |
| `Lexers.Lexer.ReadString` | src/registry.cpp:628-659 | a quoted string with its escapes resolved, or the error for an unterminated string or a bad escape |
| `Lexers.Lexer.ReadWord` | src/registry.cpp:684-693 | an identifier is the longest run of word characters |
| `LineCounting.NextCountsLines` | src/registry.cpp:552-610 | after every token the line number has grown by the newlines consumed, whatever comments and blanks they stood in |
| `LineCounting.StreamCountsLines` | src/registry.cpp:552-610 | over a whole text every token carries one plus the newlines before the place where it ends, and the end of the text one plus all of them |
| `Gaps.GapInvisible` | src/registry.cpp:552-610 | any white space and well-formed comments of the selected style in front leave the next token and its value unchanged, and count their lines |
| `Gaps.BlockBody` | src/registry.cpp:702-717 | a block comment ends at its first asterisk-slash, whatever asterisks and slashes it holds |
| `Gaps.GapsFound` | src/registry.cpp:552-615 | conversely every text begins with a gap, made of white space and comments of the style, and what follows is nothing, a comment that never ends, or no gap |
| `Numerals.WholeNumber` | src/registry.cpp:664-677 | a text is taken as a whole for a number if and only if it is one: a sign at most, digits with at most one point and at least one digit, and at most an exponent with its own sign and digits |
| `Numerals.NumberSplit` | src/registry.cpp:664-677 | from any text the longest part that begins a number is taken, and it is an error exactly if that is no number |
| `Scanning.NextIffGrammar` | src/registry.cpp:540-699 | the next token, its value, the rest and the line, the end, or the kind of error is what the lexical grammar says of the text, on every text in every style, and nothing else |
| `Scanning.LexIffGrammar` | src/registry.cpp:540-699 | the same for the whole stream of tokens of a text |
| `Scanning.TokenMalformed` | src/registry.cpp:617-699 | what is an error: the other quote, a slash before neither slash nor asterisk, a string not closed on its line, a wrong escape, a number broken off, any other character |
| `Rendering.PieceReadBack` | src/registry.cpp:617-693 | every token written as text is read back with the same value: strings of any characters through their escapes, identifiers, number literals, signs |
| `Rendering.LexInvertsRender` | src/registry.cpp:540-699 | every layout of a token sequence, in every comment and quote style, is lexed into just those tokens and lines |
| `Parsers.Parser.ParseTerm` | src/registry.cpp:790-830 | terminates on every input and yields the term at the front of the tokens ahead and leaves the rest, or the error |
| `Parsers.Parser.ParseList` | src/registry.cpp:757-787 | likewise for the elements up to the closing token, under both comma policies, unterminated lists included |
| `Parsers.Parser.ParsePair` | src/registry.cpp:730-754 | a key, the line it stands on and its value; a token that starts no pair ends the sequence |
| `Parsers.Parser.Expect` | src/registry.cpp:834-845 | reads the given token or fails |
| `Parsers.Registry.AddAny` | src/registry.cpp:176-187 | adds or overwrites a key; an existing one is an error if redefinition is not allowed, and then nothing changes |
| `Parsers.Registry.ReadFrom` | src/registry.cpp:431-466 | adds the pairs that the tokens ahead spell and hands the first other token back |
| `Parsers.Registry.ReadFile` | src/registry.cpp:469-486 | reads pairs to the end of the text and rejects anything after them |
| `Grammar.TermIffGrammar` | src/registry.cpp:790-830 | a term is parsed if and only if the tokens spell it, up to the same rest: anything else is an error |
| `Grammar.ListIffGrammar` | src/registry.cpp:757-787 | the same for lists: exactly one comma between neighbours where commas are required, at most one where they are optional, none before the first element or at the end, and the bracket that matches |
| `Grammar.PairsIffGrammar` | src/registry.cpp:431-466 | pairs are read if and only if they stand there, up to a token that begins none, with new and distinct keys if redefinition is not allowed; they are then added in order |
| `Grammar.StoredByGrammar` | src/registry.cpp:448-462 | when reading ends at something that is no pair, or at a forbidden redefinition, which is then the error, the store holds the pairs before it |
| `Grammar.LastIsStored` | src/registry.cpp:176-187 | where redefinition is allowed each key has the value and line it was given last |
| `Grammar.TextIffGrammar` | src/registry.cpp:469-486 | a file is accepted if and only if all of it, character by character, is a registry with new and distinct keys where these are asked for; the result is that registry. Any other file is an error |
| `Rejection.TermFailsIff` | src/registry.cpp:790-830 | parsing a term fails exactly where the tokens cannot go on as a term, with the error that belongs there: lexical, a value expected, a comma expected |
| `Rejection.ListFailsIff` | src/registry.cpp:757-787 | the same within a list, behind any number of good elements |
| `Rejection.PairsFailIff` | src/registry.cpp:431-466 | reading pairs fails exactly if behind some pairs there is a broken one, or a redefinition that is not allowed, with that error |
| `Rejection.TextFailsIff` | src/registry.cpp:469-486 | reading a file fails exactly so, or if its pairs do not reach the end |
| `Parsing.Stored` | src/registry.cpp:448-462 | the store when reading ends, also by an error: with redefinition disallowed no existing entry is ever changed |
| `Printing.ReadInvertsWrite` | include/nanonet/registry.h:974-976 | print then parse is the identity on characters: distinct identifier keys with arbitrarily nested values, in every comment, quote and comma style and any spacing, are read back into exactly those pairs |
| `Printing.ReadInvertsPrint` | include/nanonet/registry.h:974-976 | the same for the plainest layout, as a total printing function |
| `Printing.RereadIsIdentity` | src/registry.cpp:431-466 | whatever text is accepted, writing its registry in any grammar and reading that gives the same registry |
| `Printing.TermParsed` | src/registry.cpp:790-830 | the tokens of a term, followed by anything that cannot continue it, are parsed into that term |
| `CommaPolicy.PairsRelaxed` | src/registry.cpp:765-774 | what is accepted with commas required is accepted with commas optional, with the same pairs |
| `CommaPolicy.CommasDeletableIff` | src/registry.cpp:757-828 | deleting separator commas never changes a term, and never a whole registry, if and only if list and expression delimiters differ |
| `CommaPolicy.PairsThinned` | src/registry.cpp:757-828 | with different delimiters a registry without its separator commas is read into the same pairs |
| `CommaPolicy.SameDelimitersText` | src/registry.cpp:798-819 | the counterexample for equal delimiters, as two texts that are read into different registries |
| `OutputBuffers.OStreamBuf.MovedFrom` | include/nanonet/util.h:670-679 | the new buffer takes over everything; the old one has neither sink nor put area |
| `OutputBuffers.OStreamBuf.Put` | include/nanonet/util.h:736-747 | while writes succeed, characters written followed by characters pending grow by exactly the one put; exactly when it fails, and exactly when another character may follow |
| `OutputBuffers.OStreamBuf.Overflow` | include/nanonet/util.h:736-747 | stores the character, if it is one, and flushes; on failure it stays pending; what the result says |
| `OutputBuffers.OStreamBuf.Flush` | include/nanonet/util.h:922-944 | writes all pending characters or leaves the buffer as it was; without a sink does nothing; exactly when it fails |
| `OutputBuffers.OStreamBuf.Destroy` | include/nanonet/util.h:707-713 | flushes and shuts the sink down once, unless moved from |
| `OutputBuffers.WriteAll` | include/nanonet/util.h:664-769 | over any sequence of puts, syncs and moves, with all objects destroyed at the end: the sink gets exactly the characters put, unless a write failed, and is shut down exactly once |
| `OutputBuffers.RefusedCharacter` | include/nanonet/util.h:736-747 | the failing input: at a full buffer of one cell a failed write leaves the refused character pending and no cell for another |
| `OutputBuffers.RefusedCharacterIsWritten` | include/nanonet/util.h:922-944 | the next flush that succeeds writes the refused character |
| `InputBuffers.RefillKeepsFaithful` | include/nanonet/util.h:947-975 | a refill keeps the window on the text right and does not move the reader, whether or not the source has anything; a failed read spoils nothing while the first chunk is held |
| `InputBuffers.WindowIsWideEnough` | include/nanonet/util.h:954-972 | reading forward always leaves `size_pb` characters to go back to, or all there were |
| `InputBuffers.FailedReadKeepsWindow` | include/nanonet/util.h:954-965 | after a read that brought nothing the window still shows what was read, whatever that was, if and only if the first chunk is still held, or none has come |
| `InputBuffers.IStreamBuf.Underflow` | include/nanonet/util.h:947-975 | the next character of the text is at hand without the reader moving; none only if the window was used up and the read brought nothing |
| `InputBuffers.IStreamBuf.Bump` | include/nanonet/util.h:947-975 | reading delivers the characters of the source one by one, whatever the chunks, and touches nothing else of the text |
| `InputBuffers.IStreamBuf.Unget` | include/nanonet/util.h:966-972 | goes back exactly as far as the window reaches, to the character read there wherever that is sure |
| `InputBuffers.IStreamBuf.Reread` | include/nanonet/util.h:947-975 | characters put back are read again unchanged: the whole window while no read has failed, and what has been read of the chunk while none has spoilt the memory |
| `InputBuffers.FailedReadKeepsText` | include/nanonet/util.h:954-965 | the same as a position in the source: if and only if the chunk held begins the text, or is empty |
| `InputBuffers.ReadToEnd` | include/nanonet/util.h:947-975 | reading until there is nothing yields exactly the chunks of the source up to its first failure, one after the other, for every chunking, buffer size and putback size |
| `InputBuffers.ReadAll` | include/nanonet/util.h:771-842 | over any sequence of reads, put-backs and moves: every read is answered unless one has failed; each character is the one of the text at the position the history leads to, while no read has failed or if nothing is put back; going back fails only at the beginning or `size_pb` characters behind the furthest read; with nothing put back, no read fails that asks for no more than the source brings; one shutdown |
| `InputBuffers.AllGets` | include/nanonet/util.h:947-975 | if every attempt to read was answered, n reads have read n characters |
| `InputBuffers.PutBackAfterFailure` | include/nanonet/util.h:954-965 | a run in which a failed read makes a character put back come back wrong |
| `Sentries.Make` | include/nanonet/util.h:866-867 | a new holder keeps the difference between any counter and the number of its holders |
| `Sentries.MoveOut` | include/nanonet/util.h:869-870 | so does move construction |
| `Sentries.Drop` | include/nanonet/util.h:884-888 | so does destruction |
| `Sentries.Assign` | include/nanonet/util.h:871-872 | so does move assignment, if and only if the target did not hold the counter or is the source |
| `Sentries.Sentry.Reset` | include/nanonet/util.h:882 | disposes of the old handle and holds the new one without initializing it |
| `Sentries.RunAll` | include/nanonet/util.h:862-911 | over any program: which sentries hold the counter, and that it has grown by their number and by one for each assignment that overwrote one |
| `Sentries.CountIsRight` | include/nanonet/util.h:871-872 | the counter is the number of its holders throughout exactly if no assignment overwrites another holder |
| `Sentries.LeakOne` | include/nanonet/util.h:871-872 | the failing input: two sentries on one counter, one assigned to the other, both destroyed, and the counter is 1 |
| `Sentries.HandOver` | src/sys/server.cpp:56-84 | a connection's sentry on its way into the thread, through temporary, parameter and member, is one count and one holder |
| `Server.StepKeepsInv` | src/sys/server.cpp:86-314 | every step of the accept thread and of every connection keeps the count of sentries and the hand-over of the last one |
| `Server.SentriesProtectTheStatus` | src/sys/server.cpp:78-84 | `connections_current` is the number of live sentries; once the accept thread has returned no connection is in a handler or will touch the status object |
| `Server.ReturnIsFinal` | src/sys/server.cpp:292-314 | nothing but calls of `shutdown` can happen after the return |
| `Server.CountOnlyFalls` | src/sys/server.cpp:292-314 | after the accept loop the count never grows and the loop is not re-entered |
| `Server.AfterShutdown` | include/nanonet/sys/server.h:50-60 | the flag stays down for ever; at most one more connection is accepted and it never reaches the handler; every other one starts at most one more handler call |
| `Server.ShutdownNeverStuck` | src/sys/server.cpp:249-314 | until the accept thread has returned, some step other than waiting can be taken |
| `Server.ShutdownTerminates` | src/sys/server.cpp:249-314 | every other step after shutdown decreases a measure, so the return is reached if handlers and clients let it |
| `Server.ShutdownExceptionCounts` | src/sys/server.cpp:157-159 | after a shutdown exception of the handler or the welcome writer the connection is gone on no schedule before the flag is down |
| `Server.EndsForGood` | src/sys/server.cpp:113-170 | the handler's false, any exception, a line that does not come and a flag found down end the connection: it never calls the handler again |
| `Server.GoesOnServing` | src/sys/server.cpp:113-126 | with the flag up, a connection whose handler returned true, whose welcome is written or whose thread starts can have its next line handled |
| `Server.ServerServes` | src/sys/server.cpp:249-289 | with the flag up, whatever has happened, the server can accept one more connection and have its first line handled |
| `Server.LingersIfTold` | src/sys/server.cpp:163-170 | after a shutdown exception the connection waits until the client has closed if and only if the parameters say so |
| `Server.ServerThread.CheckFlag` | src/sys/server.cpp:249-249 | the accept loop is left only with the flag down |
| `Server.ServerThread.TakeSentry` | src/sys/server.cpp:259-259 | the sentry is counted, the count is that of live sentries, and only the new connection is in the accept thread's hands |
| `Server.ServerThread.StartThread` | src/sys/server.cpp:259-289 | started or not, no sentry is left in the accept thread's hands and the count is that of live sentries |
| `Server.ServerThread.LookAtCount` | src/sys/server.cpp:296-303 | returns exactly when every connection has destroyed its sentry |
| `Server.ServerThread.BeginConnection` | src/sys/server.cpp:128-131 | the status object is still there; with the flag down no handler call will come |
| `Server.ServerThread.GetLine` | src/sys/server.cpp:121-122 | the handler is called once per line got, with the status object still there |
| `Server.ServerThread.CatchShutdown` | src/sys/server.cpp:157-170 | the flag is down, no handler call is due, and the status object is still there |
| `Server.ServerThread.LeaveThread` | src/sys/server.cpp:78-84 | the sentry's destruction is the last access to the status object, which is there for it, and the count falls with the live sentries |
| `Xdr.WriteInteger` | include/nanonet/xdr.h:124-140 | writes the digits of the two's complement, changes nothing else and advances by the size |
| `Xdr.ReadInteger` | include/nanonet/xdr.h:104-122 | reads the number whose digits are there, converted to the type |
| `Xdr.TwosComplement` | include/nanonet/xdr.h:124-140 | the bytes are the big-endian base-256 digits of the two's complement, as in sections 3.1 and 3.2 of RFC 1832; the top bit is the sign |
| `Xdr.OrAdds` | include/nanonet/xdr.h:115-120 | or-ing a shifted byte into zero bits is adding it |
| `Xdr.PadSize` | include/nanonet/xdr.h:72-79 | at most 3 and up to the next multiple of 4 |
| `Xdr.WriteString` | include/nanonet/xdr.h:175-181 | the characters and then zeros up to the next multiple of 4, as in section 3.9 of RFC 1832 |
| `Xdr.ReadString` | include/nanonet/xdr.h:183-192 | the characters; the fill is skipped |
| `Xdr.RoundTrip` | include/nanonet/xdr.h:104-192 | any sequence of integers of all six types and strings is read back item by item, whatever follows |
| `Xdr.WriteThenRead` | include/nanonet/xdr.h:104-192 | through the buffer: the same items, with both iterators at the same offset |
| `Xdr.EncodeInvertsDecode` | include/nanonet/xdr.h:104-192 | conversely, writing what was read restores the bytes if and only if the fill is zero |
| `GetLine.InputStream.GetLine` | src/util.cpp:77-113 | the first line of the rest and whether it is complete; a stream that has failed changes nothing |
| `GetLine.InputStream.ReadLines` | src/util.cpp:77-113 | the loop around it ends and yields the lines of the text, the failing call the unfinished rest |
| `GetLine.LinesLoseNothing` | include/nanonet/util.h:216-232 | the lines, each with a newline exactly when shorter than the maximum, and the rest are the text; none is too long |
| `GetLine.LinesInvertUnlines` | include/nanonet/util.h:216-232 | and it is the only such cut |
| `Fractional.ToFractional` | include/nanonet/util.h:543-567 | whole part and fraction recombine to the rounded number of m-ths, the fraction is proper, and no assertion can fire |
| `Fractional.SplitIsNearest` | include/nanonet/util.h:533-541 | such a split is within half an m-th of the value, and there is only one |

## Left out

- Fractional.ToFractional: exact reals; IEEE rounding is not modelled.
- InputBuffers.IStreamBuf.Unget: beyond the position from which the window is sure the character is the one in the buffer, which is not described further.
- OutputBuffers.OStreamBuf.Put: requires a cell for the character, as the code does; when there is one after a call is part of its contract.
- Lexers.Lexer.ReadNumber: a number keeps its literal text; the value that `is >> double` computes and its range errors are not modelled, nor are hexadecimal and special literals.
- Lexical and grammatical errors carry their kind, and lexical ones their line; the text of messages and the file name are not part of this model.
- The exception of `getline` and `to_fractional` for arguments outside their documented preconditions.
- A `dispatch` that overlaps the pool's destructor, from another thread or from a job still running: its job would be queued behind the stop items.
- Parser delimiters other than the three brackets; `closing_token` means nothing for them.
- `convert`, `read_numbers`, `get_*` and `check_*` of the registry: single lookups and conversions.
- `dispatch_returning`, moves of a thread pool, and the exceptions a task stores in its future.
- That a terminating task terminates: the progress theorems count its completion as a step.
- Sockets, time-outs, rate estimation and logging of the server, the retry loop of `run_server`, and the closing of a connection's socket, which happens after its sentry is gone.
- The bytes the reader_writer of a stream buffer moves on failure, beyond that a failed write takes an unknown part and a failed read may spoil the memory it was given.
- XDR floating-point values, which use the byte order of the host.
- Iterators that fail or end early: an XDR buffer is as long as its items need.
- HTTP headers, URLs, splitting and trimming, dates, case mapping: easy or library-bound.
- The memory model below mutexes and sequentially consistent atomics.
