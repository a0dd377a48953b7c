# Verified model of PL/Container

PL/Container runs database functions written in Python inside containers. A backend process of the
database (the QE) and the client inside the container talk over one connection, and the client may
call back into the database while a function runs. This project models that conversation from the
bytes up, and the state both sides keep around it, and proves what the program relies on.

The layers, lowest first:

- `ByteStream`, `Link`: the buffered byte stream with in-place compaction and resizing, and two
  connections joined by a socket that may split or fail any call. No byte is lost, repeated or
  reordered in any run.
- `Codec`, `Sender`, `Receiver`, `MessageQueue`: the wire format as a pure encoder and decoder that
  invert each other, the step-by-step send and receive functions that refine them, and the result
  that a direction of the connection is a queue of messages.
- `Session`, `SessionOverWire`: both sides as state machines with call stacks, calls nested to any
  depth; and every run of them carried by two linked connections.
- `ErrorReport`, `FirstErrors`, `CallRuns`: what a call sends when errors are raised, logs written and
  requests made in user code, while its value is converted, or while its result is written; which error
  is reported; and what calls leave to each other.
- `LruCache`, `Coherence`: the function caches of both sides, and that a call runs the version of the
  function that is in the catalog.
- `PlanSlots`, `Subtransactions`: prepared plans with their free list, and explicit and implicit
  subtransactions through nested calls.
- `NestedArrays`, `NullBitmap`, `TypeTrees`: arrays as nested lists and back, arrays in storage, and
  types and rows with dropped columns. `ArrayJourney` joins storage, wire and Python for arrays.
- `Cleaner`, `RuntimeMeta`, `PythonSource`: the cleanup process, the runtime declaration, and the
  generated Python text.

`dafny verify dfyconfig.toml` checks everything. Code that changes things step by step is modelled by
classes and methods with loops, proved against functions on values; the laws are proved of those
functions.

Properties one might expect and that do not hold of the code have a witness and the exact condition:

- the bound on pending data does not keep the buffer arithmetic within an `int`
  (`ByteStream.AppendOverflowsIff`, `ReceiveOverflowsIff`, `DataBoundAloneOverflows`);
- what user code sends while its result is being written is read as part of the result
  (`Session.UnharmedIff`, `MixedIsMisread`);
- an entry rebuilt without reaching the client's cache, by a failed call or by a row step without any
  error, can make later calls run an old version, and a namesake compiled in the same container can take
  the function object away (`Coherence.EveryRunIsCurrentIff`, `FailedRebuildGoesStale`,
  `RowStepGoesStale`, `OverloadReleased`);
- a nested call can end its caller's subtransaction (`Subtransactions.OneStackDiscipline`,
  `ForeignExitMismatches`);
- a call can send a result after an error report, a log or a request inside a result, or a request that
  is not answered (`ErrorReport.AnswersOnce`, `GeneratorErrorSendsTwo`, `NoticeInsideResult`,
  `RequestInsideResult`, `LogInsideResult`, `WithBlockHangs`);
- an exception inside a generator, or a missing list item, is not reported and is charged to the next
  call (`FirstErrors.FirstErrorReported`, `CallRuns.LeftToNext`, `GeneratorExceptionLost`,
  `ShortListChargesNext`);
- lists nested more than ten deep, and sequences that are their own first item, overrun the arrays that
  hold the dimensions (`NestedArrays.Discover`, `DeepListOverruns`, `OwnItemOverruns`), and a list too
  short before the last dimension crashes the reader (`NestedArrays.Drain`, `MissingListCrashes`);
- a row type with a live column after a dropped one does not survive the way back
  (`TypeTrees.ComesBackIff`, `RowLost`), and one with any dropped column comes back with unset memory in
  it (`TypeTrees.UnchangedIff`).

Where comments and code disagree the code is modelled: `check_runtime_id` refuses an underscore at the
start, as its pattern says, though the comment inside names only dot and hyphen; a client that fails to
start Python keeps the error for a connection that is never set (`ErrorReport.Client.FailedStart`).

## Model

| member | source | states |
|---|---|---|
| ByteStream.TargetSizeHolds | src/common/comm_connectivity.c:189-243 | The size chosen holds all data and the request; a shrink gives a strictly smaller size and is tried only when the old buffer has room already |
| ByteStream.ChunksNeverOverflow | src/common/comm_connectivity.c:189-243 | A resize for at most MAX_CHUNK bytes at a buffer of at most MAX_BUFFER, with little more pending than requested, overflows nothing and leaves the buffer within MAX_BUFFER |
| ByteStream.AppendOverflowsIff | src/common/comm_connectivity.c:252-281 | With the data bounded (pending, request, reserve and one block fit an int) an append overflows exactly when it lacks room, reset and flush leave data in the buffer, the buffer does not shrink, and the end of the reset window plus the request passes INT_MAX |
| ByteStream.ReceiveOverflowsIff | src/common/comm_connectivity.c:308-342 | With the data bounded a receive overflows exactly when it lacks data, the buffer does not shrink, and the end of the reset window plus the request passes INT_MAX |
| ByteStream.DataBoundAloneOverflows | src/common/comm_connectivity.c:210-220 | A sequence of receives that fit leads to a window where the next one keeps to that bound and overflows |
| ByteStream.AppendsFitAtStart | src/common/comm_connectivity.c:119-152 | An output window starts at zero until a flush fails; from such a window an append within that bound never overflows |
| ByteStream.SmallRequestsFit | src/common/comm_connectivity.c:252-342 | Requests of at most MAX_CHUNK bytes fit at every window of a buffer of at most MAX_BUFFER |
| ByteStream.CopyBytes | src/common/comm_connectivity.c:165-176 | A copy within one array needs disjoint regions, gives the old source bytes and leaves all other bytes alone |
| ByteStream.Buffer.constructor | src/common/comm_connectivity.c:357-379 | A new buffer is valid, empty and of the initial size |
| ByteStream.Buffer.MaybeReset | src/common/comm_connectivity.c:160-179 | Compaction keeps the pending bytes, copies only between disjoint regions, and leaves the window start in the first half of the buffer |
| ByteStream.Buffer.MaybeResize | src/common/comm_connectivity.c:189-243 | Grow, shrink or keep: pending bytes are kept; with memory the size is the target size, without it nothing changes; it fails exactly when a buffer is needed and there is no memory, and after success the request fits behind the data |
| ByteStream.Wire.Send | src/common/comm_connectivity.c:96-111 | The socket takes the part of what it is given that the environment answers, at least one byte, or is refused and takes nothing |
| ByteStream.Wire.Recv | src/common/comm_connectivity.c:55-91 | The socket delivers any part of what is under way, in order and only into the range it is given; nothing exactly when it is refused or nothing is there; it is never asked for zero bytes |
| ByteStream.Conn.Resize | src/common/comm_connectivity.c:189-243 | Memory is asked for exactly when a new buffer is to be made; a failure has a refused allocation as its cause |
| ByteStream.Conn.constructor | src/common/comm_connectivity.c:357-379 | A new connection has two empty, separate buffers |
| ByteStream.Conn.MaybeFlush | src/common/comm_connectivity.c:119-152 | Whatever the socket accepts, the outgoing stream (wire then buffer) is unchanged; on success the window is empty at the start if it was full enough or the flush forced, and else unchanged; it fails exactly when a send was refused during the call |
| ByteStream.Conn.Flush | src/common/comm_connectivity.c:349-351 | Success leaves nothing pending and the outgoing stream as it was; it fails exactly when a send was refused |
| ByteStream.Conn.Append | src/common/comm_connectivity.c:252-281 | For every request that overflows no int at the current window: success adds exactly the given bytes at the end of the outgoing stream, failure adds none, and the buffer is never overrun; with room at the end it succeeds without asking for anything, otherwise it fails only if a send or an allocation was refused during the call, and so never when socket and memory are willing |
| ByteStream.Conn.Receive | src/common/comm_connectivity.c:308-342 | For every request that overflows no int at the current window: success makes at least the requested bytes pending; the incoming stream never changes; it fails only if a receive or an allocation was refused during the call or fewer bytes are there |
| ByteStream.Conn.Read | src/common/comm_connectivity.c:289-300 | For every request that overflows no int at the current window: success returns exactly the next bytes of the incoming stream and removes them, failure loses none; it succeeds whenever the bytes are there and socket and memory are willing |
| Link.Step | src/common/comm_connectivity.c:119-342 | Any operation that overflows no int, by either of two linked connections, keeps in both directions: sent = read, then the reader's buffer, the wire, the writer's buffer |
| Link.Run | src/common/comm_connectivity.c:119-342 | The same over every interleaving of appends, flushes, receives and reads with any partial or failed socket calls, up to the first request that would overflow; what one side has read is a prefix of what the other has sent; runs of requests of at most MAX_CHUNK on new connections never end early |
| Codec.TakeIntRoundTrip | src/common/comm_channel.c:245-278 | Fixed-width integers come back from their bytes, whatever follows |
| Codec.StringRoundTrip | src/common/comm_channel.c:280-296 | Strings come back, null and empty ones as different values |
| Codec.KindRoundTrip | src/common/comm_channel.c:381-397 | The type code on the wire identifies the type kind |
| Codec.TypeRoundTrip | src/common/comm_channel.c:381-397 | Type trees of any depth come back with names and subtypes |
| Codec.ValueRoundTrip | src/common/comm_channel.c:307-353 | Every value that fits its type comes back: nulls, scalars, text, bytea, arrays and rows nested in each other |
| Codec.ArrayRoundTrip | src/common/comm_channel.c:355-379 | Dimensions and elements come back, including arrays without dimensions and arrays of size zero |
| Codec.FieldsRoundTrip | src/common/comm_channel.c:399-410 | Row fields come back in order, each read with the type of its place |
| Codec.ArgumentsRoundTrip | src/common/comm_channel.c:677-685 | Argument lists come back with names, types and values |
| Codec.CallRoundTrip | src/common/comm_channel.c:698-729 | A call request comes back whole |
| Codec.ErrorRoundTrip | src/common/comm_channel.c:839-846 | Error message and stack trace come back |
| Codec.ColumnsRoundTrip | src/common/comm_channel.c:740-746 | Column types and names of a result come back |
| Codec.RowsRoundTrip | src/common/comm_channel.c:748-753 | All rows of a result come back |
| Codec.ResultRoundTrip | src/common/comm_channel.c:731-772 | A result comes back as sent; sent with a pending error it decodes as that error |
| Codec.NoteRoundTrip | src/common/comm_channel.c:774-811 | Logs, quote requests and quote results come back |
| Codec.SqlRoundTrip | src/common/comm_channel.c:848-930 | Statements, prepares, unprepares and plan executions come back |
| Codec.BlobRoundTrip | src/common/comm_channel.c:932-943 | Raw messages come back byte by byte |
| Codec.PairRoundTrip | src/common/comm_channel.c:825-836 | A subtransaction request comes back |
| Codec.PingRoundTrip | src/common/comm_channel.c:1190-1209 | A ping is accepted exactly from a peer whose version starts with the own one |
| Codec.RoundTrip | src/common/comm_channel.c:108-233 | For every well-formed message, mask, versions of both ends and trailing bytes: a message in the mask decodes to itself (a result with a pending error to that error) with exactly the trailing bytes left; outside the mask it is refused, and so is a ping from a peer of another version |
| Codec.NegativeLengthsRefused | src/common/comm_channel.c:469-512 | Negative lengths of strings, byte strings and argument lists are refused, but that of the null string |
| Codec.StringAccepted | src/common/comm_channel.c:469-492 | What is accepted as a string is the encoding of that string |
| Codec.TagDecides | src/common/comm_channel.c:154-233 | The first byte alone decides what kind of message is read; unknown tags and tags outside the mask are refused |
| Codec.SqlTypeDecides | src/common/comm_channel.c:1253-1279 | The type number alone decides what kind of SQL request is read; unknown ones are refused |
| Codec.StreamRoundTrip | src/common/comm_channel.c:108-233 | A stream of messages decodes to those messages |
| Codec.PrefixFree | src/common/comm_channel.c:108-151 | No encoding is a prefix of another message's: equal streams start with equal messages |
| Sender.SendString | src/common/comm_channel.c:280-296 | The step-by-step sender appends exactly the pure encoding of a string to the outgoing stream, or fails because something was refused during the call or, for more than MAX_CHUNK bytes, a request was too large |
| Sender.SendType | src/common/comm_channel.c:381-397 | The step-by-step sender appends exactly the pure encoding of a type tree to the outgoing stream, or fails because something was refused during the call or, for more than MAX_CHUNK bytes, a request was too large |
| Sender.SendValue | src/common/comm_channel.c:307-353 | The step-by-step sender appends exactly the pure encoding of a value to the outgoing stream, or fails because something was refused during the call or, for more than MAX_CHUNK bytes, a request was too large |
| Sender.SendArray | src/common/comm_channel.c:355-379 | The step-by-step sender appends exactly the pure encoding of an array to the outgoing stream, or fails because something was refused during the call or, for more than MAX_CHUNK bytes, a request was too large |
| Sender.SendFields | src/common/comm_channel.c:399-410 | The step-by-step sender appends exactly the pure encoding of a row to the outgoing stream, or fails because something was refused during the call or, for more than MAX_CHUNK bytes, a request was too large |
| Sender.SendRaw | src/common/comm_channel.c:932-943 | The step-by-step sender appends exactly the pure encoding of a raw message to the outgoing stream, or fails because something was refused during the call or, for more than MAX_CHUNK bytes, a request was too large |
| Sender.SendArguments | src/common/comm_channel.c:677-685 | The step-by-step sender appends exactly the pure encoding of an argument list to the outgoing stream, or fails because something was refused during the call or, for more than MAX_CHUNK bytes, a request was too large |
| Sender.SendCall | src/common/comm_channel.c:698-729 | The step-by-step sender appends exactly the pure encoding of a call request to the outgoing stream, or fails because something was refused during the call or, for more than MAX_CHUNK bytes, a request was too large |
| Sender.SendError | src/common/comm_channel.c:839-846 | The step-by-step sender appends exactly the pure encoding of an exception to the outgoing stream, or fails because something was refused during the call or, for more than MAX_CHUNK bytes, a request was too large |
| Sender.SendTable | src/common/comm_channel.c:731-754 | The step-by-step sender appends exactly the pure encoding of the rows of a result to the outgoing stream, or fails because something was refused during the call or, for more than MAX_CHUNK bytes, a request was too large |
| Sender.SendTrailer | src/common/comm_channel.c:756-767 | The step-by-step sender appends exactly the pure encoding of the result trailer to the outgoing stream, or fails because something was refused during the call or, for more than MAX_CHUNK bytes, a request was too large |
| Sender.SendSql | src/common/comm_channel.c:848-930 | The step-by-step sender appends exactly the pure encoding of an SQL request to the outgoing stream, or fails because something was refused during the call or, for more than MAX_CHUNK bytes, a request was too large |
| Sender.Send | src/common/comm_channel.c:108-151 | On success the socket got what was pending and then exactly the encoding of the message, and the output buffer is empty; a message of at most MAX_CHUNK bytes is sent if socket and memory are willing |
| Receiver.GetString | src/common/comm_channel.c:469-492 | The step-by-step receiver reads from the incoming stream what the pure decoder takes from it and leaves the rest; it fails only where the decoder fails, something was refused during the call or, with more than MAX_CHUNK bytes to read, a request was too large: a string |
| Receiver.GetBlob | src/common/comm_channel.c:494-512 | The step-by-step receiver reads from the incoming stream what the pure decoder takes from it and leaves the rest; it fails only where the decoder fails, something was refused during the call or, with more than MAX_CHUNK bytes to read, a request was too large: a byte string |
| Receiver.GetType | src/common/comm_channel.c:632-657 | The step-by-step receiver reads from the incoming stream what the pure decoder takes from it and leaves the rest; it fails only where the decoder fails, something was refused during the call or, with more than MAX_CHUNK bytes to read, a request was too large: a type tree |
| Receiver.GetValue | src/common/comm_channel.c:514-572 | The step-by-step receiver reads from the incoming stream what the pure decoder takes from it and leaves the rest; it fails only where the decoder fails, something was refused during the call or, with more than MAX_CHUNK bytes to read, a request was too large: a value |
| Receiver.GetArray | src/common/comm_channel.c:574-630 | The step-by-step receiver reads from the incoming stream what the pure decoder takes from it and leaves the rest; it fails only where the decoder fails, something was refused during the call or, with more than MAX_CHUNK bytes to read, a request was too large: an array |
| Receiver.GetFields | src/common/comm_channel.c:659-673 | The step-by-step receiver reads from the incoming stream what the pure decoder takes from it and leaves the rest; it fails only where the decoder fails, something was refused during the call or, with more than MAX_CHUNK bytes to read, a request was too large: a row |
| Receiver.GetArguments | src/common/comm_channel.c:1076-1100 | The step-by-step receiver reads from the incoming stream what the pure decoder takes from it and leaves the rest; it fails only where the decoder fails, something was refused during the call or, with more than MAX_CHUNK bytes to read, a request was too large: an argument list |
| Receiver.GetCall | src/common/comm_channel.c:1211-1251 | The step-by-step receiver reads from the incoming stream what the pure decoder takes from it and leaves the rest; it fails only where the decoder fails, something was refused during the call or, with more than MAX_CHUNK bytes to read, a request was too large: a call request |
| Receiver.GetError | src/common/comm_channel.c:947-958 | The step-by-step receiver reads from the incoming stream what the pure decoder takes from it and leaves the rest; it fails only where the decoder fails, something was refused during the call or, with more than MAX_CHUNK bytes to read, a request was too large: an exception |
| Receiver.GetTable | src/common/comm_channel.c:960-1012 | The step-by-step receiver reads from the incoming stream what the pure decoder takes from it and leaves the rest; it fails only where the decoder fails, something was refused during the call or, with more than MAX_CHUNK bytes to read, a request was too large: the rows of a result |
| Receiver.GetResult | src/common/comm_channel.c:960-1022 | The step-by-step receiver reads from the incoming stream what the pure decoder takes from it and leaves the rest; it fails only where the decoder fails, something was refused during the call or, with more than MAX_CHUNK bytes to read, a request was too large: a result and its trailer |
| Receiver.GetPing | src/common/comm_channel.c:1190-1209 | The step-by-step receiver reads from the incoming stream what the pure decoder takes from it and leaves the rest; it fails only where the decoder fails, something was refused during the call or, with more than MAX_CHUNK bytes to read, a request was too large: a ping, checking the version |
| Receiver.GetSql | src/common/comm_channel.c:1253-1279 | The step-by-step receiver reads from the incoming stream what the pure decoder takes from it and leaves the rest; it fails only where the decoder fails, something was refused during the call or, with more than MAX_CHUNK bytes to read, a request was too large: an SQL request |
| Receiver.Receive | src/common/comm_channel.c:154-233 | A received message is the decoding, under the given mask, of the incoming stream; what can be decoded is received if socket and memory are willing and at most MAX_CHUNK bytes are to be read |
| MessageQueue.Post | src/common/comm_channel.c:108-151 | A completed send puts the message at the end of the queue; it fails only if something was refused during the call or the message is too large |
| MessageQueue.Fetch | src/common/comm_channel.c:154-233 | A completed receive takes the oldest message, which is in the mask and, for a ping, from a peer whose version starts with the own one; it fails only if there is no such message, something was refused during the call, or too much is to be read |
| Session.StepKeeps | src/plcontainer.c:366-425 | Each step of either side keeps the invariant: suspended calls pair up, and the innermost call is in one of the few states its messages allow |
| Session.QReceiveKeeps | src/plcontainer.c:377-425 | The backend loop keeps it whatever it receives next |
| Session.CReceiveKeeps | src/pyclient/plpy_spi.c:451-477 | The client's receive keeps it: a nested call or the awaited reply |
| Session.EveryRunIsSafe | src/plcontainer.c:366-425 | In every run in which user code sends nothing while its result is being written, at any nesting depth: no message outside a mask or taken for another kind, every result reaches its own call, the stacks mirror each other, never do both sides wait on empty channels |
| Session.NestsToAnyDepth | src/sqlhandler.c:320-345 | Calls do nest: for every n some such run ends with n calls active on both sides, each but the last suspended in SQL |
| Session.NestedCallReturns | src/plcontainer.c:340-425 | Whenever no call is active or SQL is executed, a call can be started, is accepted, and returns its result, and everything is as it was before, the suspended calls included |
| Session.RequestAnswered | src/pyclient/plpy_spi.c:451-477 | Every kind of request of a running call can be made and answered, and the call goes on as before |
| Session.LogPasses | src/plcontainer.c:406-409 | A log of a running call is read and disturbs nothing |
| Session.UnharmedIff | src/pyclient/pyconversions.c:363-384 | That premise is exact: a run that comes to rest is free of errors if and only if nothing was sent inside a result, and a run in which something was has met an error or has the garbled result still on its way |
| Session.MixedIsMisread | src/pyclient/pylogging.c:54-81 | Whenever a result is being written a log or request can be sent inside it, and the backend meets the error when it has read what is under way |
| Session.EveryRunCanFinish | src/common/comm_server.c:281-309 | From every state reached by such a run the conversation can go on to its end with all calls returned |
| Session.DrainAdvances | src/plcontainer.c:366-425 | In every state not at rest some fixed next step is enabled and brings the end nearer |
| Session.CallWhileReplying | src/pyclient/plpy_spi.c:771-829 | Were a call started while a reply other than to a subtransaction request is due, the client would refuse it, and only then |
| Session.PlanDroppedAfterReturn | src/pyclient/plpy_spi.c:388-430 | A plan object dropped when all calls have returned: both sides wait for each other until the next call, which the client refuses as the answer it waits for, whether or not the backend has answered |
| SessionOverWire.Perform | src/common/comm_channel.c:108-233 | Each step of the conversation sent or received over two linked connections keeps their letters in step with the queues of the state machine, message by message and statement kind by statement kind, and what is read is the wire form of what the state machine takes; it fails only if something was refused during the step or a request is too large, never on a mask or an empty queue |
| SessionOverWire.Connect | src/common/comm_connectivity.c:357-379 | Two new joined connections carry the initial state |
| SessionOverWire.Converse | src/common/comm_server.c:281-309 | The connections carry every run of the state machine in which nothing is sent inside a result; a run of at most MAX_CHUNK bytes goes through to its end if socket and memory are willing |
| LruCache.Cache.Up | src/function_cache.c:24-34 | Rotates in place: the chosen entry first, those before it one place on, the rest untouched |
| LruCache.Cache.Get | src/function_cache.c:36-55 | A hit moves the entry to the front and returns it; a miss changes nothing |
| LruCache.Cache.Put | src/function_cache.c:57-76 | The new entry is first; the replaced or evicted entry, if any, is freed, and no other |
| LruCache.RecencyIsByAge | src/pyclient/pycache.c:20-71 | The reference list orders distinct keys by the time since their last touch |
| LruCache.RecencyMembers | src/pyclient/pycache.c:20-71 | The reference list holds exactly the keys ever touched |
| LruCache.EveryRunIsLru | src/function_cache.c:24-76 | After any gets and puts the array holds the K most recently touched distinct keys, most recent first, each with its last value, and puts = cached + freed as bags |
| LruCache.FreedOnce | src/pyclient/pycache.c:53-71 | A function put once is cached or freed, never both, and freed at most once |
| LruCache.LookupAfterPut | src/pyclient/pycache.c:53-71 | A put makes its key known with the new value; other keys keep their value or are gone |
| Coherence.StopsAgreeing | src/message_fns.c:75-238 | The caches stop agreeing about a function by exactly two kinds of step: its entry is rebuilt without reaching the client, by a call that fails short of the cache or by a row step, while the container has an older version or a released object cached; or another function of its name is compiled in its container and both its entries survive that |
| Coherence.StepKeeps | src/message_fns.c:75-238 | Catalog change, container restart, call or row step within the premise: a function whose entry is valid in the backend is cached by its container only with that version and with an object that exists |
| Coherence.CurrentIff | src/pyclient/pycall.c:212-248 | In any state a call runs the catalog's version, in an object that exists, exactly when it rebuilds its entry or the caches agree about the function |
| Coherence.ChangedTypesRebuild | src/message_fns.c:94-99 | Whatever the caches hold, a call whose composite types have changed runs the catalog's version and, once it has reached the client, leaves that version cached there with an object that exists |
| Coherence.AfterRestart | src/pyclient/client.c:36-62 | After a container has started anew a call is current exactly if it runs there or was current before |
| Coherence.CalledComesFirst | src/pyclient/pycall.c:212-248 | A called function is the most recent one on both sides, also when it does not compile; a lost call leaves the client alone |
| Coherence.EveryCallIsCurrent | src/pyclient/pycall.c:212-248 | In every run within the premise the client executes the version current in the catalog |
| Coherence.EveryRunIsCurrentIff | src/message_fns.c:94-99 | The premise is exact: in a run of any enabled actions all calls are current at every moment if and only if no entry is rebuilt without reaching the client while the container has something unusable cached, and no namesake of a function in use is compiled in its container |
| Coherence.AfterNamesake | src/pyclient/pycall.c:230-243 | After a namesake was compiled in its container the next call of a function uses an object that is gone: the cache only borrows what the main module holds under the bare name |
| Coherence.OverloadReleased | src/message_fns.c:255-265 | Two overloads of one name in one container: the first is called, then the second, and the first has lost its object |
| Coherence.AfterFailedRebuild | src/message_fns.c:94-99 | After a rebuild that did not reach the client's cache the next call is current if and only if the container had no older version and no released object cached |
| Coherence.FailedRebuildGoesStale | src/message_fns.c:232-235 | Create, call, alter, and a call whose new source does not compile: the next call executes the old version |
| Coherence.RowStepGoesStale | src/plcontainer.c:272-278 | Without any error: a function altered while its rows are fetched is rebuilt by the next row and executed in the old version by the next call |
| PlanSlots.Slots.constructor | src/sqlhandler.c:232-246 | All slots are empty and linked in order |
| PlanSlots.Slots.Search | src/sqlhandler.c:148-163 | Finds the slot of a live plan, or -1 exactly when there is none |
| PlanSlots.Slots.Insert | src/sqlhandler.c:165-183 | Fails exactly on the null plan or when every slot is in use; otherwise an empty slot is taken; the free list stays acyclic and complete |
| PlanSlots.Slots.Delete | src/sqlhandler.c:185-201 | Empties the slot of a live plan and returns it to the free list; anything else changes nothing |
| PlanSlots.Slots.FreePlan | src/sqlhandler.c:203-219 | Frees exactly the plan it removed |
| PlanSlots.Deinit | src/sqlhandler.c:221-230 | Every live plan is freed exactly once and none is left |
| PlanSlots.Run | src/sqlhandler.c:148-246 | Any sequence of inserts and deletes behaves as a set of at most MAX_PPLAN plans |
| Subtransactions.OneStackDiscipline | src/subtransaction_handler.c:50-179 | For every tree of calls: each release or rollback hits the subtransaction it was meant for if and only if calls exit only what they entered; then a call leaves depth, records, memory context and resource owner as it found them, ending normally or not |
| Subtransactions.NothingLeftOpen | src/plcontainer.c:325-444 | Every subtransaction begun in a call has ended once when the call is over |
| Subtransactions.AbortRestores | src/subtransaction_handler.c:156-179 | Aborting what a call left open restores the state at its entry |
| Subtransactions.AbortRollsBack | src/subtransaction_handler.c:156-179 | What a call left open is rolled back, innermost first, and nothing else |
| Subtransactions.SqlOutcome | src/sqlhandler.c:260-427 | The implicit subtransaction around SQL, with calls nested in it, ends last and as itself: released if the SQL succeeds, rolled back if it fails |
| Subtransactions.ExitEnds | src/subtransaction_handler.c:93-130 | An exit ends what the call entered last, released or rolled back as the flag says |
| Subtransactions.CodeAsTold | src/pyclient/plpy_spi.c:701-829 | A call made of with-blocks and queries, nested in any way and through any calls, changes nothing but what is told without a stack: which subtransactions end, in which order, each committed exactly if the block was left without exception and no failed query ended the call in it, or the query did not fail |
| Subtransactions.WithBlocksRestore | src/pyclient/plpy_spi.c:701-829 | Code that only uses with-blocks keeps the discipline, however they nest and whether or not they fail, and commits as told |
| Subtransactions.ForeignExitMismatches | src/subtransaction_handler.c:93-130 | A nested call that exits its caller's subtransaction ends the wrong one |
| Subtransactions.Handler.EnterSub | src/subtransaction_handler.c:50-86 | A failed begin reports an error and records nothing |
| Subtransactions.Handler.ExitSub | src/subtransaction_handler.c:93-130 | Commit on 'e', rollback otherwise; with none open or a failed release an error is reported and nothing changes |
| Subtransactions.Handler.AbortOpenSubs | src/subtransaction_handler.c:156-179 | The loop aborts down to the saved level |
| NestedArrays.BuildDim | src/pyclient/pyconversions.c:112-142 | One dimension is built from the next elements and the cursor moves past exactly those |
| NestedArrays.FromArray | src/pyclient/pyconversions.c:144-166 | The nested list of a flat array; without dimensions the empty list |
| NestedArrays.NestAt | src/pyclient/pyconversions.c:112-142 | At each position stands the element with that row-major number |
| NestedArrays.Discover | src/pyclient/pyconversions.c:409-440 | The lengths and lists along the first elements, down to something that is no list or to an empty list, written into arrays of ten places; the arrays are overrun if and only if there are more than ten or the way never ends because a sequence is its own first item |
| NestedArrays.OwnItemOverruns | src/pyclient/pycall.h:10-31 | A list of one unicode string under Python 2, where the string test does not cover it, is one list deep and overruns |
| NestedArrays.DeepListOverruns | src/pyclient/pyconversions.c:414-435 | Eleven lists inside each other are one too many |
| NestedArrays.FitOfShaped | src/pyclient/pyconversions.c:422-440 | A rectangular list has its own dimensions found and is read as it is |
| NestedArrays.FitAt | src/pyclient/pyconversions.c:374-384 | The element read at a position is the item of the innermost list there, or null when that list is too short |
| NestedArrays.ShortListIsFilled | src/pyclient/pyconversions.c:374-384 | [[a, b], [c]] is read as [[a, b], [c, None]], and an item was missing |
| NestedArrays.ShortReleases | src/pyclient/pyconversions.c:388-392 | If a list is too short before the last dimension, the walk comes to a position from which it releases a list that is not there |
| NestedArrays.MissingListCrashes | src/pyclient/pyconversions.c:388-392 | [[[a]], []] makes the reader release a list that is not there |
| NestedArrays.NextIsSuccessor | src/pyclient/pyconversions.c:385-404 | The next position has the next row-major number, and after the last there is none |
| NestedArrays.Iterator.constructor | src/pyclient/pyconversions.c:467-473 | The iterator starts at the first element with the lists leading to it |
| NestedArrays.Iterator.Advance | src/pyclient/pyconversions.c:385-404 | The carry loop moves to the next position with the right list, or none, at every level, or past the last element with every list released; it crashes exactly when a list it has to release is missing |
| NestedArrays.Iterator.Step | src/pyclient/pyconversions.c:363-407 | A step returns the element at the position, null when it is None or missing, says whether it was missing, then advances |
| NestedArrays.Drain | src/common/comm_channel.c:355-379 | Product-of-dimensions steps crash if and only if a list before the last dimension is too short; else they return all elements in row-major order, and some item was missing if and only if an innermost list is too short |
| NestedArrays.AsArray | src/pyclient/pyconversions.c:409-490 | Anything but a list is refused; more than ten dimensions or a way without end overrun; a list too short before the last dimension crashes the reader, if there is anything to read; otherwise the dimensions along the first elements, the elements of the list cut or filled up with nulls to those dimensions, and whether an IndexError is left for the next call |
| NestedArrays.ArrayRoundTrip | src/pyclient/pyconversions.c:112-166 | An array of at most ten dimensions given to Python and returned has the same dimensions, elements and nulls; one without dimensions returns with the single dimension zero; a deeper one overruns |
| NestedArrays.ListRoundTrip | src/pyclient/pyconversions.c:363-490 | A list with innermost lists of any length, read as an array and given back, is the rectangular list it is read as, unless its arrays are overrun |
| NullBitmap.Cursor.constructor | src/plc_typeio.c:405-434 | The cursor starts at the first bit and the first stored element |
| NullBitmap.Cursor.Next | src/plc_typeio.c:447-480 | The k-th call reports null exactly when bit k is clear, and else the stored element numbered by the non-nulls before k |
| NullBitmap.Cursor.Move | src/plc_typeio.c:471-478 | Byte pointer and mask stand for bit k, across byte boundaries |
| NullBitmap.Drain | src/common/comm_channel.c:355-379 | Taking size elements gives the elements of the array, with or without bitmap |
| NullBitmap.StoredPrefix | src/plc_typeio.c:447-480 | The stored element of a non-null place is numbered by the non-nulls before it |
| NullBitmap.HoldsOne | src/plc_typeio.c:405-434 | Bitmap, data and size determine the elements |
| ArrayJourney.Travel | src/common/comm_channel.c:355-379 | An array encoded at one end and decoded at the other keeps dimensions, elements and nulls |
| ArrayJourney.ThroughPython | src/pyclient/pyconversions.c:363-490 | An array of at most ten dimensions taken from storage through its null bitmap, sent, built into nested lists, read back by the iterator and sent back is the array that was stored; Python sees the nesting of exactly its elements |
| ErrorReport.Client.RaiseDelayed | src/pyclient/pyerror.c:139-150 | A pending error is sent once, if the call is not over, a connection is set and no result is being written; else nothing changes |
| ErrorReport.Client.RaiseError | src/pyclient/pyerror.c:93-137 | When an exception can be sent the older of pending and new error is sent; while a result is written the first error is kept and later ones dropped; after the end of the call all are dropped; Python's error indicator goes into the report and is emptied in every case |
| ErrorReport.Client.TakePending | src/pyclient/pyerror.c:152-156 | The result being written takes the pending error over |
| ErrorReport.Client.Output | src/pyclient/pylogging.c:47-97 | A log of any level is sent, also in the middle of a result, unless the call is over; one of level ERROR or above ends the call |
| ErrorReport.Client.Request | src/pyclient/plpy_spi.c:483-520 | Requests go out in the middle of a result too; those for statements and plans are guarded by the flag that the call is over, those for quoting and subtransactions are not |
| ErrorReport.Client.Meet | src/pyclient/pycall.c:262-279 | Of any events met while no result is written, notices and requests go out until the first report, and after it only requests that are not guarded; the indicator ends as its last touch left it |
| ErrorReport.Client.SendResult | src/common/comm_channel.c:731-772 | Head, then whatever logs and requests are made on the way, then, unless a request was left unserved, a tail with the first error raised before any log |
| ErrorReport.Client.ProcessResults | src/pyclient/pycall.c:425-508 | What is sent while a value is converted and its result written |
| ErrorReport.Client.Execute | src/pyclient/pycall.c:262-279 | What a call sends from the start of user code, in order, given the indicator left by the call before; whether it is left waiting for an answer; else nothing stays pending, and the indicator it leaves itself |
| ErrorReport.Client.ServedInWait | src/pyclient/plpy_spi.c:451-477 | A call left waiting serves the next call inside its wait and, once answered, reports a second time |
| ErrorReport.Client.FailedStart | src/pyclient/client.c:48-57 | A client that cannot start Python never sends the error: only a call sets the connection |
| ErrorReport.HangsIff | src/pyclient/plpy_spi.c:701-829 | Before its result a call is left waiting if and only if a request for quoting or a subtransaction follows a report |
| ErrorReport.AnswersOnce | src/pyclient/pycall.c:262-279 | A call is answered by exactly one exception, error log or whole result, with notices and served requests before it, if and only if no unguarded request follows a report, no result follows a report, and no log or request of any kind is made while the result is written |
| ErrorReport.WholeResult | src/pyclient/pycall.c:495-505 | A result goes out whole, with the first error raised on the way as its trailer, if and only if no log of any level and no request is made on the way |
| ErrorReport.NoticeInsideResult | src/pyclient/pylogging.c:54-81 | plpy.notice called while an element is turned into text puts a log inside the result |
| ErrorReport.RequestInsideResult | src/pyclient/plpy_spi.c:483-520 | plpy.execute called there puts a request inside the result, which is never finished |
| ErrorReport.LogInsideResult | src/pyclient/pylogging.c:54-81 | plpy.error called there puts a log inside the result, which ends with the error raised before |
| ErrorReport.WithBlockHangs | src/pyclient/plpy_spi.c:771-829 | A report inside a with-block: the end of the subtransaction is requested from a backend that has left the call |
| ErrorReport.GeneratorErrorSendsTwo | src/pyclient/pycall.c:452-480 | raise_execution_error inside the generator of a set-returning function sends an exception and then a result, and leaves the SystemError that Python makes of it to the next call |
| FirstErrors.FirstErrorReported | src/pyclient/pyerror.c:93-137 | The first error of a call is reported if and only if it did not stay in the indicator or a raise followed at once, and it was not raised inside a result that is never finished |
| FirstErrors.SomeErrorReported | src/pyclient/pyerror.c:93-137 | A call with any error in it has a first one, to which that applies |
| FirstErrors.NoSecondReport | src/pyclient/pyerror.c:118-136 | A call reports at most once if and only if it does not log an error inside a result that is finished with a trailer |
| CallRuns.LeftToNext | src/pyclient/pycall.c:461-468 | An error is left to the next call exactly when the result was written, the error stayed in the indicator on the way, and nothing but logs and requests came after it |
| CallRuns.InnocentCall | src/pyclient/pycall.c:263-268 | A call in which nothing goes wrong is answered by its result exactly when no error was left to it or its body cleared the indicator; otherwise by an exception with that error |
| CallRuns.GeneratorExceptionLost | src/pyclient/pycall.c:461-468 | A Python exception inside a generator: a shortened result goes out as a success and the next call is charged with the exception |
| CallRuns.ShortListChargesNext | src/pyclient/pyconversions.c:374-384 | The IndexError of a missing item: the result goes out as a success and the next call is charged with it |
| CallRuns.Serve | src/common/comm_server.c:281-309 | A session sends what its calls send, each starting with the indicator the one before left, until a call is left waiting |
| CallRuns.AnswersMatchCalls | src/plcontainer.c:377-425 | As long as every call answers once and leaves no error, the n-th answer read is the answer to the n-th call |
| TypeTrees.FillInner | src/plc_typeio.c:99-294 | The stepwise filling of a type node gives the type tree of the catalog entry, or none on a domain, an unknown type or a record without description |
| TypeTrees.BuiltDescribes | src/plc_typeio.c:99-294 | A built tree describes its type place by place: a row has for each attribute the tree of its own type under its own name and drop mark, an array the tree of its element type, a scalar the width of its catalog type; a composite type gives its name |
| TypeTrees.RefusedIff | src/plc_typeio.c:99-294 | A type is refused exactly if it is unknown, a domain, a record that nothing describes, or has an element or live attribute that is refused |
| TypeTrees.BuiltTrees | src/plc_typeio.c:296-298 | Every built tree, from any catalog even with cyclic types, has at most four levels, no array directly under an array and no row inside a row |
| TypeTrees.CopyTypeInfo | src/plc_typeio.c:300-327 | The loops of the copy leave out dropped columns and keep the order |
| TypeTrees.DatumAsUdt | src/plc_typeio.c:490-523 | The loops of the row output leave out dropped columns and keep the order |
| TypeTrees.FieldAt | src/plc_typeio.c:490-523 | For any pattern of dropped columns the value of a live column stands at the place of its type |
| TypeTrees.ElementAt | src/plc_typeio.c:405-445 | Every element of an array is sent in its place with its dimensions, and everything but arrays and rows as it is |
| TypeTrees.SentFits | src/common/comm_channel.c:574-630 | The value sent fits the type sent at every level, so the receiver of an array never meets an array of arrays |
| TypeTrees.SentIsRead | src/common/comm_channel.c:514-630 | Type and value sent for a built type are read back from their bytes |
| TypeTrees.DatumFromUdt | src/plc_typeio.c:628-660 | A row from the client is converted column by column with the subtype numbered by the place; a dropped one has no input function, and a dropped column keeps whatever its unwritten memory holds |
| TypeTrees.ComesBackIff | src/plc_typeio.c:628-660 | Whatever unwritten memory holds: every value of a type comes back with all live columns unchanged, up to the lower bounds of arrays, if and only if, at every level, no live column follows a dropped one |
| TypeTrees.UnchangedIff | src/plc_typeio.c:637-655 | Every value comes back equal in all columns, for all contents of unwritten memory, if and only if no column was dropped at any level |
| TypeTrees.RowLost | src/plc_typeio.c:640-650 | Otherwise a row with a value in the first live column after a dropped one is lost, whatever unwritten memory holds |
| Cleaner.Clean | src/containers.c:210-268 | For all answers: it stops at the first round that confirms the container gone, never in a round that saw the executor alive unless so; giving up needs 30 failing rounds in a row, and 60 of them, or 30 in which the kill call fails too, make it stop |
| Cleaner.CountsRound | src/containers.c:92-125 | The retry counter lies between the number of failing rounds at the end and twice that number plus one |
| RuntimeMeta.ParseContainerMeta | src/containers.c:599-679 | The scanning loops compute the parse |
| RuntimeMeta.ParsesDeclarations | src/containers.c:599-679 | An id is returned exactly for sources that start with a declaration, however spaced, with a valid id of at most 63 bytes; and it is the id of every such reading |
| RuntimeMeta.PrintedParses | src/containers.c:599-679 | A printed declaration gives its id back |
| RuntimeMeta.CheckRuntimeId | src/containers.c:685-716 | Accepted exactly: a letter or digit, then letters, digits, underscore, dot and hyphen |
| PythonSource.CreatePythonFunc | src/pyclient/pycall.c:281-354 | The text and its terminator lie inside the buffer of the computed length, for all names, arguments and sources |
| PythonSource.CopyBody | src/pyclient/pycall.c:328-341 | The body is the lines of the source joined by newline and tab, whatever their line ends |
| PythonSource.BodyRecovers | src/pyclient/pycall.c:328-341 | Without the added tabs the body is the source with newline line ends |
| PythonSource.LinesAreNormalised | src/pyclient/pycall.c:328-341 | The lines are those of the source with each CRLF, CR or LF, character by character, written as one newline |
| PythonSource.ArgumentsInOrder | src/pyclient/pycall.c:321-326 | The named arguments stand in order, each after a comma |

## Left out

- Docker calls, curl, JSON and XML configuration, resource groups and logging.
- Sockets, timeouts, signals, fork and file names: the environment answers each send, receive and allocation with any number, negative for a refusal, and a receive that finds nothing under way fails like a timeout.
- Memory allocation and ownership of message parts; a failed allocation appears only where the source checks for it, in the buffer resize.
- The R client, which repeats the Python client's patterns.
- Scalar conversions between the database, the wire and Python: scalars are bytes of their length, and element conversion is the identity; numeric values lose nothing in the model.
- Byte order and floating point: both ends use the same native layout.
- ByteStream.Wire.Send: a send that reports zero bytes is taken not to happen; the flush loop would try again for ever.
- Sender and Receiver fail on a request that would overflow an int, where the source goes on with a wrapped value; this does not happen up to MAX_CHUNK bytes.
- Receiver.Receive: stops at the first failure, where the source collects error codes and may read on; a failed receive ends the conversation in both.
- Receiver.GetArray: a negative number of dimensions is read as none, and a size that overflows an int is a failure.
- Receiver.GetBlob: a negative length is a failure.
- The receive mask is a set of message tags instead of a bit field.
- Session.EveryRunIsSafe: covers error-free runs in which nothing is sent inside a result (UnharmedIff shows that this is exact); calls start only below statement or plan execution, and plan objects are dropped only while a call is active (CallWhileReplying and PlanDroppedAfterReturn show why).
- Subtransactions.OneStackDiscipline: begin and release succeed inside call trees; their failures are modelled in Handler.EnterSub and Handler.ExitSub.
- ErrorReport.Client.Execute: starts where user code starts; calls served while a request is answered are left to Session, apart from ServedInWait; what Python itself does with an error left in the indicator is any sequence of events.
- NestedArrays.AsArray: anything but lists where the first elements have lists, and lists where they have elements, are not covered, because the source then indexes strings or converts lists to text; under Python 2 an empty unicode string on the way counts as an empty list; products of dimensions are not truncated to an int.
- TypeTrees.DatumFromUdt: unwritten memory is read as some value or null; that it may hold a pointer that cannot be followed is not modelled. A value met with a type it does not fit gives no row.
- Coherence.CurrentIff: user code that rebinds function names in the main module, or keeps function objects alive, is not modelled.
- NullBitmap.Cursor.Next: alignment and length of stored elements are abstracted to the next stored element.
- RuntimeMeta.ParseContainerMeta: every error that the source reports appears as the absence of an id.
- PythonSource.CreatePythonFunc: lengths are unbounded integers; the length checks after writing cannot fail and are not repeated.
- Cleaner.Clean: signals and exceptions inside the loop, and the message about containers killed for memory, are not modelled.
- TypeTrees.ComesBackIff: lower bounds of arrays are not part of a value; they are not sent and come back as 1.
- Trigger requests, and the return of rows one by one in the function handler apart from its lookups.
