# janet-sdbus in Dafny

A model of the parts of janet-sdbus that carry its logic, with proofs of what they promise.

**The message codec** (`src/message.c`, `src/unwrap.c`). `Signatures` is the D-Bus type grammar
as a printer and a parser. `Spans` and `Boundaries` are the bracket and span computations that
walk a signature. `Messages` is the part of sd-bus the codec relies on: a stack of open
containers, each with the signature of its contents and how much of it is filled. `Writer` is the
family of append functions, with a cursor object, scratch buffers and the error context
(`ErrorContexts`). `Reader` is the family of read functions over a read cursor. `Values` holds
Janet values and the relation "value conforms to type"; `TypeTable` says without any conversion
which values each basic type takes. `RoundTrip`, `Reappend` and `Codec` put the two directions
together.

**Pending calls** (`src/async.c`, `src/call.c`, `src/slot.c`, `src/bus.c`). `PendingLinks` is the
doubly linked queue as link tables; `PendingQueue` is the same queue on the heap, each method
equal to the corresponding operation on the tables and none reading or writing an entry that was
given back; `PendingRuns` is the protocol over whole runs of starts, messages, cancellations and
close. `PendingBlocks` runs it over memory blocks that any allocator hands out and takes back;
`PendingReplay` runs it on the heap. `EventLoop` drives sd-bus until it is quiet.

**Introspection** (`introspect.janet`). `Introspect` is the grammar and the struct builders,
`Documents` the trees with their exact layout, `Summaries` what the builders say about a tree,
`SampleDocuments` two documents with text and result written out.

**Properties** (`src/export.c`, `init.janet`). `Properties` is a property under Set requests.

`dafny verify dfyconfig.toml` checks the whole project.

## Assumptions about libraries

- sd-bus refuses a contents signature that is not one complete type (array, variant; one dict
  entry for a dictionary), not a non-empty sequence of complete types (struct) or not a key and a
  type (dict entry); inside a container it takes only what the container's signature announces,
  and it closes only a filled container.
- A floating slot has two owners, the bus and the Janet wrapper; the destroy callback runs when
  both have let go, and the bus lets go of a call once it is answered.
- The allocator never hands out a block that an entry still holds; a block that was given back may
  be handed out at any time.
- Under `x` and `t` a number is accepted when it is an integer below 2^53 in magnitude and in
  range (docs/index.md:75; test/message.janet:78 wants 9007199254740993, which is 2^53 as a
  double, refused), and otherwise the boxed type of the table is needed.
- `struct` keeps the last of repeated attributes.
- A Set request carries exactly one item of the property's type. Deep equality is symmetric and
  transitive; values holding NaN differ from themselves.
- sd-bus takes well-formed UTF-8 as a string, "/" or slash-separated names as an object path, and
  complete types and dict entries as a signature (`TypeTable.Spelled`).
- What sd-bus and the kernel answer to the event loop is arbitrary and given as a script.

## Where the code differs from its comments, tests or documentation

- `find_subtype` yields the offset of the last character of the first type, not of its start
  (`Spans.FindSubtypeOfShow`).
- `span_next_type` is one short for structs, so error messages lack their closing parenthesis
  (`Spans.SpanOfShow`).
- Cancelling a completed call is meant to be a no-op (test/gc.janet:56-60). It keeps the queue and
  touches no entry that was given back exactly when the queue is empty, or the call's old neighbours
  are still adjacent and neither of them was given back (`PendingRuns.LateCancelExact`).
  `PendingRuns.LateCancelLosesCall` is a run where the old neighbours are parted,
  `PendingBlocks.LateCancelWritesReused` one where an old neighbour's block holds another call by
  then; either way a waiting call drops out of the queue. The results on runs are about runs whose
  late cancels meet this condition.
- A change signal is documented for changes of the value (init.janet:233-238); a request that cannot
  be read is signalled too (`Properties.SignalIsChange`, `Properties.SignalWithoutChange`). Such a
  request needs a property of signature "h": the reader panics on a descriptor that it cannot
  duplicate (src/message.c:446-448), the setter's wrapper catches the error and returns it
  (init.janet:206-208), and what is returned is not nil. Every other well-typed payload can be read
  (`RoundTrip.TypedIsReadable`).
- An interface called "path" is taken for a child node (`Summaries.NodeGroups`,
  `SampleDocuments.PathInterfaceLost`).
- Arrays are documented to accept arrays and tuples (docs/index.md:49-67); under `ay` the code takes
  text only (src/message.c:216-223), and refuses what reading such an array gives
  (`Reappend.BytesNotStable`).
- Tables are documented to be written as dictionaries; keys that Janet tells apart can be one on the
  wire, so that an entry is lost (`RoundTrip.KeysCollide`).

## Model

| member | source | states |
|---|---|---|
| Signatures.AllExact | src/message.c:126-142 | a signature splits into complete types in at most one way, and the strings that split are exactly the printed type sequences |
| Signatures.SingleExact | src/message.c:144-160 | a string is one complete type exactly when it is the print of that type |
| Signatures.Sample | src/message.c:126-160 | a signature with every kind of type, read |
| Spans.Match | src/message.c:66-83 | the loop returns the offset where the count of one bracket kind first drops to zero, or panics at the terminator, and never reads past it |
| Spans.MatchStruct | src/message.c:66-83 | from the opener of any struct the match is that struct's own closer, whatever follows |
| Spans.MatchEntry | src/message.c:66-83 | the same for dict entries |
| Spans.ScanType | src/message.c:66-83 | every complete type is balanced in either bracket kind and never closes more than it opened, although only one kind is counted |
| Spans.FindSubtypeOfShow | src/message.c:85-101 | on any type, find_subtype is the type's length minus one |
| Spans.SpanOfShow | src/message.c:103-117 | span_next_type is the length of the next type, one short for structs |
| Boundaries.StructBoundary | src/message.c:247-256 | where a struct type starts, the matched span minus parentheses is exactly its field signature |
| Boundaries.StructFromContents | src/message.c:247-259 | on any text, valid contents between the matched parentheses mean that exactly that struct starts here |
| Boundaries.EntryFromContents | src/message.c:162-177 | on any text, the cut-out entry is valid exactly when a dict entry starts at the brace, and is then that entry |
| Boundaries.ArrayFromContents | src/message.c:225-232 | on any text, the cut-out element signature is valid exactly when an array type starts here, and is then its element type |
| ErrorContexts.Format | src/unwrap.c:47-64 | the 16-byte buffer ends up holding the span when it has at most 12 characters, else its first 12 and an ellipsis |
| ErrorContexts.ErrorContext.Reset | src/unwrap.c:28-30 | nothing of earlier appends survives |
| ErrorContexts.ErrorContext.Inc | src/unwrap.c:32-34 | the argument number grows by one, all else stays |
| ErrorContexts.ErrorContext.Set | src/unwrap.c:36-40 | the first level records the outer span, deeper levels the inner one, and the other is kept |
| ErrorContexts.ErrorContext.Exit | src/unwrap.c:42-45 | the depth drops by one and never below zero |
| ErrorContexts.ErrorContext.Raise | src/unwrap.c:66-84 | a type error carries the argument number, the outer span, and the inner span only when nested |
| Writer.LabelOfText | src/unwrap.c:66-84 | the span recorded for a type renders as that type's own name, whatever text follows it |
| Writer.RaiseHere | src/unwrap.c:66-84 | a failed first check on the current type reports the current argument, its outer type and this type |
| Writer.Scratch | src/message.c:225-227 | the copy fits its allocation with room for the terminator and holds exactly the span |
| Writer.EntryScratch | src/message.c:167-181 | one buffer holds the braced and then the bare entry signature, all accesses in bounds |
| TypeTable.TakesExact | src/unwrap.c:86-180 | for every code and value, the conversion succeeds exactly when the type table takes the value: numbers that the cast to the C type keeps (exact doubles only for 64 bits), boxed integers, booleans, doubles, and strings of the right spelling; and what goes on the wire is that value |
| TypeTable.ConformsExact | docs/index.md:49-67 | a value conforms to a type exactly when the "Accepts" column takes it, at every depth: variants as tuples of a printed type and a value of it, structs of fitting length, byte arrays from text only |
| TypeTable.Edges | src/unwrap.c:112-180 | the largest and smallest number of every integer type, and that the next ones are refused |
| TypeTable.Codes | src/message.c:44-46 | the thirteen codes |
| TypeTable.SpelledExact | src/message.c:324-331 | strings are encodings of code points, object paths are slash-separated names, signatures are printed types and entries, and nothing else |
| Writer.FirstCheck | src/unwrap.c:86-180 | which values fail the first check of each code, and what the error calls the expected argument |
| Writer.AppendBasicType | src/message.c:299-338 | a basic value is appended exactly when the type table takes it and the container admits it; it is a type error, with that code's text, exactly when its first check fails |
| Writer.AppendLeaf | src/message.c:144-160 | a basic value as a complete type of its own: same acceptance, cursor stays on the code |
| Writer.AppendVariantType | src/message.c:281-297 | accepted exactly for a tuple of a single-type signature string and a value conforming to that type; emits one variant item |
| Writer.AppendStructType | src/message.c:247-279 | accepted exactly when a struct type starts here and the value is indexed with one conforming element per field; emits one struct item and leaves the cursor on the closing parenthesis |
| Writer.AppendFields | src/message.c:265-275 | the element loop succeeds exactly when lengths agree and every element conforms to its own field |
| Writer.AppendArrayType | src/message.c:208-245 | accepted exactly when an array type starts here and every element conforms; cursor on the last character of the type |
| Writer.AppendByteArray | src/message.c:216-223 | bytes are accepted exactly from text values and become one byte array |
| Writer.AppendElements | src/message.c:234-241 | the element loop succeeds exactly when every element conforms, the cursor being reset each time |
| Writer.AppendDictType | src/message.c:162-206 | accepted exactly when a dictionary type starts here and every key and value conform |
| Writer.AppendSlots | src/message.c:183-202 | entries are emitted in slot order, one per slot, exactly when all conform |
| Writer.AppendSlot | src/message.c:188-201 | open, key, value, close add up to one entry; only key or value can make it fail |
| Writer.AppendCompleteType | src/message.c:144-160 | on any text succeeds exactly when a complete type starts here, the value conforms and the container admits it; then the cursor is on the type's last character, exactly one item was emitted and the error depth is restored; a value of the wrong kind is a type error, and a type error names argument, outer type, failing type and what that type wants |
| Writer.AppendData | src/message.c:126-142 | an argument list is accepted exactly when type after type fits argument after argument with none left; a type error carries the number and type of the first argument at fault |
| Writer.AcceptanceExact | src/message.c:126-160 | outside containers, acceptance means the signature splits into exactly as many complete types as arguments and each conforms |
| Codec.AppendedBody | src/message.c:126-297 | an accepted append leaves no container open, extends the recorded signature by exactly the given one and the body by one item per argument |
| Codec.BodyRoundTrip | docs/index.md:49-67 | every item written has its declared type, and a whole body decodes to the normal forms exactly when dictionary keys stay apart |
| Codec.MessageAppend | src/message.c:643-653 | acceptance of a whole call, with the missing argument and the embedded NUL refused |
| Codec.FromMessage | test/message.janet:16-21 | append, seal and read all: nil for an empty signature whatever the arguments; otherwise succeeds exactly on conforming arguments; one argument comes back as its normal form and several as the array of theirs exactly when dictionary keys stay apart |
| Reader.ReadCompleteType | src/message.c:347-368 | reads the decoded next item and leaves every container it entered; at the end it reads nothing and moves nothing |
| Reader.ReadBasicType | src/message.c:480-511 | a basic item becomes the Janet value of the type table |
| Reader.ReadVariantType | src/message.c:370-382 | a variant becomes its signature and value |
| Reader.ReadStructType | src/message.c:384-398 | a struct becomes a tuple of all its items |
| Reader.ReadItems | src/message.c:391-392 | the loop reads every item of the container once, in order |
| Reader.ReadArrayType | src/message.c:426-438 | an array becomes an array of all its items |
| Reader.ReadDictType | src/message.c:400-424 | a dictionary becomes the table its entries build when put in order |
| Reader.ReadEntry | src/message.c:409-419 | one entry is entered, read as key and value, and left |
| Reader.MessageRead | src/message.c:664-694 | from any cursor position, in or out of containers: which items a read of all, the rest or up to n yields, where the cursor ends and which arguments panic; no item is nil, one is itself, more are an array |
| Reader.ReadInChunks | src/message.c:664-694 | chunks of any sizes and then the rest add up to everything from the cursor to the end |
| RoundTrip.BasicRoundTrip | src/unwrap.c:86-180 | a converted basic value reads back as itself, boxed under x and t |
| RoundTrip.WireIsTyped | src/message.c:162-338 | what is written for a conforming value has the type, at every depth |
| RoundTrip.TypedIsReadable | src/message.c:347-438 | every well-typed item can be read without hitting an error path |
| RoundTrip.TypedIsReturned | docs/index.md:49-67 | every well-typed item is read as what the "Returns" column says, at every depth |
| RoundTrip.TableKeeps | src/message.c:408-420 | putting entries with distinct keys keeps them all in order |
| RoundTrip.TableShrinks | src/message.c:408-420 | with repeated keys some entry is lost |
| RoundTrip.RoundTripExact | docs/index.md:49-67 | decoding what was written gives the normal form exactly when no dictionary met on the way has two keys that are one on the wire |
| RoundTrip.KeysCollide | src/message.c:408-420 | a table under a{xi} whose two keys, 1 and the boxed 1, come back as one entry, the later |
| Reappend.BytesNotStable | src/message.c:216-223 | what is read of the byte array "a" is refused under ay |
| Reappend.NormalStable | docs/index.md:49-67 | the normal form conforms again exactly when no byte array was appended, and is then the same on the wire |
| Reappend.SameValueSameWire | src/message.c:187-202 | values equal up to slot order are accepted alike and written alike up to entry order |
| Reappend.ReappendStable | src/message.c:208-223 | appending what was read, in any slot order, succeeds exactly when no byte array was appended the first time, and then builds the same message up to entry order |
| Reappend.ReappendAll | src/message.c:126-142 | the same for a whole argument list |
| PendingLinks.PushPrepends | src/async.c:77-85 | queuing is sequence prepend and keeps links inverse, acyclic and null-ended |
| PendingLinks.UnlinkRemoves | src/async.c:87-98 | dequeuing a member removes exactly that member and keeps the list sound |
| PendingLinks.SecondUnlink | src/async.c:87-98 | dequeuing a node that is no longer queued leaves the queue as it is and writes to no freed node exactly when it is empty, or the node's old neighbours are still adjacent and neither is freed |
| PendingLinks.UnlinkTwice | src/async.c:87-98 | straight after the first unlink the second changes nothing and writes to queued nodes only |
| PendingLinks.LateUnlinkDrops | src/async.c:77-98 | once a newer entry was queued, unlinking the old head again drops the newer entry |
| PendingLinks.ChainUnique | src/async.c:77-98 | the links determine the queue |
| PendingQueue.Conn.QueuePending | src/async.c:77-85 | the heap update is exactly the link-table push, no other node touched; nothing freed is written to |
| PendingQueue.Conn.DequeuePending | src/async.c:87-98 | the heap update is exactly the link-table unlink, for members and non-members alike; nothing freed is written to |
| PendingQueue.Conn.Destroy | src/call.c:36-42 | the destroy callback unlinks the entry and gives its memory back |
| PendingQueue.Conn.Release | src/async.c:112-113 | a wrapper lets go; the entry is destroyed exactly when the wrapper was its last owner |
| PendingQueue.Conn.BusLetsGo | src/call.c:36-42 | the bus lets go; the entry is destroyed exactly when the bus was its last owner |
| PendingQueue.Conn.Start | src/call.c:141-167 | a refused request leaves no trace; any other is queued in front with both owners |
| PendingQueue.Conn.MessageHandler | src/call.c:75-129 | per message type: a return or an error unlinks a call; returns, calls and signals are passed on once with :ok, errors once with :error, other messages not at all |
| PendingQueue.Conn.CancelSlot | src/slot.c:33-46 | the first cancel makes both owners let go, unlinks the entry and gives it back; later ones do nothing |
| PendingQueue.Conn.CloseAll | src/async.c:100-119 | as long as the bus owns every queued slot: every queued entry's channel gets the same tuple once, in queue order, although wrappers let go during the walk; none is freed and the queue ends empty |
| PendingQueue.Conn.CloseSlots | src/bus.c:160-161 | with an empty queue the bus lets go of all its slots; exactly those without a wrapper are freed |
| PendingQueue.Conn.CloseBus | src/bus.c:145-164 | the first close tells every queued entry, empties the queue and ends the bus's ownership; a second one tells nobody |
| PendingRuns.StepKeeps | src/call.c:75-167 | every step keeps the protocol invariant |
| PendingRuns.TouchesAllocated | src/async.c:77-119 | no step of such a run reads or writes an entry that was given back |
| PendingRuns.QueueHoldsPending | src/call.c:75-167 | in every run the queue is a sound list of exactly the entries no step has ended: unanswered, uncancelled calls and live matches |
| PendingRuns.HeardAtMostOnce | src/call.c:75-129 | in every run a call's channel hears of it once if its wait was ended by an answer, an error or close, and otherwise never |
| PendingRuns.CallHears | src/call.c:75-129 | in every run a call has heard nothing while it waits, and then exactly :ok for a return, :error for an error, :close for a close, nothing for a cancellation |
| PendingRuns.HeardIsHistory | src/call.c:75-129 | in every run a channel has heard one tuple for every message delivered while its entry waits, with the status of that message, and :close if it waits at the close |
| PendingRuns.CloseIsExact | src/async.c:163-170 | close tells every waiting entry exactly once and nobody else |
| PendingRuns.LateCancelExact | src/slot.c:33-46 | cancelling a completed call leaves the queue as it is and touches no freed entry exactly when nothing is queued, or its old neighbours are still adjacent and neither is freed |
| PendingRuns.AnswerThenCancel | test/gc.janet:56-60 | in every run, cancelling straight after the answer is a no-op on the queue |
| PendingRuns.LateCancelLosesCall | src/call.c:36-42 | a run in which a late cancel drops another waiting call, which close then never tells |
| PendingBlocks.MemoryHoldsPending | src/async.c:65-98 | whatever blocks the allocator reuses, the list in memory is sound and holds exactly the blocks of the entries no step has ended, newest first, and following it meets these |
| PendingBlocks.MemoryAllows | src/call.c:6-42 | a run goes through in memory exactly when it is a run of the protocol and only free blocks are handed out |
| PendingBlocks.LateCancelWritesReused | src/call.c:36-42 | a run in which a late cancel writes through the reused block of a destroyed old neighbour and a waiting call drops out of the list |
| PendingReplay.Replay | src/call.c:75-167 | every run, done step by step by the heap methods, ends with the heap an image of the protocol's state: queue, owners, freed entries and news |
| EventLoop.Conn.ProcessBus | src/async.c:12-22 | it returns exactly when after any number of rounds with a zero timeout a round with another one goes through, and panics exactly when an answer on the way is an error; on return the timer stands for the timeout and the poll flags for the events answered in that last round |
| EventLoop.Conn.SetEvents | src/async.c:24-43 | the answered mask decides outcome and poll flags, other flags stay |
| EventLoop.Conn.SetTimeout | src/async.c:45-63 | the timer stands for exactly the answered time, disarmed only for "no timeout"; a zero starts another round |
| EventLoop.RunExact | src/async.c:12-63 | going round by round through the answers is what the whole script says |
| Documents.EmptyOrOpen | introspect.janet:80-87 | no text is both an empty tag and an opening tag |
| Documents.Complete | introspect.janet:89-96 | every printed element parses, with any allowed white space and whatever follows, to the fold of its tree |
| Documents.Sound | introspect.janet:89-96 | whatever parses as an element is the print of a tree, and the result is the fold of that tree |
| Documents.ParseComplete | introspect.janet:98-122 | every well-formed document is consumed whole and yields the fold of its tree, or the builder's error |
| Documents.RaiseExact | introspect.janet:7-52 | the builders raise exactly when some element of the tree lacks an attribute it needs |
| Documents.ParseRaises | introspect.janet:113-122 | on a well-formed document parse-xml raises exactly then, and otherwise has a result |
| Documents.KeysExact | introspect.janet:102-111 | which elements may carry each attribute |
| Documents.ChildrenExact | introspect.janet:98-111 | which elements each element may stand in |
| Documents.SpacesExact | introspect.janet:80-87 | the seven characters that are white space |
| Documents.ParseSound | introspect.janet:98-122 | an input with a result is a well-formed document |
| Summaries.ArgSummary | introspect.janet:13-19 | an argument is built of its own name, type and direction, the last of each, empty if missing but for the type |
| Summaries.AnnotationSummary | introspect.janet:7-11 | an annotation is built of its own name and value |
| Summaries.MethodSummary | introspect.janet:21-28 | a method lists exactly its arguments of each explicit direction and its annotations, in document order |
| Summaries.SignalSummary | introspect.janet:30-36 | a signal lists exactly its arguments and annotations, in document order |
| Summaries.PropertySummary | introspect.janet:38-45 | a property gives its type, access and all annotations in document order |
| Summaries.AnyValueDecides | introspect.janet:50 | all values of a built child agree on whether it is a member, so looking at the first one is as good as any |
| Summaries.InterfaceSummary | introspect.janet:47-54 | the members are exactly the methods, signals and properties, each under its name, of several with one name the last |
| Summaries.NodeGroups | introspect.janet:56-61 | children are told apart by tag exactly unless an interface is called "path" |
| SampleDocuments.DocumentResult | introspect.janet:78-122 | the whole result for a document with every element, every attribute and white space between |
| SampleDocuments.PathInterfaceLost | introspect.janet:56-61 | `<node><interface name="path"/></node>` has no interface and one child |
| Summaries.NodeSummary | introspect.janet:56-61 | the interfaces are exactly the interface children not called "path", each under its name, of several the last; child nodes keep document order |
| Summaries.MemberFound | introspect.janet:113-122 | parse-xml of a printed document has an entry for every member of every interface of every node at any depth, holding what was built of it, unless a later sibling replaces it or the interface is called "path" |
| Properties.Property.constructor | src/export.c:233-241 | only properties flagged w have a setter, and it signals exactly for those also flagged e or i |
| Properties.Served | init.janet:240-260 | a property from its flags through a history of requests: what it ends up holding and how often it signals |
| Properties.Property.Store | init.janet:206-216 | what is stored and what is returned, including the caught error |
| Properties.Property.HandlerCore | src/export.c:130-165 | the result is zero exactly when the setter returned something |
| Properties.Property.Set | src/export.c:179-202 | signals only from the signalling setter, one per stored or failed request |
| Properties.Property.SetAll | src/export.c:179-202 | a whole history, tied to the stored-value and signal functions |
| Properties.ReadNeverNil | init.janet:213-216 | a payload is never read as nil, so a stored value is never taken for none |
| Properties.History | init.janet:213-216 | over any history the value is the last one asked for, and signals count the requests that differ from the last one read and those that cannot be read |
| Properties.SignalIsChange | init.janet:206-216 | a request is signalled if and only if the value afterwards differs from the value before, exactly unless its payload cannot be read |
| Properties.SignalWithoutChange | src/message.c:446-448 | an unreadable request is signalled and changes nothing |

## Left out

- sd-bus internals, byte-level marshalling and its limits on signature length, nesting and message size: not in the repository.
- File descriptors: `Value` has no files or streams, so type `h` refuses every value, as the code does for any other value.
- Cyclic Janet arrays and tables, on which the writer would not end.
- Type errors on dictionary keys: they are reported against whatever type was recorded last, so only the argument number, its outer type and the slot are claimed.
- The x/t conversion itself and its error text: a library call, taken as documented.
- Janet's garbage collector: wrappers and channels outlive the entries.
- PendingRuns.StepKeeps: does not cover late cancels that part the queue or touch a freed entry, because then the queue is lost (`PendingRuns.LateCancelLosesCall`, `PendingBlocks.LateCancelWritesReused`).
- Activity after a HUP or ERR event, and matches whose installation failed.
- Property definitions with invalid flags, which raise.
- Messages copied for matches (src/call.c:61-73) and the texts of error replies.
- Bus opening, name requests, header getters, dump, proxies, match rules, the vtable layout and export of methods: plumbing or easy members.
