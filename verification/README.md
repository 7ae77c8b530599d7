# Verification of dbusqml's protocols and algorithms

dbusqml binds D-Bus to QML. This Dafny project models the parts of it that are algorithms or
protocols of their own and proves what they promise for all inputs and over all runs. QtDBus,
libdbus and the bus daemon appear as a small explicit environment.

`dafny verify dfyconfig.toml` checks everything.

## How it is organised

**Signatures and marshalling.** `Signature` has the type grammar as trees and the recursive
validator against it; `Splitter` the bracket-counting splitter that has to agree with it;
`ObjectPath` the path check. `Pool` is the assign-once pool of 64 metatype slots. `Values`,
`Wire` and `Staging` describe values, the stream of begin, end and basic events, and what the
writer's probe stages; `Writer` is the probe-then-commit writer. `Decode` says what the reader
yields and what it does to descriptors, and `Reader` is the reader itself. The next modules say the
same without the two machines: `Spelling` which values a type accepts and how they are written,
`Carrying` what a delivered value owes to what arrived, `DecodeLimits` and `MessageLimits` when
the reader accepts. `RoundTrip` and `Unchanged` put writer and reader together. `Sequences` holds
facts about concatenation and the lists of holders and adaptors, `Options` the option type.

**Claims of well-known names.** `Claims` is the record of one claim, what each event does to it,
and the registry whose methods do exactly that. `ClaimProtocol` is one name over whole runs: the
record, our queue of outgoing messages, the daemon's queue for the name, and the stream of replies
and signals back to us. The daemon follows the D-Bus Specification, section "Message Bus
Messages" (RequestName, ReleaseName, NameOwnerChanged); other clients act as they please.
`ClaimInvariant` and `ClaimNotes` prove what every step keeps, `ClaimSafety` what follows for
every run, with a concrete run for each claim that stops short. `ClaimEvents` says event by event
what becomes of a record, `ClaimLoss` what a loss rules out for the rest of the run, `ClaimDue`
what a delivery does to an adaptor that attached again before it came, and `ClaimProgress` that
quiet states are always reached. `Mailbox` is the coalescing mailbox between threads.

**Answering calls.** `HeldReply` has deferred replies and the adaptor's stack of dispatch contexts
as classes and as values; `DispatchProtocol` the runs of nested dispatches; `DispatchSafety` the
exactly-one-reply theorems, `DispatchAnswers` which answer it is. `Routing` picks the adaptor at
one path, `PathRegistry` the dispatcher.

**The proxy.** `ProxySets` and `ProxySetProtocol` are the latest-wins chain of Sets with its
re-fetch, `ProxyGets` and `ProxyGetProtocol` the coalesced Gets.

**Names and prologs.** `Naming` is the ladder between QML and wire names, `Prolog` the scan for an
internal DTD subset.

Code that updates state in place is a class whose methods are proved equal to functions on values;
the theorems are about those functions. Runs are sequences of steps; a handler is any sequence of
steps it is allowed to take.

## What the environment is assumed to do

- Attach and detach of one name are serialized and run on the thread that runs the relay; blocking
  calls block it. Signals and replies of one connection arrive in the daemon's order, the loss of
  the connection last and not during a blocking call or a delivery.
- An adaptor detaches before it is destroyed, and holds a name at most once at a time.
- A held handle lives at least as long as the dispatch that created it.
- Handlers of propertyWriteFailed and of a pending reply's finished run no nested event loop: Set
  completions arrive one at a time, and no reply is read while another is being handed round
  (`ProxyGetProtocol`'s `Complete` waits until nothing is due).
- QtDBus refuses a SubPath registration above anything registered with it.
- Qt's value coercions and its inference of a variant's payload type are opaque functions. The
  theorems that need the inference say so: `InfersTyped`, a payload is written with the type it is
  inferred to have. `Unchanged` takes from the coercions that they leave native payloads alone
  (`KeepsNative`).
- Unicode case mapping is opaque up to `Naming.Lawful`.

## Where code and expectation part

- The splitter accepts texts the validator refuses (`Splitter.SplitterAcceptsMore`). The two agree
  exactly if the pieces cover the text and each piece is valid (`Splitter.ValidExactlyByPieces`),
  so validating the pieces again is what makes the splitter safe.
- A last detach leaves the name behind at the daemon exactly if the record neither owned nor had
  requested it and the last ownership event under way makes it ours
  (`ClaimSafety.DetachLeavesNothingExactly`); late signals of an older claim bring an unflagged
  claim there (`ClaimSafety.UnflaggedNameCanLeak`).
- The loss of the connection withdraws the pending release of an owned claim only: one that was
  requested and is still queued makes a blocking release on the dead connection at its last detach
  (`ClaimLoss.LossWithdrawsRelease`).
- An adaptor attached again from a handler while a delivery to it is due gets out of step exactly
  if it is told directly or the delivery is not what the record last delivered
  (`ClaimDue.DueDeliveryFits`, `ClaimDue.ToldDirectlyHearsTwice`, `ClaimSafety.RejoinHearsTwice`).
- An adaptor hears "lost" first exactly if it attached untold with a loss to be delivered before
  anything else (`ClaimSafety.FirstWord`, `ClaimSafety.GapJoinerHearsLossFirst`); if the name comes
  back before that, it hears nothing at all (`ClaimSafety.GapJoinerHearsNothing`).
- A middle link that fails before a successful last link is not re-fetched, and of several
  re-fetches in flight only the newest lands (`ProxySetProtocol.MiddleFailureIsForgotten`,
  `ProxySetProtocol.OnlyTheNewestRefetchLands`).
- The naming ladder does not lead back for first letters that do not survive being raised and
  lowered (`Naming.DotlessIDiverges`).
- The branch of `DBusHeldReply::send` for a vanished adaptor (dbusheldreply.cpp:30-42) is never
  reached: `DispatchSafety.DeadAdaptorOwesNothing`.

## Model

| member | source | states |
|---|---|---|
| Signature.ValidateSignature | dbusconnection.cpp:531-545 | accepts a text if and only if it is the printing of one type tree (or, for a message, of a list of trees) with basic dict keys and non-empty structs, at most 32 arrays deep, at most 32 structs and dict entries deep, and at most 255 UTF-8 bytes long |
| Signature.ValidateTypeAt | dbusconnection.cpp:490-529 | succeeds exactly when some tree that fits the depths already open is printed at the cursor, and then moves the cursor behind that tree and nothing else |
| Signature.ValidateDictEntry | dbusconnection.cpp:497-511 | the dict-entry branch accepts exactly a basic key and one fitting value between braces |
| Signature.ValidateStruct | dbusconnection.cpp:514-526 | the struct branch accepts exactly a non-empty list of fitting members between parentheses |
| Signature.UniquePrint | dbusconnection.cpp:490-529 | the grammar is prefix-free: at most one complete type starts at a position, so a parse is never ambiguous |
| Signature.UniqueAll | dbusconnection.cpp:531-545 | a text is the printing of at most one list of types |
| Splitter.FirstCompleteType | dbusconnection.cpp:393-454 | bracket counting finds the length `CompleteLength` gives and moves the cursor by it; a failure returns the empty text |
| Splitter.SkipBrackets | dbusconnection.cpp:420-434 | the bracket loop stops behind the bracket that balances the first one, or at the end of the text with the depth still open |
| Splitter.FindsPrintedType | dbusconnection.cpp:393-454 | on a printed type the counting splitter finds exactly that type, although it never parses inside brackets |
| Splitter.FindsTheChunk | dbusconnection.cpp:393-454 | on every text, valid or not, the splitter finds the one chunk the text starts with, or nothing if it starts with none: at most 32 array letters, then a basic code, a variant or a group up to its balancing bracket |
| Splitter.SplitSignature | dbus.cpp:397-402 | the split loop ends on every text and returns the pieces |
| Splitter.SplitterAgreesWithValidator | dbusadaptor.cpp:1411-1424 | on every valid message signature the pieces are valid single signatures and together they are the input |
| Splitter.SplitIsUnique | dbusconnection.cpp:393-454 | there is no other way to cut a text into valid single signatures |
| Splitter.PiecesMakeProgress | dbus.cpp:397-402 | on every text, valid or not, pieces are non-empty and cover the input from its start in order |
| Splitter.ValidExactlyByPieces | dbusadaptor.cpp:1411-1424 | the validator accepts a message signature if and only if it is short enough, the pieces the split loop collects cover it, and each of them is a valid single signature |
| Splitter.SplitterAcceptsMore | dbusconnection.cpp:416-433 | covering the input is not enough: a text the splitter accepts and the validator refuses |
| ObjectPath.ValidObjectPath | dbusconnection.cpp:34-47 | the four character checks accept exactly the slash-separated sequences of non-empty elements of letters, digits and underscores, and the root path |
| Pool.SlotPool.SlotForSignature | dbusconnection.cpp:547-582 | refuses exactly invalid signatures and, for a new one, a full pool; a slot once assigned is never changed, and a new signature takes the next free slot |
| Pool.SlotPool.MetaTypeForSignature | dbusconnection.cpp:584-599 | built-in types first, then the pool; a signature that has a metatype keeps it, and only an exhausted pool leaves a valid one without |
| Pool.MetaTypeIsFaithful | dbusconnection.cpp:547-599 | two signatures never share a metatype, and a metatype stands for its signature now and after any growth of the pool |
| Pool.BuiltinsNeedNoSlot | dbusconnection.cpp:584-599 | what Qt knows, `a{sv}`, `a{sa{sv}}`, `aa{sv}` and `h` have a metatype of their own however full the pool is |
| Writer.SignatureWriter.ProduceBasic | dbusconnection.cpp:643-694 | produces what the specification says, which is exactly what `Spelling.ProducesExactly` allows, or refuses, paths, signatures and closed descriptors included |
| Writer.SignatureWriter.Probe | dbusconnection.cpp:696-786 | a probe leaves the wire untouched, only adds pool slots and finds exactly the staged form, refusing a stageable value only for want of a slot |
| Writer.SignatureWriter.ProbeMembers | dbusconnection.cpp:731-751 | the member loop stages one value per declared member or refuses the struct |
| Writer.SignatureWriter.ProbeItems | dbusconnection.cpp:772-786 | the element loop stages every element or refuses the array |
| Writer.SignatureWriter.ProbeEntries | dbusconnection.cpp:752-771 | the entry loop stages every key and value or refuses the map |
| Staging.StageIsShaped | dbusconnection.cpp:696-786 | whatever the probe stages has the shape the commit relies on: one staged value per declared member at every level |
| Spelling.AcceptsExactly | dbusconnection.cpp:696-786 | the probe accepts a value if and only if it can be spelled at its declared type and nests at most 32 deep where it is written; there is one spelling, and it is what is streamed. `Spells` and `Nesting` do not mention the probe |
| Spelling.WritesExactly | dbusconnection.cpp:696-892 | the same at every level and depth: probe and commit together write exactly the spelling |
| Spelling.ProducesExactly | dbusconnection.cpp:643-694 | a basic position sends exactly what `Puts` allows: a number in the range of its code, congruent to what Qt converts to, a well-formed path or signature, or an explicit open descriptor, and nothing that holds a refused conversion |
| Spelling.OnlyOpenDescriptors | dbusconnection.cpp:612-635 | an `h` position accepts exactly explicit descriptors that are open |
| Spelling.SpelledOpen | dbusconnection.cpp:612-635 | every descriptor that is written outside a variant is open |
| Spelling.FailureIsFound | dbusconnection.cpp:643-649 | a refused conversion is found exactly if it is the value itself or sits in one of its parts, at any depth |
| Writer.SignatureWriter.AppendStaged | dbusconnection.cpp:788-892 | cannot fail: appends exactly the events of the staged value, never indexes past a staged list, and asks only for metatypes already minted and unchanged since the probe |
| Writer.SignatureWriter.AppendMembers | dbusconnection.cpp:853-866 | the struct branch stays inside the staged list because the probe staged one value per member |
| Writer.SignatureWriter.AppendItems | dbusconnection.cpp:885-892 | the array branch emits each element once, in order, between one begin and one end |
| Writer.SignatureWriter.AppendEntries | dbusconnection.cpp:867-884 | the map branch emits one bracketed entry per staged pair |
| Writer.SignatureWriter.WriteValue | dbusconnection.cpp:900-1017 | validate, then commit: the argument gets the whole value or nothing at all |
| Writer.SignatureWriter.WriteContainer | dbusconnection.cpp:945-1014 | the top-level map and array branches stage all their children before they open anything |
| Writer.SignatureWriter.WriteBySignature | dbusconnection.cpp:1187-1203 | yields a body exactly when the signature is valid and every position accepts its value (or the pool is full), which is spelled out in `Spelling.AcceptsExactly`; the body parses as one complete value of exactly the declared signature |
| Staging.TreeIsTyped | dbusconnection.cpp:788-892 | what is written has the declared type at every level |
| Wire.ParseFlatten | dbusconnection.cpp:788-892 | the event stream of a value is balanced and self-delimiting: parsing it, whatever follows, gives the value back and consumes exactly its events |
| Reader.DecodeState.EnterContainer | dbusutils.cpp:262-275 | a container is entered exactly while its kind is at most 32 deep and all kinds together at most 64; a variant resets the kinds and never the total |
| Reader.DecodeState.ReceiveFd | dbusutils.cpp:277-322 | charges one descriptor against the budget, duplicates it and records it, or fails the decode; descriptors in hand and budget left always add up to the limit |
| Reader.DecodeState.RollbackFds | dbusutils.h:94-98 | closes every received descriptor and forgets them |
| Reader.FdDecodeBudget | dbustypes.cpp:98-105 | a quarter of the descriptor limit rounded down, 64 below a limit of 256, 1024 from 4096 on and without a usable limit |
| Reader.FdTable.Adopt | dbustypes.cpp:165-172 | a valid descriptor gets a new owner and is counted once; an invalid one counts nothing |
| Reader.FdTable.Close | dbustypes.cpp:190-193 | closing is idempotent, and the process-wide count is always the number of open descriptors |
| Reader.ReadBySignature | dbusutils.cpp:324-607 | consumes exactly the value at the cursor while nothing has failed, and yields and records what the decoding specification says |
| Reader.ReadVariant | dbusutils.cpp:394-411 | the variant branch, with the payloads Qt demarshals by itself |
| Reader.ReadArray | dbusutils.cpp:412-583 | byte arrays, string lists and scalars in bulk, everything else element by element, with the same result |
| Reader.ReadStruct | dbusutils.cpp:585-599 | the struct branch yields the members in order, as the specification does |
| Reader.ReadMap | dbusutils.cpp:527-558 | later entries replace earlier ones under the same string key |
| Reader.UnwrapDbus | dbusutils.cpp:609-670 | unwraps message arguments of every carrier kind under the same limits, as the specification of `Carrying.UnwrapCarries` and `MessageLimits.UnwrapAccepts` does |
| Reader.DecodeMessage | dbusutils.cpp:672-701 | delivers all arguments or none, those of `Carrying.DeliveredAsArrived`, exactly when `MessageLimits.MessageAccepts` says; after a failure the open descriptors and their count are what they were |
| Decode.DecodeIsAtomic | dbusutils.cpp:672-701 | for every message: a failure leaves the set of open descriptors unchanged, a success adds exactly the delivered valid ones, all new, at most the budget, and received plus remaining equals the limit |
| Decode.ReadAccounts | dbusutils.cpp:324-607 | every read keeps received plus remaining equal to the limit and delivers only descriptors it has recorded |
| Decode.UnwrapAccounts | dbusutils.cpp:609-670 | every unwrap keeps the same books |
| DecodeLimits.ReadAccepts | dbusutils.cpp:262-607 | the reader accepts a body if and only if it nests within the limits, carries no more descriptors than the budget and all of them can be duplicated |
| DecodeLimits.ValidatedNeverTooDeep | dbusutils.cpp:262-275 | a variant-free value of a signature the validator accepts is never refused for its nesting |
| DecodeLimits.AcceptedNestsWithinLimit | dbusutils.cpp:262-275 | whatever is accepted, variants included, nests at most 64 deep |
| MessageLimits.UnwrapAccepts | dbusutils.cpp:609-670 | whatever Qt hands over is accepted if and only if it nests within the limits, the budget covers its descriptors, and they can be duplicated |
| MessageLimits.MessageAccepts | dbusutils.cpp:672-701 | a message is decoded if and only if its arguments nest in at most 32 arrays, 32 structs and 64 containers in all, each of them is there, and its descriptors are within the budget and can be duplicated |
| Carrying.ReadBears | dbusutils.cpp:324-607 | what is read is what was on the wire, in terms of the wire alone: scalars as themselves, paths and signatures as strings, arrays and structs element by element, a dict by its last entry under each key, a variant as its payload |
| Carrying.UnwrapCarries | dbusutils.cpp:609-670 | what is unwrapped is what its carrier carries, for every kind of carrier |
| Carrying.DeliveredAsArrived | dbusutils.cpp:672-701 | every argument a decoded message delivers is the one that arrived, in order |
| RoundTrip.WrittenValueComesBack | dbusutils.cpp:324-607 | for every valid signature, variants included, and every value the probe accepts: the emitted events are one value of that signature and spell the value; the reader accepts them exactly if they nest within its limits and their descriptors can be taken, and yields what was spelled. Without variants the nesting never stands in the way, and the result is the canonical value: structs as lists, maps by string key with the later entry winning |
| RoundTrip.ReadsCanon | dbusutils.cpp:324-607 | reading what was staged yields the canonical form at every level and from every reader state |
| Unchanged.NativeComesBack | dbusutils.cpp:324-607 | a value that is natively of its declared type and nests at most 32 deep is accepted, and whenever the reader accepts it, it comes back unchanged |
| Unchanged.TextKeysSurvive | dbusutils.cpp:527-558 | every string key, and every path or signature key, is written as it is and read back as the same text |
| Values.InsertKeepsMap | dbusutils.cpp:527-558 | map insertion keeps keys unique and changes one key only |
| Claims.ClaimRegistry.HandleServiceOwnerChange | dbuspathdispatcher.cpp:282-327 | an owner change moves exactly one record, and only on a real transition, which queues a note |
| Claims.ClaimRegistry.HandleRequestNameReply | dbuspathdispatcher.cpp:373-417 | the reply to the current request sets the initial state unless a loss overtook it; every other reply changes nothing |
| Claims.ClaimRegistry.HandleConnectionLost | dbuspathdispatcher.cpp:329-363 | every owned claim of that connection is lost with one note each, and no other record changes |
| Claims.ClaimRegistry.AttachClaim | dbuspathdispatcher.cpp:559-621 | adopts a tombstone, joins a live or pending claim, or starts one; a flagged start has the receiver armed before its request |
| Claims.ClaimRegistry.ResolveRegistration | dbuspathdispatcher.cpp:623-661 | resolves the pending record, or reports that it was torn down meanwhile |
| Claims.ClaimRegistry.DetachClaim | dbuspathdispatcher.cpp:690-724 | drops one holder; the last one leaves a tombstone with a new token and asks for a release exactly if the name was owned or requested |
| Sequences.DropFirst | dbuspathdispatcher.cpp:698-703 | the loop removes the first occurrence and keeps the order of the rest |
| Claims.ClaimRegistry.FinishDetachClaim | dbuspathdispatcher.cpp:756-774 | erases the tombstone unless somebody adopted it |
| Claims.ClaimRegistry.ResolveNote | dbuspathdispatcher.cpp:211-247 | a note tells the holders exactly the net transition since the last one, and a stale note tells nothing |
| ClaimInvariant.StepKeeps | dbuspathdispatcher.cpp:282-774 | every step of the protocol (attach, detach, daemon service, other clients, delivery in order, relay, loss of the connection) keeps: the streams tell the truth about the owner, blocking calls and requests are where the record says, and with nothing under way the record knows the owner |
| ClaimInvariant.RegisterOutcome | dbuspathdispatcher.cpp:623-629 | a blocking registration leaves the name ours for good or leaves us neither owner nor queued |
| ClaimNotes.StepKeepsTokens | dbuspathdispatcher.cpp:587-603 | tokens are never reused: a record without a request of its own shares its token with no reply under way |
| ClaimNotes.StepKeepsAnnounced | dbuspathdispatcher.cpp:77-82 | every step keeps a live record either told or with a note on its way |
| ClaimNotes.StepKeepsHeard | dbuspathdispatcher.cpp:200-271 | every step keeps what each adaptor heard first, and what it heard last unless it attached out of step, in line with what the relay delivered, with handlers attaching and detaching between deliveries |
| ClaimSafety.Converges | dbuspathdispatcher.cpp:282-417 | over every run: once our messages are served and everything under way has arrived, a live claim is owned exactly if the daemon says the name is ours |
| ClaimSafety.ConvergesEarly | dbuspathdispatcher.cpp:366-417 | it is enough that no ownership event, no granting reply and no request is under way |
| ClaimSafety.OnlyTheOwnReplyCounts | dbuspathdispatcher.cpp:383-388 | over every run a reply moves a record only if it answers that record's own last request |
| ClaimEvents.ReplyIgnored | dbuspathdispatcher.cpp:383-391 | a reply meant for another request, or overtaken by a loss, changes neither the ownership of the record nor what is posted |
| ClaimEvents.ReplyCounts | dbuspathdispatcher.cpp:393-417 | the reply to the current request: codes 1 and 4 make the record owned, with a note exactly if it was not; 2 records the place in the queue; 3 changes nothing |
| ClaimEvents.SignalCounts | dbuspathdispatcher.cpp:282-327 | after an owner change the record is owned exactly if the new owner is its connection, a note goes out exactly on a change, and exactly a loss is remembered against the request under way |
| ClaimEvents.LossCounts | dbuspathdispatcher.cpp:329-363 | the loss of the connection takes ownership, request and place in the queue from an owned record and posts one note; any other record stays as it was |
| ClaimEvents.LastDetachLeaves | dbuspathdispatcher.cpp:698-722 | the last detach leaves a tombstone without holders and ownership under a token newer than every request |
| ClaimEvents.StaleNote | dbuspathdispatcher.cpp:226-231 | a note that finds nothing queued tells nobody anything |
| ClaimEvents.AdoptionSurvivesRelease | dbuspathdispatcher.cpp:756-774 | a claim adopted while its name is still being released outlives the release, a flagged one with its new request |
| ClaimLoss.LossWithdrawsRelease | dbuspathdispatcher.cpp:329-363 | over every run: once the loss of the connection has reached a live claim, then until the next start it stays unowned, and its last detach makes a blocking release exactly if it had been requested without being owned; an owned claim makes none |
| ClaimLoss.LostStaysLost | dbuspathdispatcher.cpp:383-391 | over every run: an ownership that is lost comes back by a signal or a new start only, never by the late answer to the request that won it |
| ClaimSafety.NoRecordNoSeat | dbuspathdispatcher.cpp:756-774 | whenever there is no record, the daemon holds us neither as owner nor in the queue, and nothing under way can change that |
| ClaimSafety.LastDetachWithdraws | dbuspathdispatcher.cpp:712-716 | the last detach of a flagged claim on a live connection always sends a release, behind every request |
| ClaimSafety.NoGhostOwner | dbuspathdispatcher.cpp:690-774 | when a withdrawing last detach completes, whatever happened before and in between, the record is gone and the daemon holds us nowhere |
| ClaimSafety.DetachLeavesNothingExactly | dbuspathdispatcher.cpp:712-725 | for every last detach, unflagged ones included: it withdraws the name or the daemon holds nothing for us, if and only if the record owned or had requested the name or the ownership events still under way do not end in one that makes the name ours |
| ClaimSafety.UnflaggedNameCanLeak | dbuspathdispatcher.cpp:716-725 | a run that reaches the remaining case: a late signal of an older claim makes an unflagged claim skip its release, its tombstone stays and the daemon keeps us as owner |
| ClaimSafety.NotificationsAlternate | dbuspathdispatcher.cpp:248-271 | over every run each adaptor hears acquired and lost in strict alternation from its attachment on, direct deliveries included, unless it attached with an older delivery still due that does not fit |
| ClaimSafety.FirstWord | dbuspathdispatcher.cpp:566-587 | over every run the first thing an adaptor hears is "acquired", unless it attached untold with a loss to be delivered before anything else, and then it is "lost" |
| ClaimDue.DueDeliveryFits | dbuspathdispatcher.cpp:248-271 | for every adaptor that attaches with an older delivery still due, and whatever happens until it gets it: what it heard then alternates and ends in what the record last delivered if and only if it was not told directly, on attaching or by its own registration, and the delivery is what the record had last delivered when it attached |
| ClaimDue.ToldDirectlyHearsTwice | dbuspathdispatcher.cpp:566-583 | an adaptor told directly that it owns the name with the same news still due hears "acquired" twice, in every run |
| ClaimSafety.RejoinHearsTwice | dbuspathdispatcher.cpp:248-271 | a run that shows the exception: re-attached from a handler, an adaptor hears "acquired" twice |
| ClaimSafety.LastWord | dbuspathdispatcher.cpp:200-271 | with no note queued, what a holder not still due a delivery heard last is the current ownership, and a holder of an owned claim that did not join during a loss has heard it |
| ClaimSafety.HoldersKnowTheOwner | dbuspathdispatcher.cpp:200-417 | end to end: when everything is quiet, what a holder heard last is what the daemon holds, and one that did not join during a loss has heard that it owns the name |
| ClaimSafety.GapJoinerHearsLossFirst | dbuspathdispatcher.cpp:572-586 | a run that reaches the exception of FirstWord: a joiner during a queued loss hears "lost" first |
| ClaimSafety.GapJoinerHearsNothing | dbuspathdispatcher.cpp:229-243 | a run in which loss and regain coalesce and such a joiner holds an owned name without ever hearing so |
| ClaimProgress.InternalRunsEnd | dbuspathdispatcher.cpp:183-417 | left to itself the protocol stops after a bounded number of steps, in whatever order they happen |
| ClaimProgress.NeverStuck | dbuspathdispatcher.cpp:623-629 | while anything is under way some step is possible: no blocking call waits for a message that was never sent |
| ClaimProgress.ComesToRest | dbuspathdispatcher.cpp:282-417 | from every state the invariant allows, the protocol left to itself reaches a quiet state, and there a live claim knows the owner |
| Mailbox.NoLostWakeup | dbuspathdispatcher.cpp:183-211 | in every interleaving of posters and drain a waiting note has an undelivered wake, an active drain or a poster about to post, and at most one wake is undelivered |
| Mailbox.QuietMeansDelivered | dbuspathdispatcher.cpp:203-211 | when nobody is under way every note ever posted has been taken, once and in order |
| Mailbox.EveryRunEnds | dbuspathdispatcher.cpp:183-211 | without new notes every run of the posters and the drain is bounded, in whatever order they take turns |
| Mailbox.NeverStuck | dbuspathdispatcher.cpp:183-211 | while a note waits, a poster or the drain can go on |
| Mailbox.RestMeansDelivered | dbuspathdispatcher.cpp:183-211 | a run that cannot go on has taken every note ever posted, once and in order |
| Mailbox.Finish | dbuspathdispatcher.cpp:183-211 | from every reachable state the posters and the drain alone can empty the mailbox |
| Mailbox.StepKeeps | dbuspathdispatcher.cpp:183-211 | every step keeps the flag equal to the number of wakes posted, pending or just delivered |
| Mailbox.Relay.Event | dbuspathdispatcher.cpp:200-211 | the drain loop takes everything waiting, in order, and leaves the flag clear |
| HeldReply.SendMethodReply | dbusadaptor.cpp:2080-2174 | exactly one message if a reply is wanted, none otherwise, and an error exactly when the value or its declared form cannot be sent |
| HeldReply.DeferredReply.Send | dbusheldreply.cpp:25-47 | an open handle whose caller waits answers with one message, an error exactly if its adaptor is gone or the reply tail ends in one; a settled one is left alone |
| HeldReply.DeferredReply.SendError | dbusheldreply.cpp:49-65 | an open handle whose caller waits answers with one error; a settled one is left alone |
| HeldReply.DeferredReply.Expire | dbusheldreply.cpp:87-103 | the timer answers an open handle with one error and never a settled one |
| HeldReply.DeferredReply.SettleNow | dbusheldreply.cpp:67-85 | settling is final and stops the timer |
| HeldReply.ServedAdaptor.EnterScope | dbusadaptor.cpp:191-202 | pushes the current context and starts a fresh one |
| HeldReply.ServedAdaptor.LeaveScope | dbusadaptor.cpp:203-212 | restores the context and the flag that were saved |
| HeldReply.ServedAdaptor.HoldReply | dbusadaptor.cpp:2002-2043 | mints one handle per dispatch for the current call, returns the same one again, and refuses outside a dispatch |
| HeldReply.ServedAdaptor.SettleChildren | dbusadaptor.cpp:223-234 | every open handle whose caller waits answers with one error, in order, and nothing else is sent |
| HeldReply.ServedAdaptor.Unregister | dbusadaptor.cpp:2054-2078 | settles all open handles exactly if the adaptor was attached |
| DispatchSafety.StepKeeps | dbusadaptor.cpp:1443-2078 | every step of arbitrarily nested dispatches keeps: scopes and contexts are the same calls, a call has at most one handle, and it has had exactly the answers it was due |
| DispatchSafety.AtMostOneReply | dbusadaptor.cpp:1443-2078 | over every run no call is answered twice and a no-reply call never |
| DispatchSafety.HandledMeansAnswered | dbusadaptor.cpp:1443-2078 | a reply-required call reported as handled has been answered exactly once or has exactly one open handle of a living adaptor |
| DispatchSafety.SettlingAnswers | dbusheldreply.cpp:26-103 | every path that settles an open handle (send, error, timer, unregister, destruction, a throw in its own dispatch) answers its call, once |
| DispatchAnswers.StepSays | dbusadaptor.cpp:1443-2078 | every step answers a call exactly with its verdict: what settled its handle, an error for expiry, unregistering, destruction or a throw, and nothing otherwise |
| DispatchAnswers.AnsweredAsSettled | dbusheldreply.cpp:25-103 | over every run a call has had exactly the answers its verdicts say, at most one: an error exactly if it threw, its tail failed, it was settled with an error, it expired, or its adaptor was unregistered or destroyed while it was on hold |
| DispatchAnswers.TimerRunsWhileOpen | dbusheldreply.cpp:67-103 | over every run a deferred reply can expire exactly while it is open and its adaptor sets a time limit |
| DispatchSafety.DeadAdaptorOwesNothing | dbusadaptor.cpp:223-240 | a destroyed adaptor leaves no handle open |
| DispatchSafety.OpenMeansUnanswered | dbusadaptor.cpp:1443-1453 | a declined call, or one still running without a handle, has had no answer |
| DispatchSafety.ContextRestored | dbusadaptor.cpp:189-217 | whatever a handler does, nested dispatches on the same adaptor included, when its scope closes the outer context, its handle and the stack under it are back as they were |
| DispatchSafety.LeaveIsAlwaysPossible | dbusadaptor.cpp:203-212 | over every run the innermost scope can be left: a saved context is there, and a held call has its handle |
| DispatchSafety.PopPush | dbusadaptor.cpp:189-217 | a scope with nothing in it leaves the adaptor unchanged |
| Routing.RouteToAdaptors | dbuspathdispatcher.cpp:939-1007 | a named interface goes to its first live adaptor only, and a miss there is answered here if an answer is wanted; otherwise adaptors are asked in turn until one accepts, so at most one takes the call |
| Routing.AskInTurn | dbuspathdispatcher.cpp:959-963 | asks live adaptors in order and passes none over, stops at the first that accepts, and gives up only after all declined |
| ProxySets.ProxyWrites.SetProperty | dbus.cpp:598-664 | sends and records a snapshot of the destination if no Set of the name is in flight, else only replaces the queued value |
| ProxySets.ProxyWrites.FinishSet | dbus.cpp:773-801 | drops the record, or sends the queued value to the recorded destination |
| ProxySets.ProxyWrites.SetFinished | dbus.cpp:741-770 | marks a failed name before the chain goes on |
| ProxySets.ProxyWrites.MaybeRefetchAfterFailedWrite | dbus.cpp:834-845 | re-fetches exactly if no Set is in flight and a failure is marked |
| ProxySets.ProxyWrites.Refetch | dbus.cpp:1220-1230 | one Get per name, each with the next epoch |
| ProxySetProtocol.OneSetInFlight | dbus.cpp:598-664 | over every run at most one Set per name is in flight, and only with a record |
| ProxySetProtocol.LatestWins | dbus.cpp:691-801 | what is sent for a name is a subsequence of what was written, and once the chain settles the last value sent is the last written |
| ProxySetProtocol.ChainKeepsDestination | dbus.cpp:720-801 | a write that finds no Set of its name in flight, in any state: for as long as the record lives, wherever the proxy is repointed, everything sent for the name goes where the proxy pointed at that write, and failures are reported under the key of that write |
| ProxySetProtocol.RefetchExactly | dbus.cpp:755-845 | after a failed Set exactly one re-fetch goes out if the chain had no next link and the handler did not write the name, and none otherwise |
| ProxySetProtocol.MiddleFailureIsForgotten | dbus.cpp:803-831 | a failed middle link before a successful last link is never re-fetched, and its marker stays |
| ProxySetProtocol.OnlyTheNewestRefetchLands | dbus.cpp:1220-1250 | the epoch is proxy-wide: of all re-fetches of all names exactly the newest can land, if the destination is unchanged |
| ProxySetProtocol.RefetchesEach | dbus.cpp:1220-1230 | exactly the invalidated names are fetched again, in order, each under an epoch of its own |
| ProxySetProtocol.MarkedExactly | dbus.cpp:741-845 | a name is marked for a re-fetch by its own failed Sets only, and until that re-fetch goes out |
| ProxySetProtocol.StepKeeps | dbus.cpp:598-845 | every write, completion, repoint and re-fetch keeps records, Sets in flight and the order of values in agreement |
| ProxyGets.ProxyReads.Get | dbus.cpp:534-579 | sends a Get only if none of that name is in flight, else adds a waiter |
| ProxyGets.ProxyReads.FinishPendingGet | dbus.cpp:581-596 | answers the owner and every waiter from the one reply and nobody else |
| ProxyGets.PendingReply.CompleteFromReply | dbuspendingreply.cpp:127-195 | one shot: the first outcome sticks and finished fires once |
| ProxyGetProtocol.OneGetInFlight | dbus.cpp:534-579 | over every run at most one Get per name is in flight |
| ProxyGetProtocol.EveryReplySettlesOnce | dbus.cpp:581-596 | every reply handed out fires exactly once, with the answer of its own Get, not before, and with none left out, even when handlers call getProperty again |
| ProxyGetProtocol.RepliesSettleInOrder | dbus.cpp:581-596 | over every run the replies of one Get settle in the order in which they were handed out |
| ProxyGetProtocol.DeliveriesGoOn | dbus.cpp:588-596 | the replies still due are always there to be settled |
| ProxyGetProtocol.SettledStays | dbuspendingreply.cpp:153-160 | a settled reply never changes again |
| ProxyGetProtocol.StepKeeps | dbus.cpp:534-596 | every step keeps records and Gets in flight the same thing and each reply due from exactly one place |
| PathRegistry.Dispatchers.FindRoot | dbuspathdispatcher.cpp:489-504 | the loop computes the walk and returns the nearest capturing ancestor: any other lies above it |
| PathRegistry.WalkFinds | dbuspathdispatcher.cpp:489-504 | the walk finds a capturing ancestor exactly when there is one |
| PathRegistry.WalkFindsNearest | dbuspathdispatcher.cpp:489-504 | every other capturing ancestor lies above the one it finds |
| PathRegistry.Dispatchers.AttachAdaptor | dbuspathdispatcher.cpp:475-537 | joins an agreeing dispatcher, becomes a child of a capturing ancestor, or registers; otherwise nothing changes |
| PathRegistry.Dispatchers.DetachAdaptor | dbuspathdispatcher.cpp:839-876 | takes one adaptor away and removes dispatchers that serve nobody any more, the emptied root included |
| PathRegistry.AttachKeeps | dbuspathdispatcher.cpp:475-537 | attach keeps registry and child index in agreement |
| PathRegistry.DetachKeeps | dbuspathdispatcher.cpp:839-876 | detach keeps registry and child index in agreement |
| PathRegistry.FreshAttach | dbuspathdispatcher.cpp:488-537 | attach at a path without a dispatcher succeeds exactly beneath a capturing root or where QtDBus accepts the registration; the dispatcher captures exactly if asked to with no root above; a failure changes nothing |
| PathRegistry.JoinMustAgree | dbuspathdispatcher.cpp:475-487 | for as long as the dispatcher of a path stays, a further attach succeeds exactly if it asks for the same capture as the first one did, granted or not; otherwise it changes nothing |
| PathRegistry.NothingBeneath | dbuspathdispatcher.cpp:520-529 | where QtDBus accepts a SubPath registration, not even a captured path lies beneath |
| PathRegistry.RootsAreAnAntichain | dbuspathdispatcher.cpp:475-537 | over every run no capturing root lies beneath another |
| PathRegistry.IndexAgrees | dbuspathdispatcher.cpp:505-515 | over every run a root's children are exactly the registered paths strictly beneath it |
| PathRegistry.RoutingIsLookup | dbuspathdispatcher.cpp:1058-1064 | routing through a capturing root finds what looking the path up directly would; any other dispatcher serves its own path only |
| PathRegistry.OnlyTheNamedAdaptorMoves | dbuspathdispatcher.cpp:839-876 | attach and detach change the adaptors of the named path only, whichever dispatchers come and go |
| PathRegistry.RegisteredWhileUsed | dbuspathdispatcher.cpp:839-876 | a dispatcher is registered exactly while it has an adaptor or a live child; with the last adaptor gone the registry is empty |
| Prolog.DeclaresInternalSubset | dbusintrospection.cpp:12-48 | returns true if and only if the document is, past an optional byte order mark, complete spaces, comments, instructions and subset-free declarations followed by a declaration whose first unquoted `[` precedes its first unquoted `>`; the cursor strictly advances |
| Prolog.SkipDoctype | dbusintrospection.cpp:30-44 | the quote-aware loop ends at the first unquoted bracket |
| Prolog.ScannerFindsSubset | dbusintrospection.cpp:12-48 | the scan and the declarative reading agree on every text |
| Prolog.PieceIsSkipped | dbusintrospection.cpp:16-29 | whatever follows a complete piece, the scanner steps over exactly that piece |
| Prolog.PrefixChangesNothing | dbusintrospection.cpp:12-48 | comments, instructions, space and subset-free declarations in front of a document without a byte order mark never change the answer |
| Naming.FoldName | dbusintrospection.cpp:164-182 | the counting loop computes the fold |
| Naming.FoldIsIdempotent | dbusintrospection.cpp:164-182 | both folds are idempotent for every lawful case mapping, letters without lower case included |
| Naming.FoldCases | dbusintrospection.cpp:164-182 | what the fold does by the way a name starts: one capital is lowered, a word in capitals throughout is lowered throughout, a run of capitals up to its last, which starts the next word |
| Naming.LadderRoundTrip | dbusadaptor.cpp:1296-1351 | a QML name is among the dispatch candidates of its advertised wire name if and only if an alias, declared signal or catalog entry names it or its first character survives being raised and lowered |
| Naming.AliasComesFirst | dbusadaptor.cpp:1296-1301 | the first alias of a QML name is its wire name, whatever else matches |
| Naming.SignalComesNext | dbusadaptor.cpp:1302-1308 | without an alias it is the first declared signal that is the name or folds to it |
| Naming.CatalogComesNext | dbusadaptor.cpp:1309-1325 | without either it is the first catalog name that folds to it |
| Naming.InferenceComesLast | dbusadaptor.cpp:1326-1333 | without any it is the name with its first character raised |
| Naming.CandidatesInOrder | dbusadaptor.cpp:1336-1351 | dispatch tries the alias first, then the wire name, then the plain fold, then the collapsing one |
| Naming.DotlessIDiverges | dbusadaptor.cpp:1328-1333 | a name that starts with the dotless i is advertised under a wire name that does not lead back to it |
| Naming.CandidatesAre | dbusadaptor.cpp:1336-1351 | exactly the alias, the name itself and its two folds are tried |

## Left out

- QtDBus and libdbus themselves, sockets, marshalled bytes and timeouts: only events, queues and steps remain of them.
- The JS engine, property maps, metaobject reflection, garbage collection and object ownership: handlers are arbitrary steps.
- Gadget unwrapping before writing (dbusconnection.cpp:264-384): values arrive unwrapped.
- Reading with a malformed signature (dbusutils.cpp:600-607): libdbus delivers only valid ones, so the reader is given a typed body.
- The type checks of untyped sends (dbusconnection.cpp:49-185): they re-state Qt's own type table.
- Two threads attaching and detaching the same name at once: declared unsupported in dbuspathdispatcher.h:55-60.
- A handle collected while its own dispatch runs: see the assumptions.
- Dispatchers are known by their path; that a path and its object correspond one to one is not proved about pointers.
- Qt's internal filters for captured children (dbuspathdispatcher.cpp:1009-1056): their contract is code that is not part of this model.
- Filtering of method options (dbusadaptor.cpp:350-680): a table of per-type checks.
- Watchers, ObjectManager, signal subscriptions, loss probes and introspection text: thin state over Qt.
- ClaimRegistry.ResolveRegistration: only reports the race that attach resolves by starting over; with serialized attach and detach it cannot happen.
- NotificationsAlternate: leaves out adaptors that attached with an older delivery due that does not fit, for which it is false; DueDeliveryFits says exactly which these are.
- ReadBySignature: is stated for bodies that match their signature.
- WriteBySignature: promises the declared type under the assumption InfersTyped about Qt's inference for variants.
- TreeIsTyped: rests on the same assumption.
- WrittenValueComesBack: rests on it for signatures with variants, and says what a variant's payload comes back as relative to how it was spelled, not to the value handed in, which Qt's own marshalling decides.
- SpelledOpen: says nothing about descriptors inside variants, which Qt writes itself.
- FinishPendingGet: is proved for handlers that do not call back; ProxyGetProtocol covers those that do.
- Event: is proved for a mailbox nobody posts to meanwhile; NoLostWakeup, EveryRunEnds and RestMeansDelivered cover the interleavings.
