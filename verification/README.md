# Verified model of Hoomail

Hoomail is a mail catcher: it takes mail by SMTP, keeps it in SQLite, and serves it by POP3 and HTTP to a browser
client. This Dafny project models the algorithms and protocols inside it and proves what they promise. Code that
updates state is written as classes, loops and methods over that state and proved against specification functions;
the laws are lemmas about those functions, over every input or every run.

| files | part of Hoomail |
|---|---|
| `MimeLines`, `MimeTree`, `MimeSound`, `MimeLimits`, `RawIndex` | the raw MIME indexer: physical lines, headers, boundaries, the tree of byte ranges, six shared budgets |
| `MailStore`, `Pop3Session`, `Protocol`, `Serving` | the store, the POP3 session, every interleaving of the two, and the objects that go through them |
| `DotStuffing` | multi-line responses and TOP (sections 3 and 7 of RFC 1939) |
| `Reconcile` | calendar events in the store (sections 2.1.4 and 2.1.5 of RFC 5546) |
| `CacheTrim`, `ResourceCache`, `CacheRuns` | the client's resource cache and its runs |
| `ContentLines`, `Calendar`, `CalendarGrammar`, `Duration` | the iCalendar parser (sections 3.1, 3.3.6 and 3.3.11 of RFC 5545) |
| `CalendarPrinter`, `CalendarRecipient`, `CalendarRoundTrip` | the calendar the built-in sender prints, the recipient in it, and its round trip through the parser |
| `Presentation`, `PresentationLaws` | which parts of a message are shown (section 5.1.4 of RFC 2046) |
| `Svg` | SVG pruning by depth counters |
| `OpenTags` | the open-element index of the HTML analysis |
| `EventHub` | the bounded broadcast hub |
| `Text` | byte strings |

Bytes are modelled as `char`, one per byte. What Hoomail takes from elsewhere enters as a parameter: the reading of a
media type, the clock that reads calendar times, the allow-lists of the SVG policy, and the outcome of a database
call (`works`, `failAt`). A method's `works` covers every error return of the database at once, because each of them
leaves the committed tables as they were.

Three promises are not kept on all inputs. Each has its exact condition, proved in both directions, and an input that
fails it:

- The calendar the sender prints is refused by the parser for a recipient with an odd number of double quotes and no
  colon, and read as one event for every other (`CalendarRoundTrip.RoundTrip`). The recipient itself comes back as the
  one attendee's address exactly when it is not empty, its quotes are in pairs, any colon is inside them, and it has no
  backslash, semicolon, comma or line break (`CalendarRoundTrip.RecipientExactly`): the sender escapes the address as
  text, and the parser does not decode it. `LoneQuoteFails` and `BackslashDoubled` have a recipient for each; both pass
  the pattern of the send handler (`internal/httpserver/httpserver.go:681-697`).
- A forced revalidation of the client cache whose fetch has not started is still owed if and only if its entry was not
  cleared without revalidation since, for every key, `/source` keys included (`CacheRuns.RevalidationKeptExactly`);
  `CacheRuns.ClearLosesRevalidation` is a run that loses one.
- The order of calendar deliveries matters. Two of one UID may be exchanged exactly under
  `Reconcile.ExchangeExactly`, updates and CANCELs alike, whatever row is stored; any number of updates may be
  delivered in any order exactly when those with the highest sequence agree (`Reconcile.UpdatesCommuteExactly`). A
  CANCEL applies whatever its sequence (`Reconcile.StaleCancel` has two orders that end differently), and
  `Reconcile.EndsCancelled` says when any run ends CANCELLED.

The source's comment on `Hub.Close` calls it idempotent; `EventHub.Hub.Close` confirms it. `TopIsPrefix` and the
dot-stuffing round trip hold for any bytes, including bare CR and LF.

## Model

| member | source | states |
|---|---|---|
| MimeLines.AllLinesContiguous | internal/mimeparse/index.go:100-129 | scanned lines start at the beginning, follow one another without a gap, each with its true terminator |
| MimeLines.LinesReproduceBytes | internal/mimeparse/index.go:100-129 | writing the lines with their terminators gives back the indexed bytes |
| MimeLines.LinesUnique | internal/mimeparse/index.go:100-129 | there is only one such division into lines |
| MimeLines.LineAtOrAfter | internal/mimeparse/index.go:384-395 | the binary search finds the first line that starts at or after an offset |
| MimeLines.TrimRemovesOneTerminator | internal/mimeparse/index.go:404-412 | trimming the end before a delimiter removes exactly the line terminator that belongs to the delimiter |
| MimeTree.DelimitersInBody | internal/mimeparse/index.go:278-302 | delimiter lines lie inside the body, in ascending order |
| MimeTree.HeaderBlockRange | internal/mimeparse/index.go:139-156 | a header block ends where its blank line starts, and the body starts after that line, inside the entity |
| MimeSound.FieldsFromOk | internal/mimeparse/index.go:304-333 | every header field has its name, value and line ranges inside the block, in order, on the lines it claims |
| MimeSound.FullSound | internal/mimeparse/index.go:131-271 | for every input each node's ranges are ordered, children lie inside the parent's body, in order, disjoint, and touch no delimiter |
| MimeSound.SoundNumbered | internal/mimeparse/index.go:131-271 | the paths of a tree number its nodes |
| MimeSound.RestrictionSound | internal/mimeparse/index.go:131-271 | the first nodes in preorder of a sound tree form a sound tree |
| MimeSound.LimitedTree | internal/mimeparse/index.go:131-271 | a tree parsed under limits is the unlimited tree restricted to its first nodes, with the same ranges, fields and paths |
| MimeLimits.RoomConcat | internal/mimeparse/index.go:131-170 | the number of nodes that fit the limits is additive over consecutive parts |
| MimeLimits.CutConcat | internal/mimeparse/index.go:131-271 | a cut of one part followed by a cut of the next is a cut of both: the first failure stops everything |
| MimeLimits.CutStaysWithin | internal/mimeparse/index.go:131-170 | what a cut charges stays within part, field and header-byte limits |
| MimeLimits.PrefixIsRestriction | internal/mimeparse/index.go:131-271 | a numbered tree whose preorder is a prefix of another's is that one restricted to its first nodes |
| RawIndex.Index.ScanLines | internal/mimeparse/index.go:100-129 | the scanning loop lists the lines of the bytes, up to the line limit |
| RawIndex.Index.HeaderFieldsIn | internal/mimeparse/index.go:304-333 | the header loop reads the fields of the block, continuation lines included |
| RawIndex.Index.BoundaryLines | internal/mimeparse/index.go:278-302 | the boundary loop lists the delimiter lines of the body up to the closing one |
| RawIndex.Index.EntityHeaderValues | internal/mimeparse/index.go:335-355 | one pass over the fields reads what three separate first-of-its-name searches would |
| RawIndex.Index.EntityMedia | internal/mimeparse/index.go:172-207 | the type, default and malformed cases included, with encoded words decoded in the parameters of the content type and not in those of the disposition |
| RawIndex.Index.ParseEntity | internal/mimeparse/index.go:131-271 | the entity parser yields the unlimited tree cut at the first limit that is hit, charges exactly the nodes it keeps, and records exactly that limit |
| RawIndex.Index.ParseParts | internal/mimeparse/index.go:219-256 | the loop over parts does so for the children of a multipart |
| RawIndex.Index.IndexDecodedMessage | internal/mimeparse/index.go:61-98 | a decoded message is indexed on copied counters and a reduced line limit, and the shared budget is charged with exactly its nodes and lines and never overrun |
| RawIndex.Build | internal/mimeparse/index.go:33-59 | a message over the byte limit gets lines only; any other gets the cut of its unlimited tree, with exactly the causes met |
| RawIndex.IndexedTree | internal/mimeparse/index.go:33-271 | limits only cut: without a recorded limit the tree is the unlimited one, with one it is a restriction, sound in every range |
| RawIndex.IndexAll | internal/mimeparse/index.go:33-98 | over any nesting of decoded messages the budgets are kept and charged with exactly the nodes and lines of all of them |
| MailStore.Store.GetMessage | internal/store/operations.go:17-40 | a read returns the message with the generation it belongs to |
| MailStore.Store.ReadMessage | internal/store/operations.go:42-79 | reading marks that message and returns it as it was, without a generation |
| MailStore.Store.MarkReadDetail | internal/store/operations.go:81-120 | a read token changes at most the flag of its own message, and nothing once the generation or the message changed |
| MailStore.Store.SetReadState | internal/store/operations.go:332-372 | the flags of exactly the given messages are set, and nothing else changes |
| MailStore.Store.StoreMessage | internal/store/operations.go:502-590 | a delivery adds one message to each recipient's mailbox, making mailboxes as needed, or changes nothing |
| MailStore.Store.OpenPOP3Mailbox | internal/store/operations.go:202-266 | a snapshot lists exactly the mailbox's messages, oldest first, with their bytes and the generation |
| MailStore.Store.ListMailbox | internal/store/operations.go:242-258 | the listing loop is complete, free of repetition and sorted by time, then id |
| MailStore.Store.DeletePOP3Messages | internal/store/operations.go:268-295 | exactly the given ids are deleted, and none if the generation changed |
| MailStore.Store.DeleteMailbox | internal/store/operations.go:449-470 | a mailbox goes with its messages, and only those |
| MailStore.Store.WipeAll | internal/store/operations.go:472-500 | everything goes, ids restart, and the generation moves on |
| Pop3Session.DeletedIdsAre | internal/pop3server/pop3server.go:450-458 | the ids sent for deletion are those of the marked numbers of the snapshot |
| Pop3Session.ExecutedEffect | internal/pop3server/pop3server.go:244-306 | one command changes the store only as a login, or as a QUIT that deletes the marked messages |
| Pop3Session.Connection.Execute | internal/pop3server/pop3server.go:244-306 | each command does in each state what the session specification says, with its reply, its store effect and whether it closes |
| Pop3Session.Connection.ExecuteTransaction | internal/pop3server/pop3server.go:308-426 | LIST, UIDL, RETR, DELE, RSET, NOOP, STAT and TOP give the specified numbers, payload or listing and the specified marks, and touch no message |
| Pop3Session.TotalsAgree | internal/pop3server/pop3server.go:376-448 | the count and octets in the status line of LIST are those of the rows below it |
| Pop3Session.RowsAre | internal/pop3server/pop3server.go:376-414 | LIST and UIDL have one row for each message not marked, in order, with its size or id |
| Pop3Session.Connection.MaildropStats | internal/pop3server/pop3server.go:440-448 | counts and octets of the messages not marked |
| Protocol.StepInv | internal/store/operations.go:17-120 | every step of store, sessions and tokens keeps the identity invariant across reissued ids |
| Protocol.RunInv | internal/store/operations.go:472-590 | every run from an initial state keeps it too |
| Protocol.SayRemoves | internal/pop3server/pop3server.go:244-306 | a command removes a message if and only if it is a committed QUIT of a current session that marked it |
| Protocol.StandsMarkedMeans | internal/pop3server/pop3server.go:308-369 | a mark stands exactly when a DELE was accepted with no RSET since |
| Protocol.MarksAre | internal/pop3server/pop3server.go:308-369 | over every run the marks of a session are the ones that stand |
| Protocol.DeletionSafety | internal/pop3server/pop3server.go:244-369 | over every run a POP3 command removes only a message of its own snapshot, still the same mail, whose DELE stands |
| Protocol.MarkReadFence | internal/store/operations.go:81-120 | a token marks at most the message it was read from |
| Protocol.ReadFenceSafety | internal/store/operations.go:81-120 | over every run, even after a wipe reissued the ids |
| Serving.Serve | internal/store/operations.go:17-590 | whatever requests the store and the sessions are given, they go through a run of the protocol, one step for each request, answer as that step says, and end in the state of the run |
| DotStuffing.WriteMultiline | internal/pop3server/pop3server.go:529-567 | the byte loop writes the data's lines, stuffed, each with CRLF, then the lone dot |
| DotStuffing.ReceiveWire | internal/pop3server/pop3server.go:529-567 | an unstuffing client reads any such response back to its lines and stops at its lone dot |
| DotStuffing.LinesAreCanonical | internal/pop3server/pop3server.go:529-567 | those lines are the data with every CR, LF and CRLF as CRLF and a final one if missing |
| DotStuffing.RetrieveRoundTrip | internal/pop3server/pop3server.go:529-567 | the two together, for any data and whatever follows on the connection |
| DotStuffing.TopBytes | internal/pop3server/pop3server.go:478-509 | the TOP loop cuts after the header block and so many lines |
| DotStuffing.TopIsPrefix | internal/pop3server/pop3server.go:478-522 | TOP's lines are the header's lines and the first min(n, all) lines of the body, a prefix of RETR's |
| Reconcile.EventTable.ApplyEvent | internal/store/operations.go:602-668 | one event changes the row of its mailbox and UID as specified, and no other; there is never a second row |
| Reconcile.EventTable.MergeReplies | internal/store/operations.go:623-649 | the reply loops fold the replies into the stored attendees one by one |
| Reconcile.EventTable.ApplyCalendarEvents | internal/store/operations.go:602-668 | a batch of events is its events in turn |
| Reconcile.SequenceNeverDecreases | internal/store/operations.go:602-668 | over every run a row stays and its sequence never decreases |
| Reconcile.RunOutcome | internal/store/operations.go:602-668 | every run of updates, CANCELs and REPLYs, over any stored row or none, leaves the highest sequence, the contents of the last delivery that landed, its attendees with the later REPLYs merged, and its status unless a CANCEL came with or after it |
| Reconcile.EndsCancelled | internal/store/operations.go:602-668 | every run ends CANCELLED if and only if a CANCEL came with or after the last landing, or that one says CANCELLED itself |
| Reconcile.ExchangeExactly | internal/store/operations.go:602-668 | exactly which two deliveries of one UID leave the same row in both orders |
| Reconcile.StaleCancel | internal/store/operations.go:602-668 | a REQUEST and an older CANCEL end differently in their two orders |
| Reconcile.UpdatesLeaveWinner | internal/store/operations.go:650-667 | updates leave the contents of the last one with the highest sequence, or the stored row if all are below it |
| Reconcile.UpdatesCommuteExactly | internal/store/operations.go:650-667 | updates leave the same row in every order if and only if those with the highest sequence agree or are below the stored row |
| Reconcile.UpdatesCommute | internal/store/operations.go:650-667 | updates with distinct sequences store the same contents in any order, over any stored row |
| Reconcile.RepliesTouchRepliersOnly | internal/store/operations.go:623-649 | a REPLY changes no one's status but the repliers' |
| Reconcile.LastReplyCounts | internal/store/operations.go:623-649 | a replier ends with the status of their last reply |
| CacheTrim.Recency.RankInSorted | components/hoomail/use-hoomail.ts:167-179 | an entry's place in the sorted list is the number of entries older than it |
| CacheTrim.Trim | components/hoomail/use-hoomail.ts:167-179 | survivors are exactly the active keys, and the inactive ones within the 32 most recent and, for inspections, the 8 most recent |
| ResourceCache.FetchedGood | components/hoomail/use-hoomail.ts:190-219 | starting a fetch keeps the fence: an unsettled request that is not its entry's promise is of an older generation |
| ResourceCache.FinalizedGood | components/hoomail/use-hoomail.ts:206-215 | so does settling one, deferred revalidation included |
| ResourceCache.MutatedGood | components/hoomail/use-hoomail.ts:236-259 | so does a mutate |
| ResourceCache.Resources.FetchInto | components/hoomail/use-hoomail.ts:190-219 | issuing a request, or deferring it behind the one in flight |
| ResourceCache.Resources.RetryCachedResource | components/hoomail/use-hoomail.ts:221-232 | a retry clears the entry, supersedes its request and starts another |
| ResourceCache.Resources.MutateKey | components/hoomail/use-hoomail.ts:236-259 | one key of a mutate, with and without updater and revalidation |
| ResourceCache.Resources.Answer | components/hoomail/use-hoomail.ts:200-206 | an answer is written only if its generation is current |
| ResourceCache.Resources.Finish | components/hoomail/use-hoomail.ts:206-215 | settling releases the promise, starts a deferred fetch and trims |
| ResourceCache.Resources.TrimCache | components/hoomail/use-hoomail.ts:167-179 | entries with listeners or a request in flight are never evicted; the others by the two tiers |
| ResourceCache.Resources.Subscribe | components/hoomail/use-hoomail.ts:274-282 | subscribing adds a listener and fetches what is missing |
| ResourceCache.Resources.Unsubscribe | components/hoomail/use-hoomail.ts:283-287 | unsubscribing removes it, drops a source entry and trims |
| CacheRuns.GenerationOverRun | components/hoomail/use-hoomail.ts:190-259 | an entry's generation grows over every run, and stands still exactly while nothing mutates or retries it |
| CacheRuns.StaleResponseFence | components/hoomail/use-hoomail.ts:190-219 | over every run an answer is written if and only if its entry was not mutated or retried since the request |
| CacheRuns.SupersededIsFenced | components/hoomail/use-hoomail.ts:190-259 | at any time an unsettled request that is not current carries a strictly older generation |
| CacheRuns.RevalidationNotLost | components/hoomail/use-hoomail.ts:206-259 | over every run a forced revalidation has started, or is owed by the one in flight, unless the entry was cleared without one |
| CacheRuns.RevalidationKeptExactly | components/hoomail/use-hoomail.ts:190-259 | over every run, one that has not started is owed if and only if the entry was not cleared without one since |
| CacheRuns.ClearLosesRevalidation | components/hoomail/use-hoomail.ts:236-259 | a run that loses one: a mutate during a request, then a clear without revalidation |
| ContentLines.UnfoldLines | internal/calendar/calendar.go:265-291 | the loop glues continuation lines to their line and refuses one at the start |
| ContentLines.FoldInvisible | internal/calendar/calendar.go:265-291 | a fold anywhere after the first character of a line, with CRLF, LF or CR and a space or tab, does not change the lines |
| ContentLines.SeparatorIndex | internal/calendar/calendar.go:319-341 | the first separator outside quotes and escapes |
| ContentLines.SplitOutsideQuotes | internal/calendar/calendar.go:343-368 | the pieces between such separators |
| Calendar.ParseContentLine | internal/calendar/calendar.go:293-317 | name, parameters and value of a line, or its refusal |
| Calendar.DecodeText | internal/calendar/calendar.go:379-402 | the decoding loop, which refuses an unknown or unfinished escape |
| Calendar.EventBuilder.Add | internal/calendar/calendar.go:172-180 | the first property of a name is kept, attendees add up |
| Calendar.Parser.Begin | internal/calendar/calendar.go:84-108 | a second or nested calendar, an event that is no direct child, and event 1001 are refused; any other opening is pushed |
| Calendar.Parser.End | internal/calendar/calendar.go:109-128 | only the innermost open component can be closed; an event is built then, kept, skipped or fatal |
| Calendar.Parser.Keep | internal/calendar/calendar.go:131-145 | a property counts as METHOD, as the open event's, or for nothing; outside a calendar, and as METHOD after a component, it is refused |
| Calendar.ParseICS | internal/calendar/calendar.go:59-152 | the loop stops at the first bad line and returns the events of a finished calendar, or none |
| CalendarGrammar.Inside | internal/calendar/calendar.go:84-146 | inside the calendar, items feed only the event they are direct properties of; a nested event or calendar is refused |
| CalendarGrammar.DocumentRun | internal/calendar/calendar.go:59-152 | a document completes exactly when it is legal, with its events in order |
| CalendarGrammar.ParseSound | internal/calendar/calendar.go:59-152 | recursive descent reads back what it consumed |
| CalendarGrammar.CrossingNeverEnds | internal/calendar/calendar.go:109-128 | components that cross never let the stack run empty |
| CalendarGrammar.StackIsGrammar | internal/calendar/calendar.go:59-152 | the stack loop accepts exactly the legal documents of the recursive grammar and returns their events, all or nothing |
| CalendarGrammar.FirstPropertyWins | internal/calendar/calendar.go:172-180 | an event is built from the first direct property of each name |
| Duration.ClockOf | internal/calendar/calendar.go:530-543 | the clock total is computed without overflow, and refused exactly when it exceeds 64 bits |
| Duration.Bounded | internal/calendar/calendar.go:522-543 | a duration passes exactly when its days and its nanoseconds fit, and comes out signed and exact |
| Duration.ParseDuration | internal/calendar/calendar.go:497-520 | the components of a matched duration are read exactly, and refused when one overflows or none is given |
| CalendarPrinter.DecodeEscape | internal/sendtest/sendtest.go:181-185 | decoding undoes escaping for every text |
| CalendarPrinter.EscapeScan | internal/sendtest/sendtest.go:181-185 | escaped text separates nothing at semicolons and commas, and something at a colon exactly if the text has one outside its quotes; the parity of quotes is kept |
| CalendarPrinter.AttendeeParses | internal/sendtest/sendtest.go:188 | the attendee line is well formed exactly when the recipient has a colon or an even number of quotes; its value is what follows the first colon outside quotes, and it reads as meant when quotes are paired and enclose any colon |
| CalendarPrinter.QuotesLeft | internal/sendtest/sendtest.go:181-188 | what follows the first colon outside quotes of an escaped text has the quotes that are left |
| CalendarRecipient.EscapeShows | internal/sendtest/sendtest.go:181-188 | a text with a backslash, semicolon, comma or line break differs from its escaped form, letter case aside |
| CalendarRecipient.AddressExactly | internal/calendar/calendar.go:404-416 | the address taken from the printed line is the recipient, in lower case, exactly under the condition above |
| CalendarRoundTrip.InvitationUnfolds | internal/sendtest/sendtest.go:180-189 | a printed calendar unfolds to its own lines |
| CalendarRoundTrip.InvitationTokens | internal/sendtest/sendtest.go:180-189 | and these are a document of the grammar, or one is malformed |
| CalendarRoundTrip.SequenceRead | internal/calendar/calendar.go:449-455 | a printed sequence number is read back |
| CalendarRoundTrip.RoundTrip | internal/sendtest/sendtest.go:180-189 | parsing a printed invitation gives one event with its method, UID, sequence, status, times, newline-normalised summary, organizer and the attendee its line leaves, or nothing exactly for the recipients above |
| CalendarRoundTrip.RecipientExactly | internal/sendtest/sendtest.go:180-189 | the recipient is the one attendee's address of the one event exactly under the condition above |
| CalendarRoundTrip.LoneQuoteFails | internal/sendtest/sendtest.go:188 | a recipient with one quote, for which the whole calendar is refused |
| CalendarRoundTrip.BackslashDoubled | internal/sendtest/sendtest.go:188 | a recipient with a backslash, which comes back with two |
| Presentation.SelectPresentation | internal/mimeparse/presentation.go:17-54 | the dispatch computes the recursive selection whose laws are below |
| Presentation.SelectAlternative | internal/mimeparse/presentation.go:56-82 | its two forward loops find the last supported child, the fallback text before it, and the calendars of all others, as the recursive selection does from the end |
| Presentation.SelectMixed | internal/mimeparse/presentation.go:84-97 | its one loop finds the first supported child and collects everything else as attachments, in order |
| Presentation.SelectRelated | internal/mimeparse/presentation.go:99-126 | its loops find the root, by start parameter or first, and collect the others; nothing is selected without a supported root |
| PresentationLaws.ShownOnce | internal/mimeparse/presentation.go:17-165 | for every tree no part occurs twice among text, HTML and attachments, nor inside another |
| PresentationLaws.EveryLeafShown | internal/mimeparse/presentation.go:84-142 | in a supported tree without alternatives every leaf is shown exactly once |
| PresentationLaws.AlternativeTakesLast | internal/mimeparse/presentation.go:56-82 | an alternative takes its last supported child, and the text of the nearest earlier text-only one |
| PresentationLaws.AlternativeKeepsCalendars | internal/mimeparse/presentation.go:76-82 | every calendar leaf of a child not taken is attached, or an equal one is, and none is added twice |
| Svg.SanitizeSVG | internal/inspect/svg.go:50-139 | the token loop, refusals and the final check included, is the machine whose meaning is given below |
| Svg.SanitizePrunes | internal/inspect/svg.go:50-185 | a well-nested stream is refused, or its tree comes out without disallowed subtrees and comments; refused exactly when it is not acceptable |
| Svg.SanitizeIdempotent | internal/inspect/svg.go:50-185 | sanitising the result again changes nothing |
| OpenTags.PositionsAre | internal/inspect/html_analysis.go:174-177 | the indexed positions of a name are exactly the open elements of that name, ascending |
| OpenTags.LastPosition | internal/inspect/html_analysis.go:210-216 | the last one is where a top-down search would end |
| OpenTags.NearestAnchor | internal/inspect/html_analysis.go:178-181 | the nearest anchor is the innermost open one |
| OpenTags.CloseTag | internal/inspect/html_analysis.go:210-239 | an end tag closes the same elements as the top-down search, and keeps the index |
| OpenTags.JudgedOnce | internal/inspect/html_analysis.go:218-251 | every anchor is judged exactly once, however the tags nest |
| OpenTags.AnalyzeHTML | internal/inspect/html_analysis.go:71-251 | the indexed loop gives each label to the anchor the plain stack would, judges the same anchors in the same order, and stops exactly past the node limit |
| EventHub.Channel.TrySend | internal/events/events.go:123-130 | a send succeeds exactly when there is room |
| EventHub.Hub.Subscribe | internal/events/events.go:89-115 | a subscriber joins at the present end of the log; a closed hub hands out a finished channel |
| EventHub.Hub.Unsubscribe | internal/events/events.go:104-113 | a channel is detached and closed once |
| EventHub.Hub.Broadcast | internal/events/events.go:117-135 | each subscriber with room gets the event, one without is detached and keeps what it has |
| EventHub.Hub.Close | internal/events/events.go:137-148 | every channel is closed, with what it still holds |
| EventHub.Run | internal/events/events.go:89-148 | in every reachable state each channel's consumed and buffered events are a gap-free piece of the broadcast log |

## Left out

- SQL, SQLite, migrations, JSON columns and addresses: tables are maps, a transaction is one atomic step that happens or does not.
- `mime.ParseMediaType`, transfer and charset decoding, and the semantic pass over the tree: a media type is an arbitrary function of the header value, decoded bytes are arbitrary.
- Unicode: letter case and white space are ASCII, and `Dashed` in `CalendarPrinter` gives one dash per byte where the source gives one per code point.
- Node paths are sequences of numbers, not dotted strings.
- The 64-bit wrap-around of `pop3Generation`, of message ids and of hub ids.
- `MarkRead` (operations.go:297-321), which has no caller, and `last_message_at` of a mailbox.
- Waiting for `pop3Mu` and context cancellation: a step that gives up changes nothing, like a failed one.
- MailStore.Store.StoreMessage: does not model the attachment rows and calendar events of the same transaction; events are applied in `Reconcile`.
- Pop3Session.Connection.ExecuteTransaction: does not model the wording of status lines and errors; a reply is its kind, its numbers and its payload.
- Serving.Serve: takes requests one at a time, as the lock does; a read error or a timeout of a connection is a `Drop`, which leaves the store alone by definition.
- Reconcile.EventTable.ApplyEvent: does not model the order of rows or the JSON form of attendees.
- ResourceCache.Resources.MutateKey: does not model the choice of keys by a matcher; a mutate of several keys is one such step for each.
- CacheTrim.Trim: does not model the engine's sort, but the one stable order it must produce.
- Promises are numbered requests whose answer and settlement are separate steps; the render calls of listeners are not modelled, as they change no entry.
- Calendar dates and time zones: reading a time, adding days and the final millisecond check of `addTo` are parameters or left out; the duration pattern is taken as matched.
- CalendarRoundTrip.RoundTrip: takes as given that the clock reads back the times it formatted.
- MIME wrapping of the printed calendar (quoted-printable, boundaries) before it reaches the parser.
- Svg: the allow-lists, the style pattern and the XML decoder and encoder are parameters; the source's allow-list has no `xmlns`, as `SanitizeIdempotent` asks.
- OpenTags: the HTML tokenizer, bounded text accumulation, `activeIDs` and the link rules; a label is the text given to an anchor, before joining and cutting.
- EventHub.Channel.TrySend: does not model a receiver blocked on an empty channel apart from a buffered one; the `once` of the unsubscribe closure is not needed, as a second call finds nothing.
- Active-content recovery in `inspect.go`, the rule catalogue, compatibility tables, OpenAPI, user interface and networking.
