# Verified core of the project tracker

This project models the parts of the application whose correctness is hard to see from any one
function, and proves what they are written to keep. To verify it, run

    dafny verify dfyconfig.toml

Each module follows one source file, or one machine spread over two.

| module | what it models | main results |
|---|---|---|
| `Money`, `Invoice`, `Storno`, `InvoiceNumber` | decimal money, VAT bands, Storno negation, stored-line checks, printed numbers | totals ignore line order; band sums; Storno commutes with derivation; decimal text and invoice numbers read back |
| `Upload` | the resumable upload loop, its wire calls, the server and a lossy network | what is staged stays a prefix of the file in every run; run length is bounded exactly when the number of HEADs that lose their offset header is |
| `Sse` | the shared event source | one open source, one listener per subscribed name, each handler called once per frame, over every run |
| `Audit` | the audit feed's fetches and page appends | ids stay distinct under every interleaving; exactly when `loadingMore` can clear and when a page loses rows |
| `Workers` | the per-project queue of worker edits | strict serialisation; what shows whenever none runs, over every run, and when that is the last confirmed assignment |
| `Escape` | the Escape stack and its keydown listeners | one press fires the latest handler of the latest surface present, in every run |
| `Sweeper` | the periodic sweeper and the session reaper | log balance, back-off schedule, the two copies are step-for-step equal |
| `Namer`, `Sanitiser` | archive names and filename segments | distinct ignoring case; clean segments, and by the cut exactly when a second pass changes one |
| `Base64` | base64url and DEK codecs over `btoa`/`atob` | round trips both ways, exactly on canonical text |
| `Routes`, `OpenApi` | the gate check and the published document | the check is exact against running the hook chain; the annotation is faithful exactly when routes of one key agree, which brace-free URLs ensure |
| `Grouping` | Storno display order | a permutation in blocks, order kept, idempotent |
| `Mirror` | the versioned bucket mirror | nothing destroyed, what is current afterwards, updates point at current versions |

`Wrappers` and `Digits` hold the result types and decimal digit text the others share. An operation
the source performs by updating state is a class with methods, or a method with loops; a pure step
or specification function says what it computes, and the lemmas are about that function.

## Assumptions

- Amounts are exact decimals (`real`): they stay within 15 significant digits, so a double's shortest
  decimal is the amount itself (src/domain/money.ts:2-4). Negated zero equals zero, as under `===`.
- Each promise callback, event and completion is one step; steps may interleave in any order that the
  `Enabled` predicate of the machine allows. Worker tasks never reject, as their bodies catch.
- The upload server obeys src/server/routes/import-jobs.ts and src/server/errors.ts:213-230, one PATCH
  at a time, and a cached offset comes from the same job. Only a successful HEAD without its
  `Upload-Offset` header reports less than is staged; a monotone server sends none.
- `EventSource` follows section 9.2 of the HTML Standard and listener dispatch section 2.9 of the DOM
  Standard: the listener list is copied at dispatch and removed listeners are skipped.
- Fastify runs instance hooks before route-level ones. `createAuthMiddleware` answers 401 or attaches
  the user, and nothing else attaches one.
- Lower-casing acts on each character alone and leaves digits, space and parentheses unchanged.
- The bucket is versioned. Its listing returns each current key under the prefix once.

## Findings

The code is modelled as it is. These are the points where a stated or natural promise fails, each with
an input and the condition under which it holds:

- A page append overtaken by a fetch leaves `loadingMore` set for good, short of a reset
  (`Audit.OvertakenAppendSticks`, `Audit.StuckUntilReset`). A set mark can clear without a reset exactly
  when an append that is not superseded is in flight (`Audit.ClearsExactlyWhenLive`).
- `reset` does not discard a page in flight, which then lands on the emptied list, filtered by the ids
  captured before: a page can vanish (`Audit.ResetLosesRows`). The list holds every id of the page exactly
  when no reset came between or the append had captured none of them (`Audit.LiveAppendLands`).
- The stall breaker does not end the upload loop against every server: a HEAD without its offset header,
  then one with it, clears the count for ever (`Upload.SeeSawNeverEnds`). Run length is bounded exactly
  when the number of such HEADs is, or the file has at most one byte (`Upload.EndsExactlyWithinBudget`).
- A session that expires under a worker edit leaves the edit's own assignment showing
  (`Workers.UnconfirmedStays`), through every refused edit after it, until one is confirmed or expires
  again (`Workers.ExpiryKeepsOptimistic`). With every expiry
  followed by a confirmation the last confirmed assignment shows (`Workers.ShowsLastConfirmed`); what
  shows after any run is `Workers.ShowsLastLeft`.
- Sanitising is not idempotent (`Sanitiser.CutCanExposeDot`): it is exactly unless the text is longer
  than 40 units and the 40th is a dot or dash (`Sanitiser.StableExactlyUnlessCutAtEdge`).
- The sanitiser is said to turn whitespace into dashes, but tabs and line ends are control characters
  and dropped first: words with nothing else between them are joined (`Sanitiser.OtherGapsVanish`).
- Where two routes share an operation key, the document follows the one registered last, so
  `GET /:a` behind a session is published as public when `GET /{a}` follows it
  (`OpenApi.BracesHideAGate`). The annotation is right for all of them exactly when they agree
  (`OpenApi.AnnotationExactWhenRoutesAgree`); URLs without braces never collide
  (`OpenApi.RoutesWithoutBracesDiffer`).

## Model

| member | source | states |
|---|---|---|
| Money.Round2IsCommercial | src/domain/money.ts:9-12 | rounding yields the one value that is a nearest whole cent and, of two equally near, the one farther from zero |
| Money.HalfUpIsNearest | src/domain/money.ts:10-12 | `Big.roundHalfUp` characterised without its formula, in both directions |
| Money.Round2IsOdd | src/domain/money.ts:10-17 | rounding commutes with negation, ties included |
| Money.Round2FixesCents | src/domain/money.ts:10-17 | whole cents are left as they are |
| Money.AtMostDecimalsMeaning | src/domain/money.ts:19-22 | accepts exactly the multiples of 10^-dp, of either sign |
| Money.FormatDecimalReadsBack | src/domain/money.ts:30-37 | the printed text reads back exactly without `maxDp` and as the commercially rounded value with it, has at least `minDp` decimals and no superfluous ones, no superfluous leading zero, and never a signed zero |
| Money.RoundToIsNear | src/domain/money.ts:32 | rounding to `dp` decimals is off by at most half a unit of the last place |
| Money.RoundToIsCommercial | src/domain/money.ts:32 | rounding to `dp` decimals yields the one value nearest at that scale, ties away from zero |
| Money.ReadToFixed | src/domain/money.ts:33-36 | plain fixed text reads back to the value, with exactly the decimals asked for, and has a minus sign exactly for negative values |
| Invoice.GroupByRate | src/domain/invoice.ts:265-270 | the loop's map has one entry per rate in use, holding that rate's line totals in line order |
| Invoice.ComputeInvoiceTotals | src/domain/invoice.ts:245-300 | the loop computes the totals that `StandardTotals`, `ReverseChargeTotals` and the Storno lemmas characterise, in every mode and for the empty list |
| Invoice.TotalsIgnoreOrder | src/domain/invoice.ts:255-305 | totals are equal for any two lists with the same lines in any order |
| Invoice.StandardTotals | src/domain/invoice.ts:255-300 | bands are one per rate, ascending; net, band nets and band taxes are commercially rounded; gross is exactly net plus tax; tax stays within half a cent per rate of the exact tax; with whole-cent lines the band nets sum exactly to the net total |
| Invoice.ReverseChargeTotals | src/domain/invoice.ts:254-263 | for every list: no bands, no tax, gross equals net, and net is the commercially rounded sum of the line totals, exact for whole cents |
| Invoice.TaxIsPercentage | src/domain/invoice.ts:276-280 | a rate is a percentage of the net |
| Invoice.HundredAtNineteen | src/domain/invoice.ts:245-300 | one line of 100.00 at 19 %: tax 19.00 and gross 119.00, and under reverse charge gross 100.00 |
| Invoice.NetsCover | src/domain/invoice.ts:265-275 | the rates partition the lines: the nets per rate add up to the net of all lines |
| Invoice.BandSums | src/domain/invoice.ts:271-282 | sums over the bands stay within half a cent for each rate, and are exact for whole-cent lines |
| Invoice.TaxSum | src/domain/invoice.ts:274-283 | total tax is within half a cent per rate of the sum of net times rate |
| Invoice.BandsNeedCents | src/domain/invoice.ts:271-282 | for line totals no check has passed: a two-line list with half-cent totals whose band nets do not add up to the net total |
| Invoice.AscendingSorts | src/domain/invoice.ts:271-272 | sorting the map's entries lists each rate once, ascending |
| Storno.CollectInvalidInput | src/domain/invoice.ts:188-206 | the list of broken input rules, in the order they are pushed |
| Storno.CollectInvalidStored | src/domain/invoice.ts:213-222 | the list stays empty exactly for the stored form of a valid line |
| Storno.StoredLineAccepted | src/domain/invoice.ts:183-222 | the stored-line check accepts exactly the well-typed lines with positive quantity, at most four price decimals, an allowed rate and the commercially rounded product as line total |
| Storno.QuantityAndPriceGiven | src/domain/invoice.ts:183-206 | exactly when the two numeric fields are reported |
| Storno.FaultsMeaning | src/domain/invoice.ts:183-206 | the check names exactly the fields that break their rule, each once |
| Storno.DerivedLineKeeps | src/domain/invoice.ts:176-179 | a derived line keeps the client's fields and adds the commercially rounded product |
| Storno.DerivedLineIsStored | src/domain/invoice.ts:176-222 | deriving a line total adds no fault: a derived line is stored-valid exactly as far as its input was valid |
| Storno.ValidLinesAreCents | src/domain/invoice.ts:208-222 | lines that pass the stored-line check have whole-cent totals |
| Storno.DerivedTotalsAreExact | src/domain/invoice.ts:176-300 | whatever lines a client wrote, the derived invoice adds up exactly: line totals, band nets and net total agree, and gross is net plus the band taxes |
| Storno.StoredTotalsAreExact | src/domain/invoice.ts:208-300 | so does every list whose lines pass the stored-line check |
| Storno.StandardModeBands | src/domain/invoice.ts:163-283 | with the rates of standard mode there are at most two bands, none at 0 %, and total tax is within a cent of the exact tax |
| Storno.NegationIsInvolution | src/domain/invoice.ts:342-370 | negating lines or totals twice gives them back |
| Storno.NegatedLineKeeps | src/domain/invoice.ts:347-353 | description, quantity, unit and rate stay; price and total change sign |
| Storno.NegatedTotalsKeepRates | src/domain/invoice.ts:355-370 | rates stay; every amount cancels its original |
| Storno.NegatedLineHasSameFaults | src/domain/invoice.ts:208-222 | a negated line has exactly the faults of its original, so a valid line stays valid |
| Storno.StornoCommutes | src/domain/invoice.ts:342-370 | totals recomputed from negated lines equal the negated stored totals, for all lines and modes |
| Storno.StornoCancels | src/domain/invoice.ts:342-370 | original and Storno lines together net to zero in every field and band |
| Storno.TotalsMatchMeaning | src/domain/invoice.ts:320-340 | the comparison accepts exactly the stored object that carries the derived totals, of whatever shape the JSON is |
| Storno.StornoMatchesAsOriginal | src/domain/invoice.ts:320-370 | a Storno's negated totals pass the import comparison exactly when the original's do |
| InvoiceNumber.NumberReadsBack | src/domain/invoice.ts:372-381 | a printed number gives back its kind, year and value, for all naturals |
| InvoiceNumber.NumbersNeverCollide | src/domain/invoice.ts:372-381 | two numbers print alike exactly when they are the same number |
| InvoiceNumber.NumberShape | src/domain/invoice.ts:372-381 | RE or ST, the year, and exactly four digits for a value below ten thousand, its own digits from there on |
| Upload.StagedStaysPrefix | src/state/importJobStore.ts:167-221 | in every run what is staged only grows, and is a prefix of the file exactly when it was one; leaving with the offset at the size means the whole file is staged |
| Upload.ExecExtends | src/state/importJobStore.ts:182-220 | new bytes are the file's own at their own positions, within the declared length, and the client's offset never exceeds what is staged |
| Upload.PatchExtends | src/api/client.ts:1055-1087 | one PATCH, whatever the network does to it, appends only bytes of the file in place |
| Upload.UploadTerminates | src/state/importJobStore.ts:182-220 | the case of no lost offset header (a monotone server): the loop ends within five turns for every byte left plus five, whatever else is lost |
| Upload.RunEndsByDrops | src/state/importJobStore.ts:182-220 | whatever the network loses, the loop ends within a fixed number of turns for the file plus a fixed number for each HEAD that lost its header |
| Upload.EndsExactlyWithinBudget | src/state/importJobStore.ts:182-220 | over all servers and runs, run length is bounded if and only if the number of HEADs without header is, or the file has at most one byte |
| Upload.RunsAreShort | src/state/importJobStore.ts:182-220 | every turn uses up an allowance of bytes left and stalls left, which only a HEAD without its header refills, by a fixed amount |
| Upload.SeeSawNeverEnds | src/state/importJobStore.ts:202-214 | n lost headers carry the loop through 2n turns back to where it began |
| Upload.ClearNetworkCompletes | src/state/importJobStore.ts:167-221 | over a network that loses nothing the whole file ends up staged within the turns the bytes left allow |
| Upload.AnsweredUploadCompletes | src/state/importJobStore.ts:190-220 | from any offset behind the server's, and even if PATCH replies lack their offset header, the upload completes as long as requests are answered: a conflict is resolved by the HEAD |
| Upload.StuckLoopStopsAtFive | src/state/importJobStore.ts:190-214 | without progress the loop stops on the fifth turn, not before and not later |
| Upload.OtherFailureStops | src/state/importJobStore.ts:217-220 | a lost request or reply, and any answer but success and conflict, ends the loop at once at the offset it had |
| Upload.ChunkIsNext | src/state/importJobStore.ts:184 | a chunk is the file's next 8 MiB, or what is left of it |
| Upload.ImportJobStore.Upload | src/state/importJobStore.ts:167-221 | the action performs one complete run of the loop from the HEAD's or the cached offset, reporting its last offset, and ends over any link that loses finitely many headers |
| Upload.Link.Patch | src/api/client.ts:1055-1087 | the wire call's result and the server's new state under any fate of the request |
| Upload.Link.Head | src/api/client.ts:1038-1053 | the probe's result under any fate, a missing header counting as offset 0 |
| Sse.BusStaysConsistent | src/sse/client.ts:36-133 | over every run: at most one source is not closed, none when no handler is registered, a live source has one listener for each name with a registered handler and none for others, and a frame reaches each handler subscribed and not unsubscribed since, once, in order of addition |
| Sse.HandlersAreHistory | src/sse/client.ts:108-132 | over every run the handlers of a name are those its subscriptions and unsubscriptions leave, in order of addition |
| Sse.RegisteredMeaning | src/sse/client.ts:108-132 | a handler is registered exactly if some subscription of it has no unsubscription after, and then once |
| Sse.SourcesOnDemand | src/sse/client.ts:36-73 | a source is opened only by a subscription that finds no live one, and a live one stays until it closes or the last handler goes |
| Sse.RunKeepsInv | src/sse/client.ts:36-133 | the module invariant holds after every sequence of calls and browser transitions |
| Sse.SubscribeKeepsInv | src/sse/client.ts:108-117 | after a subscription the source is live and the handler is registered, dead sources being replaced |
| Sse.UnsubscribeKeepsInv | src/sse/client.ts:119-132 | dropping a handler keeps the invariant, closing the source with the last one |
| Sse.SseClient.OnSseEvent | src/sse/client.ts:108-117 | the whole new module state, source recreation and listener included |
| Sse.SseClient.Unsubscribe | src/sse/client.ts:119-132 | the whole new module state, listener removal and tear-down included |
| Sse.SseClient.EnsureSource | src/sse/client.ts:36-73 | the loop over the subscribed names gives the new source one listener for each |
| Sse.SseClient.AttachDomListener | src/sse/client.ts:75-90 | adds a listener only for a name not tracked yet |
| Sse.SseClient.TeardownIfIdle | src/sse/client.ts:92-101 | with no handler left, removes all tracked listeners and closes the source |
| Sse.SseClient.OnError | src/sse/client.ts:59-64 | forgets the source exactly when it is closed |
| Sse.SseClient.Frame | src/sse/client.ts:75-90 | a frame calls the handlers registered at dispatch, in order, each once, whatever they subscribe or unsubscribe meanwhile; one that throws is cut short itself and the next is called all the same |
| Audit.IdsStayDistinct | src/state/auditStore.ts:80-146 | under every interleaving of fetches, appends, resets and out-of-order responses the ids stay distinct, and a superseded response changes nothing |
| Audit.RunKeepsInv | src/state/auditStore.ts:80-146 | while an append is not superseded, the entries are those it captured or have been emptied by a reset |
| Audit.AppendKeepsDistinct | src/state/auditStore.ts:133-140 | appending a page without its known ids keeps ids distinct and loses no id of the page |
| Audit.LiveAppendLands | src/state/auditStore.ts:110-146 | an arriving live page extends exactly the captured list, or after a reset the emptied one, and clears `loadingMore`; every id of the page is then listed exactly when no reset came between or none of its ids had been captured |
| Audit.EntriesAreHistory | src/state/auditStore.ts:80-146 | over every run the entries are the last list page landed since a reset followed by the new rows of the appends landed since, where a page lands if no call was made after the one it answers |
| Audit.LiveListLands | src/state/auditStore.ts:94-107 | the page of a list request not superseded replaces the rows and the total and ends the loading; its failure keeps the rows |
| Audit.LiveAppendSettles | src/state/auditStore.ts:124-143 | an append's page sets the total, its failure keeps the rows, and both end the loading of more |
| Audit.FreshFilters | src/state/auditStore.ts:137-138 | an append keeps the rows with unknown ids in page order |
| Audit.AppendAsksForNext | src/state/auditStore.ts:110-123 | an append asks for the page that starts where the shown rows end, unless something loads or all rows are shown; then it does nothing |
| Audit.FetchAsks | src/state/auditStore.ts:85-93 | a fetch takes the filters given or else those in force, with the default page size where they name none, and keeps the rows on show |
| Audit.ResetRestores | src/state/auditStore.ts:146 | a reset restores the default filters and the empty list and leaves counter and calls in flight |
| Audit.LiveAppendEntries | src/state/auditStore.ts:110-146 | over every run the entries under a live append are those it captured, or none if a reset came since |
| Audit.ResetLosesRows | src/state/auditStore.ts:133-146 | a run (fetch, page, append, reset, page) that ends with an empty list although its last page was not empty |
| Audit.StuckUntilReset | src/state/auditStore.ts:112-124 | `loadingMore` without a live append never clears again short of a reset |
| Audit.OvertakenAppendSticks | src/state/auditStore.ts:85-124 | a fetch issued over an append in flight reaches that state from any state |
| Audit.ClearsExactlyWhenLive | src/state/auditStore.ts:110-146 | a set `loadingMore` can still clear without a reset exactly when a live append is in flight |
| Audit.AuditStore.StartFetchList | src/state/auditStore.ts:85-93 | the store's whole new state up to the request, with the call's captured ticket |
| Audit.AuditStore.FinishFetchList | src/state/auditStore.ts:94-107 | the store's whole new state after a response, discarded, refused, expired or landed |
| Audit.AuditStore.StartAppendNextPage | src/state/auditStore.ts:110-123 | no call when loading or complete; otherwise a new ticket with the entries captured |
| Audit.AuditStore.FinishAppendNextPage | src/state/auditStore.ts:124-143 | the store's whole new state after a page, discarded, refused, expired or landed |
| Audit.AuditStore.Reset | src/state/auditStore.ts:146 | the initial fields return, while the counter and calls in flight stay |
| Workers.EditsAreSerial | src/state/projectStore.ts:219-296 | edits of one project start only when all earlier ones have settled, never two at a time, and while one is unsettled the queue holds the last dispatched |
| Workers.ChainNeverStalls | src/state/projectStore.ts:229-295 | while an edit is unsettled, one of its project's runs or may start |
| Workers.ShowsLastConfirmed | src/state/projectStore.ts:230-283 | in every run where each expired edit is followed by a confirmed one, whenever none runs the assigned set is the last server-confirmed one and the in-flight mark is off |
| Workers.ShowsLastLeft | src/state/projectStore.ts:230-283 | over every run, whenever none runs, the assigned set is what the last edit not refused left (the server's reply, or an expired edit's own set), and the in-flight mark is set exactly if the last edit expired |
| Workers.UnconfirmedStays | src/state/projectStore.ts:258-261 | a run of one edit whose session expires, after which a set the server never confirmed shows |
| Workers.RunKeepsBaseline | src/state/projectStore.ts:231-281 | over every run a running edit holds what the earlier edits left as its roll-back baseline |
| Workers.ExpiryKeepsOptimistic | src/state/projectStore.ts:258-273 | after an expired edit its own set shows through any number of refused edits, and the in-flight mark stays until the first of them |
| Workers.RunKeepsSerial | src/state/projectStore.ts:229-295 | the queue map always holds the tail of a chain in dispatch order |
| Workers.QueueDrains | src/state/projectStore.ts:285-295 | once all of a project's edits have finished its queue entry is gone |
| Workers.NoProjectAppears | src/state/projectStore.ts:231-281 | edits list no project the store did not hold |
| Workers.ProjectStore.UpdateAssignedWorkers | src/state/projectStore.ts:219-288 | the call chains a task onto the project's tail and becomes the tail |
| Workers.ProjectStore.Begin | src/state/projectStore.ts:230-238 | the optimistic set shows, with the earlier one kept for roll-back |
| Workers.ProjectStore.Complete | src/state/projectStore.ts:240-282 | confirmed, refused and expired outcomes and the state each leaves |
| Workers.ProjectStore.DropFromQueue | src/state/projectStore.ts:289-295 | the entry is dropped only when no newer task has replaced it |
| Escape.PressFiresLatestPresent | src/hooks/useEscapeKey.ts:32-46 | after every run one press fires exactly the latest handler of the latest surface still present |
| Escape.StateIsHistory | src/hooks/escapeStack.ts:24-45 | the stack and the listener list are the surfaces mounted and not unmounted, oldest first, each with its latest handler |
| Escape.ErasedIsRemoved | src/hooks/escapeStack.ts:37-40 | splicing the last occurrence out removes exactly that token |
| Escape.RunKeepsInv | src/hooks/escapeStack.ts:24-45 | listener order stays stack order and tokens stay unique |
| Escape.EscapeRegistry.RegisterEscape | src/hooks/escapeStack.ts:30-34 | a new token comes on top |
| Escape.EscapeRegistry.UnregisterEscape | src/hooks/escapeStack.ts:37-40 | the token goes and the others keep their order; a no-op when absent |
| Escape.EscapeRegistry.OnKeyDown | src/hooks/useEscapeKey.ts:35-40 | fires only when the token is on top |
| Escape.EscapeRegistry.Press | src/hooks/useEscapeKey.ts:32-46 | at most one handler fires at dispatch to all listeners, even if it mounts or unmounts surfaces synchronously |
| Sweeper.LogBalance | src/server/periodicSweeper.ts:91-117 | sustained minus recovered lines is 1 exactly while the failure count is at least 3, else 0; the back-off never exceeds 24 |
| Sweeper.StateIsHistory | src/server/periodicSweeper.ts:91-117 | over every run the count is the failures since the last success, and the log is exactly the lines these call for |
| Sweeper.FailuresInARowMeaning | src/server/periodicSweeper.ts:97-100 | that count is the number of failures after the last success |
| Sweeper.LogBalanceByHistory | src/server/periodicSweeper.ts:94-111 | sustained minus recovered lines is 1 exactly while three or more sweeps in a row have failed |
| Sweeper.NextStart | src/server/periodicSweeper.ts:70-76 | in every run exactly 0, 0, 2, 4, 8, 16, then 24 ticks pass idly after the first, second and later failure in a row, none after a success |
| Sweeper.FailuresLogged | src/server/periodicSweeper.ts:99-105 | as many failure lines as failures |
| Sweeper.NoOverlap | src/server/periodicSweeper.ts:70-79 | starts exceed completions by one exactly while a sweep is in flight |
| Sweeper.TwentyFiveIdleTicksStart | src/server/periodicSweeper.ts:70-76 | any 25 ticks with none in flight start at least one sweep, anywhere in a run |
| Sweeper.OutageSchedule | src/server/periodicSweeper.ts:99-116 | if every sweep fails before the next tick, attempt n falls on tick 1, 2, 3, 6, 11, 20 and then 37+25(n-7), and on no other |
| Sweeper.StoppedStartsNothing | src/server/periodicSweeper.ts:83-88 | after stop no sweep starts |
| Sweeper.PeriodicSweeper.OnTick | src/server/periodicSweeper.ts:70-79 | the new state and whether a sweep starts |
| Sweeper.PeriodicSweeper.OnResolved | src/server/periodicSweeper.ts:93-98 | the new state and log after a success |
| Sweeper.PeriodicSweeper.OnRejected | src/server/periodicSweeper.ts:99-116 | the new state and log after a failure: the back-off doubles up to the cap |
| Sweeper.SessionReaper.OnTick | src/server/session-reaper.ts:49-58 | the same step as the sweeper's tick |
| Sweeper.SessionReaper.OnResolved | src/server/session-reaper.ts:76-85 | the same step as the sweeper's success, plus its own clean-up line |
| Sweeper.SessionReaper.OnRejected | src/server/session-reaper.ts:86-96 | the same step as the sweeper's failure |
| Sweeper.RunTwins | src/server/session-reaper.ts:44-97 | driven by the same events both machines pass through the same states with the same log, event by event, whatever each sweep deletes |
| Namer.NamesAreDistinct | src/domain/filename.ts:44-62 | for every sequence of names the answers are pairwise distinct ignoring case, each keeping its name's extension and, as a prefix, its stem |
| Namer.NamesAvoidTaken | src/domain/filename.ts:52-62 | no answer repeats a name taken before, ignoring case |
| Namer.FreeNameUnchanged | src/domain/filename.ts:57-60 | a name comes back unchanged exactly when it is free |
| Namer.TakenNameNumbered | src/domain/filename.ts:55-60 | otherwise the answer is `stem (n).ext` for the least free n of at least 2 |
| Namer.ExtensionMeaning | src/domain/filename.ts:55-56 | the extension starts at the last dot, unless that is the first character or there is none |
| Namer.CandidatesDiffer | src/domain/filename.ts:57-58 | no two suffixes give names equal ignoring case, so the search runs through new names only |
| Namer.PickIsBounded | src/domain/filename.ts:58 | the search ends after at most one more try than names are taken |
| Namer.DistinctNamer.Name | src/domain/filename.ts:54-61 | returns the least free candidate and takes it |
| Sanitiser.SegmentIsClean | src/domain/filename.ts:19-31 | at most 40 code units, no control, reserved or whitespace unit, no double dash, no leading dot or dash |
| Sanitiser.SecondApplicationIsFixpoint | src/domain/filename.ts:19-31 | a second application only trims trailing dots and dashes, and its result is fixed |
| Sanitiser.StableExactlyUnlessCutAtEdge | src/domain/filename.ts:28-29 | one application is enough exactly when the text before the cut fits or the last unit the cut keeps is neither dot nor dash |
| Sanitiser.CutCanExposeDot | src/domain/filename.ts:28-29 | a value whose result ends in a dot, so that one application is not enough |
| Sanitiser.PlainUnitsSurvive | src/domain/filename.ts:19-31 | units no rule mentions survive in order: all before the cut, a prefix after it |
| Sanitiser.WordsStayParted | src/domain/filename.ts:21-28 | words parted by whitespace stay parted by one dash and are sanitised each on its own |
| Sanitiser.OtherGapsVanish | src/domain/filename.ts:23-24 | words with only control characters (tab and line ends too) or reserved ones between them are joined |
| Sanitiser.NoForbiddenUnit | src/domain/filename.ts:19-31 | the limits in plain characters: forty units, no leading dot or dash, no control character, blank or reserved character |
| Base64.BytesRoundTrip | src/pwa/pushClient.ts:99-102 | regrouping bytes into sextets loses nothing |
| Base64.SextetsRoundTrip | src/pwa/pushClient.ts:83-91 | canonical sextets survive decoding and encoding |
| Base64.CanonicalMeaning | src/pwa/pushClient.ts:83-91 | canonical is: no lone sextet and zero padding bits, by length alone |
| Base64.SextetsAreBigEndian | src/pwa/pushClient.ts:102 | each group of bytes is one number read most significant bits first, filled up with zeros |
| Base64.SymbolIsTable | src/pwa/pushClient.ts:102 | the standard alphabet in its order |
| Base64.UrlTextUsesSafeSymbols | src/pwa/pushClient.ts:102 | one character for each sextet, minus and underscore for plus and slash, no padding |
| Base64.EncodedIsPadded | src/domain/clientEncryption.ts:122-134 | a key's text is whole quartets of the standard alphabet with trailing padding |
| Base64.AtobOfEncoded | src/domain/clientEncryption.ts:128-146 | `atob` after `btoa` is the identity on Latin-1 text |
| Base64.UrlBytesRoundTrip | src/pwa/pushClient.ts:83-102 | for every byte sequence decoding after encoding is the identity, with padding stripped and rebuilt |
| Base64.UrlTextRoundTrip | src/pwa/pushClient.ts:83-102 | encoding after decoding gives the text back exactly for canonical unpadded text |
| Base64.UrlBase64ToArrayBuffer | src/pwa/pushClient.ts:83-91 | the byte loop fills a new buffer with the decoded bytes, or fails exactly when `atob` does |
| Base64.ArrayBufferToBase64Url | src/pwa/pushClient.ts:98-103 | the loop and replacements produce the URL-safe unpadded encoding of the buffer |
| Base64.DekRoundTrip | src/domain/clientEncryption.ts:128-163 | the codec gives back exactly the 32-byte keys and refuses every other length |
| Base64.DekTextIsFaithful | src/domain/clientEncryption.ts:128-163 | different keys never share text, and decoded text stands for a 32-byte key |
| Base64.EncodeDekMaterial | src/domain/clientEncryption.ts:128-134 | the loop encodes the key's bytes |
| Base64.DecodeDekMaterial | src/domain/clientEncryption.ts:143-163 | the loop returns a new 32-byte array, or the error of the step that failed |
| Routes.GateCheckIsExact | scripts/lib/route-introspection.ts:200-207 | the check passes exactly when no caller and no behaviour of other hooks lets an access gate run before a user is attached |
| Routes.ReportedRouteIsDead | scripts/lib/route-introspection.ts:209-243 | a reported route never reaches its handler and, where other hooks let it through, answers 401 to every caller |
| Routes.PassingRouteServes | scripts/lib/route-introspection.ts:136-156 | on a passing route an authenticated caller reaches the handler exactly when `gatesAdmit` holds and gets 403 otherwise; an anonymous one exactly when the route is not session-gated |
| Routes.GatesAdmitMeaning | scripts/lib/route-introspection.ts:136-156 | admitted exactly if each permission gate lists a permission some role of the caller grants and each role gate lists one of the caller's roles |
| Routes.DeclaredMembers | scripts/lib/route-introspection.ts:165-183 | exactly the automatic HEAD companions are dropped |
| Routes.AutoHeadMeaning | scripts/lib/route-introspection.ts:170-183 | a route is the automatic companion exactly if it serves HEAD alone and the last GET route of its URL has its handler |
| Routes.WithoutAutoHeadRoutes | scripts/lib/route-introspection.ts:170-183 | the map of GET handlers drops the companions and keeps the rest in order |
| Routes.AssertGatesAuthenticate | scripts/lib/route-introspection.ts:227-243 | reports exactly the declared routes whose gates do not authenticate |
| OpenApi.PathReadsBack | scripts/lib/openapi-document.ts:132-134 | URLs without braces convert back, so no two collide |
| OpenApi.KeyIsInjective | scripts/lib/openapi-document.ts:147-149 | keys are equal exactly for the same path and methods equal up to case |
| OpenApi.GatherGates | scripts/lib/openapi-document.ts:166-172 | the map holds the gating of the last route registered with each key |
| OpenApi.AnnotateItem | scripts/lib/openapi-document.ts:174-189 | one path item: every operation annotated, or an operation no route matches |
| OpenApi.ApiDocument.ApplySecurity | scripts/lib/openapi-document.ts:165-192 | succeeds exactly when every published operation matches a route, and then the document is the annotated one |
| OpenApi.AssertEveryRoutePublished | scripts/lib/openapi-document.ts:217-253 | passes exactly when every declared, visible route is published under each of its methods |
| OpenApi.MissingRouteForgiven | scripts/lib/openapi-document.ts:226-242 | a route may be missing only if it hides itself or is automatic |
| OpenApi.PublishedMethods | scripts/lib/openapi-document.ts:218-223 | the operations of a path item are the eight OpenAPI knows |
| OpenApi.PublishedKeys | scripts/lib/openapi-document.ts:218-223 | exactly the keys of the published operations |
| OpenApi.DocumentIsFaithful | scripts/lib/openapi-document.ts:151-253 | with both checks passed and unique keys: every visible route is published, every operation has a route, and its requirement is non-empty exactly when that route is session-gated |
| OpenApi.AnnotationExactWhenRoutesAgree | scripts/lib/openapi-document.ts:166-188 | an operation's requirement is right for all its routes exactly when those routes agree |
| OpenApi.RoutesWithoutBracesDiffer | scripts/lib/openapi-document.ts:132-172 | routes with different methods or URLs, free of braces, never share an operation key |
| OpenApi.BracesHideAGate | scripts/lib/openapi-document.ts:132-188 | two registrable routes that collide: both checks pass and the session-gated one is published as needing no session |
| OpenApi.SamePublished | scripts/lib/openapi-document.ts:174-189 | annotating publishes and hides nothing |
| Grouping.OrderInvoicesWithStornoGrouping | src/domain/invoiceGrouping.ts:21-40 | the nested loops produce the grouped order; on any list, every id is emitted and nothing foreign |
| Grouping.GroupingIsPermutation | src/domain/invoiceGrouping.ts:21-40 | no row is lost or shown twice |
| Grouping.StornosFollowOriginal | src/domain/invoiceGrouping.ts:24-35 | each original is followed immediately by all its Stornos in input order, and orphans come last |
| Grouping.OrphansAreStrays | src/domain/invoiceGrouping.ts:36-38 | orphans are exactly the Stornos whose original is not listed |
| Grouping.OriginalsMeaning | src/domain/invoiceGrouping.ts:26 | a row without a reference, or with an empty one, is an original |
| Grouping.GroupingKeepsOrder | src/domain/invoiceGrouping.ts:12-16 | originals, siblings and orphans each keep input order |
| Grouping.GroupingIsIdempotent | src/domain/invoiceGrouping.ts:21-40 | regrouping changes nothing |
| Mirror.ReadTargets | scripts/ops/restore-bucket-objects.py:137-165 | the loops build the target map that `TargetsOfRow` spells out, or stop at the first row that fails |
| Mirror.RowsAccepted | scripts/ops/restore-bucket-objects.py:137-165 | rows are accepted exactly when each is complete and no key belongs to two objects; each key then carries its own row's target and no other key any |
| Mirror.TargetsOfRow | scripts/ops/restore-bucket-objects.py:145-164 | an accepted row in its fields: which column carries the envelope, its version and the invoice number of the original and of the thumbnail, and which says that a version was set |
| Mirror.TargetsAreNamed | scripts/ops/restore-bucket-objects.py:145-164 | the keys known are exactly those a row names |
| Mirror.FirstFaultNamed | scripts/ops/restore-bucket-objects.py:141-157 | the first row at fault is reported by its own fault |
| Mirror.TargetFromRow | scripts/ops/restore-bucket-objects.py:145-164 | each key's metadata is that of a row naming it, as original or thumbnail |
| Mirror.Bucket.Ship | scripts/ops/restore-bucket-objects.py:180-215 | each dumped key with a row gains one version with its body, metadata and lock, nothing else changes, and the run goes on exactly if the service answered each PUT as needed |
| Mirror.Bucket.Clean | scripts/ops/restore-bucket-objects.py:223-233 | exactly the stale keys gain a delete marker, or the run stops at a refused delete |
| Mirror.Bucket.Restore | scripts/ops/restore-bucket-objects.py:177-245 | a bad row leaves the bucket unchanged; otherwise no version is destroyed and nothing outside the mirror's keys changes, even when aborted; the run completes exactly when every call succeeds, and then has mirrored |
| Mirror.MirrorLeaves | scripts/ops/restore-bucket-objects.py:177-245 | afterwards the current keys under the prefix are exactly the shipped ones and the reserved ones that were current |
| Mirror.CurrentByRows | scripts/ops/restore-bucket-objects.py:177-233 | in row fields: a key under the prefix is current afterwards exactly if it was dumped and a row names it, in the deploys' namespace exactly if it was |
| Mirror.OriginalInBucket | scripts/ops/restore-bucket-objects.py:190-207 | a row's dumped original gains one version with its body, its row's envelope, version and number, and its lock |
| Mirror.ThumbInBucket | scripts/ops/restore-bucket-objects.py:190-207 | a row's dumped thumbnail gains one version with its own envelope and no lock |
| Mirror.KeptMeaning | scripts/ops/restore-bucket-objects.py:177-245 | aborted or not, no version is destroyed, and keys outside the prefix or in the deploys' namespace stay as they were |
| Mirror.MirrorForgetsThePast | scripts/ops/restore-bucket-objects.py:177-245 | two finished runs show the same under every owned key whatever the bucket held, so an aborted run heals and a repeat changes nothing visible |
| Mirror.UpdatesPointAtCurrent | scripts/ops/restore-bucket-objects.py:209-215 | each update names the version a reader of its key now gets, and there is one exactly for each written key that owes one |
| Mirror.UpdatesByRow | scripts/ops/restore-bucket-objects.py:209-215 | in row fields: `version_id` is updated exactly if column 7 is filled and the original was dumped, `thumb_version_id` exactly if column 8 is and the thumbnail was, each to the id its own PUT returned, never an empty one |
| Mirror.UpdateIsTheColumnsOwn | scripts/ops/restore-bucket-objects.py:211-242 | with one object per column the update is that object's own version |
| Mirror.ExactlyInvoicesAreLocked | scripts/ops/restore-bucket-objects.py:126-134 | under a positive setting exactly the invoice PDFs carry a lock of that many days, never a thumbnail or another file |
| Mirror.DistinctRowsOwnColumns | scripts/ops/restore-bucket-objects.py:141-164 | rows with distinct ids give every column to one object |

## Left out

- Storno.StoredLineAccepted: `hasAtMostDecimals` and `===` act on exact decimals, so an amount beyond 15 significant digits, or one that overflows to infinity, is not modelled.
- Grouping.OrderInvoicesWithStornoGrouping: for a list that repeats an id only the set of ids is promised, because the rows are keyed by id; ids are numbers, 0 standing for the empty string.
- Namer.DistinctNamer.Name: context-dependent lower-casing (final sigma) is not a per-character map and is not modelled.
- Upload.ImportJobStore.Upload: `refetchEpoch`, subscriptions, toasts and a job replaced while its upload runs are not modelled; nor are two tabs sending PATCHes to one job at once.
- Sse.SseClient.Frame: frames are dispatched one at a time; reconnects and frame payloads are the browser's.
- Escape.EscapeRegistry.Press: handlers that throw, other keys and the focus trap of src/ui/common/useDialogA11y.ts are not modelled.
- Workers.ShowsLastLeft: other writers of the same project are excluded, as the store makes no promise about them; so is the redirect after an expired session.
- Base64.UrlBase64ToArrayBuffer: `ArrayBuffer` and `Uint8Array` are one byte array.
- Mirror.ReadTargets: rows are split fields; TSV quoting is not modelled, and `isdigit` accepts ASCII digits only.
- Mirror.Bucket.Ship: the file order, a PUT that stores its object and then raises, retries inside the S3 client, and lock dates (only the days) are not modelled.
- OpenApi.ApiDocument.ApplySecurity: the shared `components` block, a constant, is not modelled.
- Routes.GateCheckIsExact: how Fastify collects hooks across plugins is reduced to the `config.auth` marker and the route's own list.
- The other stores, routes, repositories, React components, service worker, backup runner and WebCrypto: input and output, library configuration, or the same guards again.
- Tables and single decision trees such as src/domain/transitions.ts, src/domain/aging.ts and src/config/permissions.ts: they would add only easy members.
- The attachment store: its side maps keep no clean invariant under a cancel during image processing.
