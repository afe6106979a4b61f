# Verified models of the matching bot

A Dafny model of the parts of the bot whose correctness depends on interleavings, running counters or
long sequences of operations. Each module follows one component; its header comment names the source
file. Code that updates state in place is a class whose methods are proved equal to a specification
function on the old state, and the properties are proved about that function, over every run where
they concern runs.

| module | component |
|---|---|
| `Text` | the parts of Python's `str` used by the other modules |
| `HtmlChunker` | the paginator that closes and reopens HTML tags at page breaks, and how a text is read |
| `HtmlPages`, `HtmlPageBreaks` | which text stands on which page, when the pages are well nested, and texts whose pages are not |
| `Routing`, `MatchEngine`, `MatchScan`, `MatchInvariants` | the matchmaking engine with atomic operations: queue keys, batched scan, claim, enqueue, removal |
| `MatchFilters` | whom a search finds, in terms of stored values, and the order of lists and keys |
| `MatchInterleaved` | the same lists and states while scan and claim are two steps |
| `MatchClaims` | the same engine's WATCH/MULTI/EXEC claim with any number of interleaved callers |
| `Termination` | the match termination pipeline: expiring lock, conditional UPDATE, crashes |
| `TokenBucket` | the outbound rate limiter, over real arithmetic |
| `GiftEconomy` | purchases, gateway credits, sales and transfers of gifts |
| `CoinOrders` | coin orders settled by gateway callback or by an administrator, with referral commission |
| `LateDecisions` | the same orders when an administrator decides on an earlier read |
| `VipSubscription` | VIP activation, expiry worker and activity check |
| `ChatConsent` | the two-party handshake that opens an anonymous chat |
| `GiftBracket` | saving and restoring a user's conversation around the gift flow |
| `LastActiveFlush` | the chunked CASE update of last-active times |

## What the code turned out not to do

Where the code differs from its documentation or from the obvious specification, the model follows
the code, and the lemmas named say exactly when the expected property holds, or, for a bound, that it is
met and reached.

- The paginator searches the lines for tags one by one and skips a first line that is too long for a
  page (bot/core/formatters.py:232-236, 248), so the tags it closes and reopens may not be the open
  ones. `TaggedLineIff` tears a tagged line apart at every page length that cuts it in two, and
  `StretchedTagIsLost` a text whose lines all fit but in which a tag runs over a line end. As long as
  no page ends inside a tag, the pages are well nested if and only if the text is and the stack is
  right at the end of every page (`PagesNestedIff`); for every text and page length `PagesSoundIff` says
  it page by page. The text itself is never changed (`PagesKeepText`).
- The batched scan steps over live queue entries after a batch that held stale ones, because it
  removes entries from the list its offset counts in. It finds the first suitable one of the entries it
  visits (`ScanFindsFirstVisited`, `BatchStarts`); `NewestFoundIff` and `NobodyFoundIff` say exactly
  when that is the result of the plain search of the newest 100 entries. `ReachedScanFinds` and
  `ReachedScanFindsIff` say the same of every state reached from an empty engine.
- The bound of 100 checks is only looked at between batches: 149 entries are checked in
  `BoundIsReached`, never more (`ScanQueueChecks`), and at most 100 if none of the newest 100 entries is
  stale (`CleanScan`). `ScanSteps` gives the exact number.
- A candidate who moves to another queue between the scan and the claim is matched and stays listed
  (`MovedCandidateStaysListed`, `RejoinedCandidateStaysListed`). In every interleaving lists and states
  agree throughout if and only if every candidate claimed still waits in the queue they were found in
  (`AgreesIffInPlace`, `PairedKeepsIndexIff`).
- Handlers that end a match delete the two states one after the other (bot/handlers/start.py:168,
  184). In between matching is not mutual: deleting one state keeps it so if and only if the user is
  not matched (`DeletedKeepsMutualIff`).
- The termination pipeline promises that exactly one routine runs the side effects
  (services/scheduler.py:475-482). Without faults it does (`ExactlyOneTermination`); each single crash,
  failure, lost reply, or closing of the match by somebody else is enough to break the promise
  (`EveryFaultBreaksThePromise`). In any run a call returns True if and only if its own commit closed the
  match and no fault struck that call (`ReturnsTrueIff`). At most one is what holds always
  (`AtMostOneTermination`), and it rests on the conditional UPDATE, not on the lock
  (`LockAloneIsNotEnough`).
- A check for more tokens than the bucket's capacity never succeeds, however long the wait
  (`SleepIsEnough`).
- Both consent handlers may open the chat (`BothMayOpen`): exactly when neither refreshed before the
  other one committed (`BothOpenIff`).
- The administrator's handlers read the order without a lock and write later. A late settlement or
  rejection keeps the credits in step with the status if and only if nobody has settled the order since
  (`LateDecisionCreditsIff`), and lets a decision stand if and only if there is none yet or it is the
  same (`LateDecisionFinalIff`). A run keeps both at every step if and only if no decision is written
  over another one, but for a rejection over a rejection (`KeptIffTimely`), and is then one of atomic
  decisions (`TimelyIsAtomic`). In `OvertakenDecision` a callback comes in between: settled late, the
  order is credited twice; rejected late, it is credited and rejected.
- An old button that picks a gift to send enters the gift flow without saving the conversation
  (`OldButtonLosesState`); its state comes back if and only if an abandoned flow has left the same one
  behind (`OldButtonRestoresIff`).

## Model

| member | source | states |
|---|---|---|
| HtmlChunker.ChunkHtmlText | bot/core/formatters.py:212-267 | The loop over lines, with its current page, tag stack and `continue`, computes the page list that the lemmas below are about |
| HtmlChunker.TrackTags | bot/core/formatters.py:248-260 | Scanning a line for tags leaves the stack that stepping through its tokens leaves: a closing tag pops only its own name |
| HtmlChunker.CloseAll | bot/core/formatters.py:223-225 | The inserted suffix closes the open tags innermost first |
| HtmlChunker.Reopen | bot/core/formatters.py:227-229 | The inserted prefix opens the same tags outermost first |
| HtmlPages.PagesKeepText | bot/core/formatters.py:212-267 | For every text and page length: the page list is exactly the cut of a too long first line, then pieces of whole lines, each stripped between the reopened and the closing tags of the stack; cut and pieces together are the text; every page but the cut is what was collected without the white space at its ends, and nothing else, followed by the closing tags; a last page is left out exactly when it would be all white space; each page reopens what the one before closed; a page is broken off only when the next line does not fit |
| HtmlPages.PagesNestedIff | bot/core/formatters.py:212-267 | As long as no page ends inside a tag: all pages are well nested if and only if the text closes its tags in order and at the end of every page, a cut first line included, the stack is what is really open |
| HtmlPages.PagesSoundIff | bot/core/formatters.py:212-267 | For every text and page length: all pages are well nested if and only if a cut first line is, and each piece of the text, read under the tags reopened before it, nests and ends with the tags closed after it, where a tag unfinished at the page's end takes the first closing tag with it; and what the pages show is the cut and then the pieces, read that way |
| HtmlPages.RightStackKeepsMeaning | bot/core/formatters.py:212-267 | With the right stack at every page end, each visible character stands under the names of the tags it stood under in the text |
| HtmlPages.StackRightIfLinesClosed | bot/core/formatters.py:231-260 | The stack is right at every page end if no tag runs over a line end and the first line fits, or is cut where no tag of its own is open |
| HtmlPages.PagesKeepMeaning | bot/core/formatters.py:212-267 | For such texts: tag names over visible characters are kept, and all pages are well nested if and only if the text closes its tags in order |
| HtmlPages.PageMarkup | bot/core/formatters.py:238-244 | Any page between its reopened and its closing tags is well nested if and only if its piece of the text, read under the reopened tags, nests and ends with the tags closed after it; its meaning is the piece's |
| HtmlChunker.ClosersMarkup | bot/core/formatters.py:223-225 | The closing tags made from a stack show nothing and close in order exactly that stack, whatever is really open |
| HtmlChunker.OpenersMarkup | bot/core/formatters.py:227-229 | The reopened tags rebuild the stack and show nothing |
| HtmlChunker.TokensAppend | bot/core/formatters.py:221 | The tag pattern reads two joined texts as it reads each of them, unless the first ends inside the beginning of a tag |
| HtmlChunker.CloserFinishes | bot/core/formatters.py:221-225 | Closing tags after a text that ends inside a tag: the first one is read as the rest of that tag, which keeps its own name, the others as they are |
| HtmlChunker.StripMarkup | bot/core/formatters.py:240 | Stripping white space from a page changes neither its tags nor its visible characters |
| HtmlPageBreaks.TagEffects | bot/core/formatters.py:248-260 | A line of one tag: an opening tag is pushed in lower case, a closing tag pops its own name only, a self-closing tag leaves every stack as it is |
| HtmlPageBreaks.CutFirstLineIff | bot/core/formatters.py:232-236 | For a too long first line that balances its own tags, cut outside of a tag: pages of a well-nested text are well nested if and only if no tag is open at the cut |
| HtmlPageBreaks.TaggedLineIff | bot/core/formatters.py:232-236 | A one-line text `<n>...</n>` is well nested, and its pages are if and only if the line is not cut in two, the page length being 0 or at least the line's length |
| HtmlPageBreaks.StretchedTagIsLost | bot/core/formatters.py:248 | A well-nested text whose opening tag runs over a line end, with lines that all fit, has pages that are not, for every page length that breaks before the closing tag's line |
| Routing.GetTargetQueueKeys | services/matching_engine.py:67-90 | The nested loops yield the keys of province, then global; of the wanted genders; of those who want the caller's gender, then any |
| Routing.TargetKeysInOrder | services/matching_engine.py:67-90 | The two to eight keys one by one: own province before global, male before female, those who want this gender before those who want any |
| Routing.NamesNormalised | services/matching_engine.py:61-63 | Names are read without surrounding white space and in lower case, absent ones as unknown, any and global; spaces inside a province become underscores |
| Routing.KeyInjective | services/matching_engine.py:65 | Queues that differ in province, gender or wish have different keys, as long as province and gender hold no colon |
| Routing.RoutingExact | services/matching_engine.py:67-90 | A search covers a queue if and only if the caller accepts its gender, those in it accept the caller's, and its province is the caller's or global |
| Routing.UsersRoutedExactly | services/matching_engine.py:59-90 | B's own queue is searched by A if and only if the two accept each other's gender and B's province is A's or global |
| MatchEngine.Engine.RemoveFromQueue | services/matching_engine.py:113-130 | Every occurrence in the list named by the stored key goes, and the state with it; without a state nothing changes |
| MatchEngine.Engine.AddToQueue | services/matching_engine.py:169-215 | The user leaves the old queue and stands once at the head of the new one, with the state written |
| MatchEngine.Engine.CheckBatch | services/matching_engine.py:268-327 | One batch: stale entries are removed from the live list, the first entry passing the filters is returned, and the entries checked are counted |
| MatchEngine.Engine.ScanKey | services/matching_engine.py:243-327 | The loop over offsets with its limits, while the list shrinks under it |
| MatchEngine.Engine.Claim | services/matching_engine.py:345-370 | The transaction: both states name each other, the candidate leaves the searched list once, the caller leaves its own |
| MatchEngine.Engine.FindMatch | services/matching_engine.py:217-383 | The whole search: the keys in order, then the claim, or joining the queue |
| MatchScan.ScanQueueChecks | services/matching_engine.py:252-274 | A scan of one queue checks at most 149 entries, however many are stale |
| MatchScan.AtMostThousandVisited | services/matching_engine.py:249-256 | A scan visits at most 1000 entries, and exactly 1000 in a long list that is stale all over |
| MatchScan.ScanKeepsLive | services/matching_engine.py:268-283 | A scan removes stale entries only, each completely or not at all; live entries keep their number of occurrences |
| MatchScan.CleanScan | services/matching_engine.py:243-327 | Without stale entries among the newest 100 the scan finds the first suitable one of these, or none if there is none, leaves the list alone and checks at most 100 |
| MatchScan.ScanSteps | services/matching_engine.py:258-283 | With stale entries the scan is the search that steps over as many entries after each batch as the batch held stale ones; result and number of checks are the same |
| MatchScan.NewestFoundIff | services/matching_engine.py:258-283 | The first suitable entry, at position k below 100, of a list without repetition is found if and only if it stands in the first batch or beyond as many entries after it as that batch held stale ones |
| MatchScan.NobodyFoundIff | services/matching_engine.py:258-283 | When nobody among the newest 100 is suitable, nobody is found if and only if none of the entries visited is, and always if none of the 100 is stale |
| MatchScan.ScanFindsFirstVisited | services/matching_engine.py:243-327 | For every list without repetition, stale entries or not, the scan finds the first suitable one of the entries it visits, or nobody if there is none |
| MatchScan.BatchStarts | services/matching_engine.py:256-264 | Batch b starts at position 50 b plus the number of stale entries in the batches before it |
| MatchScan.OneStaleEntry | services/matching_engine.py:255-274 | One stale entry at the head of a long list of unsuitable users makes the scan check 149 entries |
| MatchScan.BoundIsReached | services/matching_engine.py:255-274 | For every caller whose upper age bound is below 80 there is such a list: 149 entries are checked, not 100 |
| MatchInvariants.AfterSingle | services/matching_engine.py:169-215 | Whatever is searched, cancelled or blocked, and whichever states expire meanwhile, no queue ever lists a user twice |
| MatchInvariants.ReachedScanFindsIff | services/matching_engine.py:243-327 | The same exact condition in every state reached from an empty engine, expired states included |
| MatchInvariants.ReachedScanFinds | services/matching_engine.py:243-327 | In every state reached from an empty engine, expired states included, the scan finds the first suitable one of the entries it visits |
| MatchInvariants.RemovedKeepsIndex | services/matching_engine.py:113-130 | Removal keeps lists and states in agreement and touches nobody else's state |
| MatchInvariants.EnqueuedKeepsIndex | services/matching_engine.py:169-215 | Enqueueing keeps lists and states in agreement |
| MatchInvariants.PairedKeepsIndexIff | services/matching_engine.py:345-370 | A claim keeps lists and states in agreement if and only if the candidate was found in the queue named by its state |
| MatchInvariants.RejoinedCandidateStaysListed | services/matching_engine.py:268-370 | A candidate who rejoins in another queue between scan and claim is matched, stays listed there once, and lists and states disagree |
| MatchInvariants.EndedKeepsInv | bot/handlers/interactions.py:661-662 | Ending a match deletes both states and no other, and keeps lists and states in agreement and matching mutual |
| MatchInvariants.DeletedKeepsMutualIff | bot/handlers/start.py:168-184 | Deleting one state alone keeps matching mutual if and only if its user is not matched |
| MatchInvariants.PairedKeepsMutual | services/matching_engine.py:351-367 | A claim by an idle caller keeps matching mutual |
| MatchInvariants.SearchRefinesReference | services/matching_engine.py:217-383 | With lists and states in agreement the batched search is the plain one: pair with the first suitable user among the newest 100 of each queue in key order, else enqueue the caller |
| MatchInvariants.SearchPairsAcceptingUsers | services/matching_engine.py:217-372 | Whoever a search pairs accepts the other's gender, age and province, with no block either way, and the two states name each other |
| MatchFilters.SearchFindsFirstFit | services/matching_engine.py:217-383 | With lists and states in agreement a search pairs the caller with the first entry that fits, among the newest 100 of each searched queue in key order, and finds nobody, leaving the caller waiting, if and only if none fits; to fit is spelled out over ages, bounds, interests of a VIP caller, and blocks |
| MatchFilters.CompatibleMeans | services/matching_engine.py:303-327 | The filters of the scan are these conditions on request and stored state |
| MatchFilters.JoinedIsFilteredByOwnValues | services/matching_engine.py:191-206 | Who joins waits under the key of the request and is filtered by the request's own age, bounds and interests |
| MatchFilters.JoinedIsFirst | services/matching_engine.py:189-208 | Who joins heads the list, and the others keep their order |
| MatchFilters.JoinedIsFoundFirst | services/matching_engine.py:264-267 | The last to join is the first a fitting caller finds in that queue |
| MatchFilters.PairedStates | services/matching_engine.py:351-367 | The transaction writes these two users' hashes only, and which fields of them |
| MatchFilters.BlockedAreNotPaired | services/matching_engine.py:321-327 | After a block, neither of the two finds the other |
| MatchInvariants.EveryRunKeepsOrder | services/matching_engine.py:113-383 | After any sequence of searches, cancels, ended matches, blocks and unblocks a user is queuing if and only if listed exactly once, under the key of their own wishes, and every matched user is matched back by somebody else |
| MatchInterleaved.AgreesIffInPlace | services/matching_engine.py:243-383 | In every interleaving of scans, claims, searches, cancels, ended matches and blocks, lists and states agree after every step if and only if every candidate claimed still waits in the queue they were found in |
| MatchInterleaved.MoveKeepsIff | services/matching_engine.py:329-370 | One step keeps lists and states in agreement if and only if it is not a claim in the wrong queue, and then keeps matching mutual, too |
| MatchInterleaved.MoveEffects | services/matching_engine.py:329-383 | A claim pairs the two if and only if the candidate is queuing, wherever, and neither blocks the other; who gives up waits under the key of the request |
| MatchInterleaved.MovedCandidateStaysListed | services/matching_engine.py:268-370 | From an empty engine: B waits, A finds B, B cancels and joins another queue, A's claim succeeds; the two are matched and B stays listed |
| MatchClaims.MatchingIsInvolution | services/matching_engine.py:268-372 | In every interleaving of searches, cancels, enqueues, ended matches, blocks and unblocks, a matched user's partner is another user, matched back to exactly them |
| MatchClaims.ClaimsRespectBlocks | services/matching_engine.py:329-372 | Every successful EXEC finds the candidate queuing, the caller idle and no block either way, and changes these two users only |
| MatchClaims.ClaimMadeIff | services/matching_engine.py:329-375 | With any events of others in between, a search that watches B ends with the two matched with each other, by one claim more, if and only if B was queuing and neither blocked the other when each was read, and no watched key was written since WATCH; otherwise nothing is claimed and the scan goes on |
| MatchClaims.ClaimSucceedsAlone | services/matching_engine.py:329-372 | In every reachable state, a search left alone with a queuing candidate and no blocks goes through all its steps and pairs the two |
| MatchClaims.EventEffects | services/matching_engine.py:113-215 | Who joins is queuing, who cancels or whose match is ended has no state, blocks come and go one by one |
| MatchClaims.OneClaimPerStay | services/matching_engine.py:329-375 | No stay in a queue is claimed twice, and every claim stands, both users naming each other, until its match is ended |
| MatchClaims.OvertakenCallerBacksOff | services/matching_engine.py:329-375 | Of two callers ready to claim one candidate, the second EXEC fails and only sends its caller back to scanning |
| MatchClaims.PairKeepsMutualIff | services/matching_engine.py:351-367 | The claim keeps matching mutual if and only if the caller is not matched already |
| MatchClaims.ExecFindsGoodState | services/matching_engine.py:331-343 | Unchanged watched keys mean that what was read after WATCH still holds |
| MatchClaims.StepReads | services/matching_engine.py:331-343 | Every step of anybody leaves each caller's reads true or its watched keys changed |
| Termination.AtMostOneTermination | services/scheduler.py:461-582 | With any number of calls, lock expiry, crashes, lost replies and other paths closing the match: at most one call returns True, side effects run at most once and only for a closed match, and the match is closed by one transition |
| Termination.ExactlyOneTermination | services/scheduler.py:475-482 | In every run without faults, however calls interleave and the lock expires, once all calls are finished the match is closed, the side effects ran exactly once, exactly one call returned True and every other False |
| Termination.EveryFaultBreaksThePromise | services/scheduler.py:365-408 | For every kind of fault there is a run of a single call in which it is the only one, and nobody returns True; the side effects are not run unless they are what fails |
| Termination.ReturnsTrueIff | services/scheduler.py:365-408 | Whatever faults a run has, once all calls have ended a call has returned True if and only if its own commit closed the match and no fault struck it; then the match is closed, the side effects ran once and no other call did |
| Termination.RaisesIff | services/scheduler.py:396-408 | In every run a finished call has raised if and only if a failure struck that call |
| Termination.TryLockOutcome | services/scheduler.py:306-323 | A free or expired lock is taken for ten seconds; a live one makes a scheduler's call give up at once and a user's at its deadline |
| Termination.UserCallsWait | services/scheduler.py:312-323 | A call for a user never gives up before five seconds have passed since it began |
| Termination.ReleaseFreesOwnLock | services/scheduler.py:325-337 | A release frees the lock of its owner and leaves any other |
| Termination.WonIff | services/scheduler.py:365-389 | In every run a call is on its way to True if and only if it committed and no fault struck it |
| Termination.ClosedForGood | services/scheduler.py:365-377 | A closed match is never active again |
| Termination.LockIsExclusive | services/scheduler.py:39-45 | At most one call owns an unexpired lock, and no step of another call, such as the late release of an expired holder, takes it away |
| Termination.LockAloneIsNotEnough | services/scheduler.py:541-544 | After the lock expired two calls can be past it at the same time |
| Termination.StepClosing | services/scheduler.py:365-389 | Every step keeps: the side effects belong to the call whose commit closed the match |
| Termination.StepTokens | services/scheduler.py:303-323 | Every step keeps the calls' tokens distinct |
| TokenBucket.RateLimiter.constructor | services/broadcast_worker.py:19-24 | The bucket starts full, its capacity being the rate if none is given |
| TokenBucket.RateLimiter.Acquire | services/broadcast_worker.py:26-38 | For a request within the capacity: returns after at most two checks and, if tokens were missing, sleeps of at most the time their refill takes, takes the tokens once, leaves the level a single refill over the whole wait would leave, and keeps the level between 0 and the capacity |
| TokenBucket.RateLimiter.Refill | services/broadcast_worker.py:29-32 | One refill adds the elapsed time's tokens up to the capacity |
| TokenBucket.WindowBound | services/broadcast_worker.py:18-38 | The tokens granted in any time window are at most capacity plus rate times its length |
| TokenBucket.GrantKeepsBounded | services/broadcast_worker.py:33-35 | A grant keeps the bound between any two grants, the level left counting towards it |
| TokenBucket.RefillKeepsBacked | services/broadcast_worker.py:30-32 | A refill keeps grants plus level within the allowance |
| TokenBucket.SleepIsEnough | services/broadcast_worker.py:33-38 | After a sleep of at least deficit over rate the next check succeeds if and only if the request is within the capacity |
| TokenBucket.RefillTwice | services/broadcast_worker.py:30-32 | Refilling in two steps is refilling once |
| GiftEconomy.GiftEngine.PurchaseGift | services/gift_engine.py:193-281 | Coins for gifts with both log entries, or the refusal, in the order of the source's checks |
| GiftEconomy.GiftEngine.CreditGift | services/gift_engine.py:283-354 | Gifts paid at the gateway: no coins move; a zero coin entry only when there is an order |
| GiftEconomy.GiftEngine.SellGift | services/gift_engine.py:87-160 | Gifts for 80 percent of their price, rounded down per gift, with both log entries, or the refusal |
| GiftEconomy.GiftEngine.TransferGift | services/gift_engine.py:356-428 | Gifts move to another user, or the refusal |
| GiftEconomy.LedgersExplainEverything | services/gift_engine.py:87-428 | Over any sequence of operations each balance, holding and spending total is its start plus what the logs record, nothing becomes negative, the logs only grow, and each coin entry has its gift entry |
| GiftEconomy.StepKeepsBooks | services/gift_engine.py:87-428 | A refused operation changes nothing; no operation makes anything negative |
| GiftEconomy.DoneIffAffordable | services/gift_engine.py:87-428 | An operation goes through if and only if quantity, gift and user are valid and the actor owns the coins or gifts it takes |
| GiftEconomy.BystandersNeverPay | services/gift_engine.py:87-428 | Over any run a user on whose behalf nothing is done keeps all coins, and their gifts grow by exactly what others hand them |
| GiftEconomy.CreditEntries | services/gift_engine.py:304-354 | A gateway credit moves no coins and logs a zero coin entry if and only if it belongs to an order |
| GiftEconomy.RefusalsAreTrue | services/gift_engine.py:87-428 | Every refusal gives a reason that holds |
| GiftEconomy.WealthIsConserved | services/gift_engine.py:87-428 | Over any run, all coins plus all inventories at list price change by what gateway purchases bring less a fifth of the price, rounded up, per gift sold |
| GiftEconomy.NoArbitrage | services/gift_engine.py:87-428 | Without gateway purchases no sequence of operations by any group of users raises coins plus inventories at list price |
| GiftEconomy.SellWealth | services/gift_engine.py:126-135 | A sale loses exactly quantity times a fifth of the price, rounded up |
| CoinOrders.OrderDesk.CallbackUntilVerify | api/routes/payment.py:125-169 | The checks under the row lock, in order, up to asking the gateway: which orders are failed or rejected, which stay locked |
| CoinOrders.OrderDesk.CallbackAfterVerify | api/routes/payment.py:190-278 | The gateway's answer: unreachable keeps the order pending, refusal rejects it, confirmation credits, pays commission and approves |
| CoinOrders.OrderDesk.ProcessCoinTransaction | database/queries/crud.py:100-135 | A deposit raises balance and earnings and logs one entry |
| CoinOrders.OrderDesk.ProcessCommissionOnPurchase | services/referral_engine.py:128-207 | The referrer, if any, gets the floored share with one commission and one coin entry; otherwise nothing changes |
| CoinOrders.OrderDesk.AdminVerifyReceipt | bot/handlers/payments.py:245-330 | An open order is credited, with commission, and completed; otherwise, or on failure, nothing changes |
| CoinOrders.OrderDesk.AdminRejectReceipt | bot/handlers/payments.py:335-346 | An open order is rejected; a decided one is left alone |
| CoinOrders.CreditedOnceIffSettled | api/routes/payment.py:125-278 | Over any interleaving an order is credited exactly once, to its own user, if it ends approved or completed and never otherwise, with at most one commission, of the right share to the right referrer, and balances follow the logs |
| CoinOrders.CreditedOnlyIfPaid | api/routes/payment.py:190-233 | In every run an order that ends credited, approved, completed or with a commission has been confirmed by the gateway or by an administrator |
| CoinOrders.AnswerDecides | api/routes/payment.py:190-276 | Unreachable only unlocks; refused rejects without money; confirmed approves and credits exactly the given coins to the buyer, or fails without money if the buyer is gone |
| CoinOrders.CallbackLocksIff | api/routes/payment.py:132-169 | A callback goes on to the gateway if and only if the order is pending, the authority is the order's own and not empty, the status OK and the package known; otherwise a pending order is rejected when only the OK is missing, else failed, and other orders are left alone |
| CoinOrders.PlacingAndDying | api/routes/payment.py:125-130 | An order starts open and unlocked; a callback that dies frees the row and leaves the order pending |
| CoinOrders.AdministratorDecides | bot/handlers/payments.py:250-346 | Open orders only: completed with the coins for the buyer, or rejected without money, or nothing at all |
| CoinOrders.DecisionsAreFinal | api/routes/payment.py:135-141 | An order that left its open statuses keeps its status and its credits in every later state |
| CoinOrders.SettlingPaysReferrer | services/referral_engine.py:139-187 | Settling pays one commission if and only if the buyer has a known referrer and the share rounds to at least one coin |
| LateDecisions.LateDecisionCreditsIff | bot/handlers/payments.py:250-346 | A settlement or rejection that rests on an earlier read keeps the order's credits in step with its status if and only if nobody has settled it since |
| LateDecisions.LateDecisionFinalIff | bot/handlers/payments.py:250-346 | It leaves an earlier decision standing if and only if there is none or it is the same |
| LateDecisions.WriteKeepsIff | bot/handlers/payments.py:250-346 | It keeps both, for all orders, if and only if the order is still open or a rejected one is rejected again |
| LateDecisions.KeptIffTimely | bot/handlers/payments.py:245-346 | A run with such decisions keeps credits and decisions at every step if and only if no decision is written over another one, but for a rejection over a rejection |
| LateDecisions.TimelyIsAtomic | bot/handlers/payments.py:245-346 | Such a run ends as the run in which each decision is taken at the moment it is written |
| LateDecisions.OvertakenDecision | bot/handlers/payments.py:250-346 | A callback approves the order between read and write: settled late, it is credited twice; rejected late, it is credited and rejected |
| CoinOrders.StepOnce | api/routes/payment.py:125-278 | Every step keeps an order's credits in step with its status |
| CoinOrders.StepCredits | api/routes/payment.py:223-230 | Every step logs purchased coins for the user of the order only |
| CoinOrders.StepFees | services/referral_engine.py:150-175 | Every commission logged names the buyer's referrer and the configured share of the order's package |
| VipSubscription.VipManager.ActivateSubscription | services/vip_subscription.py:89-165 | A running subscription is extended from its end, otherwise time starts now; older subscriptions are closed and the user row follows |
| VipSubscription.VipManager.ExpireDueSubscriptions | services/vip_subscription.py:201-269 | One by one, all due subscriptions are closed and counted, and exactly the users left without an active one lose the status |
| VipSubscription.CoverIsExact | services/vip_subscription.py:101-118 | The stretches of VIP time bought are disjoint, begin no earlier than their purchase, and add up to the durations bought |
| VipSubscription.CoveredUntilEnd | services/vip_subscription.py:113-118 | From the last purchase on, an instant is covered if and only if it lies before the last end |
| VipSubscription.VipExactlyWhenCovered | services/vip_subscription.py:168-184 | After any run of purchases and sweeps, the activity check says yes if and only if the instant lies in a stretch bought by the user; each user has at most one active subscription, ending with the user row |
| VipSubscription.WorkerScheduleDoesNotMatter | services/vip_subscription.py:168-269 | Two runs with the same purchases give the same answers, however often and late the worker ran |
| VipSubscription.QuotaFollowsStatus | services/vip_subscription.py:145-148 | In every run the quota of a user who has bought is five while the status lasts and zero after |
| VipSubscription.ActivatedIff | services/vip_subscription.py:97-142 | An activation fails exactly for an unknown plan or user, changing nothing; else one subscription of that plan, started now, is added and no other user touched |
| VipSubscription.SweepOutcome | services/vip_subscription.py:214-251 | A sweep leaves active exactly the subscriptions that do not end before it, and VIP exactly the users whose time does not; the others lose status and quota |
| VipSubscription.CountIsClosed | services/vip_subscription.py:231-251 | The number a sweep reports is that of the subscriptions it closes |
| VipSubscription.ActivateKeepsSubs | services/vip_subscription.py:120-148 | Activation keeps one active subscription per user, agreeing with the user row |
| VipSubscription.ExpireKeepsSubs | services/vip_subscription.py:214-251 | A sweep keeps one active subscription per user, agreeing with the user row |
| ChatConsent.OpensOnlyWithBothFlags | bot/handlers/anonymous_chat.py:387-429 | In every interleaving, even with the match closed from outside, the chat is open only if both partners approved and both flags are committed |
| ChatConsent.OpensExactlyWhenBothApprove | bot/handlers/anonymous_chat.py:327-429 | If nobody else closes the match and both handlers finish, the chat is open if and only if both partners approved, and the match stays active if and only if they did |
| ChatConsent.BothMayOpen | bot/handlers/anonymous_chat.py:393-429 | There is an interleaving in which both handlers open the chat |
| ChatConsent.BothOpenIff | bot/handlers/anonymous_chat.py:393-429 | In undisturbed finished runs with two approvals a handler opens the chat if and only if it did not refresh before the other one committed, and at most one did; so both open if and only if neither did |
| ChatConsent.LateHandlerIsTurnedAway | bot/handlers/anonymous_chat.py:327-341 | A handler ends turned away if and only if the match was closed or the chat open when it read the row |
| ChatConsent.ClosedMatchNeverOpens | bot/handlers/anonymous_chat.py:327-337 | If the match is closed before either handler reads it, no flag is ever set and nobody opens the chat |
| ChatConsent.RunUndisturbed | bot/handlers/anonymous_chat.py:327-420 | In every undisturbed run, a handler that saw only its own flag was refreshed before the other one committed |
| GiftBracket.FsmContext.PreserveCurrentState | bot/handlers/gifts.py:80-99 | State and own data are set aside; inside the gift flow nothing is overwritten |
| GiftBracket.FsmContext.RestorePreviousState | bot/handlers/gifts.py:102-134 | The flow's keys go, missing keys come back from the snapshot, and the state comes back, or everything is cleared when the chat or date is over |
| GiftBracket.BracketRestores | bot/handlers/gifts.py:64-134 | Entering, any steps and repeated entries, then leaving gives back state and data but the flow's own keys, or the cleared context when the chat or date is over |
| GiftBracket.LeavingFills | bot/handlers/gifts.py:108-117 | Leaving keeps every own value that is there and takes missing and null ones from the snapshot |
| GiftBracket.SnapshotHolds | bot/handlers/gifts.py:91-99 | The snapshot holds exactly the keys that are neither the flow's own nor begin with its prefix, with their values |
| GiftBracket.ClearedIff | bot/handlers/gifts.py:119-134 | Without an active chat or date, everything is cleared exactly for saved states with chat, matching or questionnaire in their name, in any case; other states come back |
| GiftBracket.BracketIsIdentityIff | bot/handlers/gifts.py:64-134 | The round trip is the identity if and only if the data held none of the flow's own keys and no ended chat or date was left |
| GiftBracket.BracketRecoversForgotten | bot/handlers/gifts.py:115-117 | Keys that other handlers dropped meanwhile come back from the snapshot, up to nulls |
| GiftBracket.OldButtonLosesState | bot/handlers/gifts.py:394-407 | Entering by an old button that picks a gift to send: after any further steps, leaving gives what leaving at once would have given, so any state that comes back is one left behind by an abandoned flow |
| GiftBracket.OldButtonRestoresIff | bot/handlers/gifts.py:394-407 | The state the user came from comes back if and only if it is the one left behind and its chat or date goes on, or there was none and none is brought back |
| GiftBracket.RunKeepsAside | bot/handlers/gifts.py:213-225 | Every sequence of buy and send steps keeps what was set aside and the user's own data |
| LastActiveFlush.UserTable.FlushLastActive | services/scheduler.py:722-742 | The chunked updates together set each reported user online with the reported time and leave everybody else as they were |
| LastActiveFlush.CasePicksOwnTime | services/scheduler.py:731-734 | The CASE expression yields a user's own time, or the old one for users not listed |
| LastActiveFlush.ChunkExtends | services/scheduler.py:729-740 | One more chunk extends the override by that chunk's users |

## Left out

Everywhere:

- Telegram messages, keyboards, HTTP, SQLAlchemy and Redis plumbing; only their effect on state, or an arbitrary result, is kept.
- Integer widths of database columns; integers are unbounded.
- Lower-casing beyond ASCII letters (`str.lower` in formatters, matching engine and gift handlers).

Paginator:

- HtmlPages.PagesNestedIff: is about pages that do not end inside a tag; `PagesSoundIff` is about all.
- HtmlPages.RightStackKeepsMeaning: is about such pages, too.
- HtmlPages.PagesKeepMeaning: is about names of tags over visible characters only, since reopened tags lose their attributes; that the text itself, white space and attributes included, is kept is `PagesKeepText`.
- A bound on the length of finished pages is not claimed: closing tags and lines longer than a page exceed `max_length`; what is collected before the closing tags is bounded in `PagesKeepText`.

Matchmaking:

- MatchEngine.Engine.CheckBatch: leaves out nearby search and its distance (services/matching_engine.py:285-301), whose function is not in scope where it is called.
- MatchEngine.Engine.ScanKey: leaves out nearby search.
- MatchEngine.Engine.FindMatch: leaves out nearby search.
- Time to live of states and queue markers, `set_queue_ttl`, `get_expired_queue_users` (services/matching_engine.py:132-167); a state is taken not to expire while its user is queued.
- MatchClaims.MatchingIsInvolution: assumes that a caller is idle with one search in flight (the guard is bot/handlers/matching.py:270-277) and that a removal is one atomic step on a queuing user; queue lists are not modelled there, any user may be picked as candidate; the lists are in `MatchInterleaved`, where re-checks and transaction are one step.
- MatchInvariants.EveryRunKeepsOrder: assumes the same of callers, and names without colons and not blank, as the handlers pass them; takes the deletion of a pair's two states as one step; what lies between is `DeletedKeepsMutualIff`.
- The status "chatting" that a match takes when its chat opens.

Termination:

- `commit=False`, where the side effects run before the caller may roll back.
- The 12-hour warning and the polling of timeout keys.
- What the side effects do.

Rate limiter:

- Rounding of floating point numbers.
- TokenBucket.RateLimiter.Acquire: leaves out requests above the capacity, for which the source's loop never ends, and negative ones; every caller in the repository asks for one token.
- Waiting callers and their cancellation; calls are taken in the order in which they get the lock.

Gifts and coins:

- Gift operations are taken as atomic, although some inventory rows are read without a lock (services/gift_engine.py:234-241, 395-402).
- Changes of prices and of the catalogue during a run; the source field of inventory rows.
- CoinOrders.CreditedOnceIffSettled: takes an administrator's decision as one step while no callback holds the row, and packages and commission share as fixed; `LateDecisions` has the same runs with decisions that rest on earlier reads.
- CoinOrders.DecisionsAreFinal: takes these decisions as one step, too.
- CoinOrders.OrderDesk.AdminVerifyReceipt: is read and write in one; apart they are in `LateDecisions`.
- CoinOrders.OrderDesk.AdminRejectReceipt: is read and write in one, too.
- CoinOrders.OrderDesk.ProcessCoinTransaction: covers deposits only; the coins an event multiplier makes of the package are a parameter.
- CoinOrders.OrderDesk.CallbackAfterVerify: a commission that fails is taken to fail before it writes anything; when its writing fails, so does the commit, and the callback dies.
- VIP and gift orders paid at the gateway: their inner commits release the row lock before the status is set.
- Referral codes, attribution and statistics.

VIP:

- Administrators writing `is_vip` directly (bot/handlers/admin.py:783-784), `get_remaining_days`, caches.

Handshakes:

- Errors of the database while consent is recorded, and a second answer by the same user.
- The selling flow inside the gift bracket: its states and key are missing from the guard sets (bot/handlers/gifts.py:547, 572-573).

Not modelled at all: leader election, warnings, profile rewards, banner campaigns, online watchers, sharding, caching and pagination of lists.
