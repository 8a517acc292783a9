# Verified model of the diyaa messaging back end

This project models the parts of the API server (`apps/api`) that carry a protocol, a loop or a parser, and proves
what they keep over every run:

- the **outbound send pipeline**: monthly quota, guardrails (pause, service window, per-minute counter, daily cap),
  provider send and refund, run by any number of workers at once;
- the **per-IP throttle** in front of the API;
- the **flow executor**: a capped graph walk with branches and template substitution;
- the **CSV importer**: a quoted-field tokeniser and an upserting import;
- the **chunker** of the knowledge base;
- **refresh-token rotation, password reset and one-time codes**;
- **webhook ingestion** of messages delivered at least once;
- **subscriptions** with their grace period, and **campaign fan-out**.

`dafny verify dfyconfig.toml` checks everything.

## How it is built

A concurrent component is a state machine whose steps are single database or Redis operations. Its `Run` takes any
list of steps; a step that is not enabled leaves the state alone, so a theorem about all lists is a theorem about
all interleavings. Attempts, jobs and requests stay in the state after they end, so the state is also the
history the theorems count over. The service code is a class beside it: each method changes real fields the way
the source does and ensures that what it did is a run, or one call, of the machine, so the theorems about runs speak
about it. The walk of a flow, the tokeniser, the import and the chunker have no machine; their methods are proved
equal to a recursive specification.

| file | models |
|---|---|
| `OutboundMachine.dfy` | the pipeline's steps: counters with expiry, attempts, phases |
| `QuotaLedger.dfy`, `MinuteWindow.dfy`, `SlidingWindow.dfy`, `DailyCap.dfy` | theorems about its three counters |
| `Scenarios.dfy` | building concrete runs of it step by step |
| `ServiceWindow.dfy` | who may be written to |
| `OutboundService.dfy` | the service and worker methods, as runs of the machine |
| `GlobalRateLimit.dfy` | the throttle: protocol, middleware, bounds |
| `FlowExecutor.dfy`, `Template.dfy` | the walk and the two renderers |
| `Csv.dfy`, `ContactImport.dfy`, `Text.dfy` | tokeniser, import, JavaScript string helpers |
| `Chunker.dfy` | the window loop |
| `AuthTokens.dfy`, `Credentials.dfy` | token, reset-link and code tables; when each credential works |
| `WebhookIngest.dfy`, `IngestRace.dfy`, `RaceLanding.dfy` | deliveries, messages, jobs; handlers running at once |
| `Billing.dfy` | subscription rows |
| `CampaignFanout.dfy`, `CampaignRestart.dfy`, `CampaignConsent.dfy` | campaign jobs; starting a campaign again; what a sent message rests on |
| `Wrappers.dfy` | the option type and look-up by key |

## Where code and description differ

The model follows the code.

- `packages/db/prisma/schema.prisma:468` calls the usage counter the messages sent. Guardrail rejections and provider
  failures stay counted (`apps/api/src/whatsapp/whatsapp.service.ts:177-181` refunds the minute slot only), while campaign
  sends and sends under an unlimited plan are not counted. `QuotaLedger.CounterAgainstSends` gives the difference over any
  run, `OutboundService.Pipeline.OutboundJob` and `CampaignSend` say of which calls the two move together.
- `README.md:187` lists a second usage increment after the send; the worker has none.
- `apps/api/src/whatsapp/guardrail.service.ts:34` speaks of a sliding window. It is a fixed window that opens with the first
  send. Without refunds sixty seconds hold up to twice the limit less one, so the promise is kept exactly under a limit
  of one (`SlidingWindow.SlidesIff`). With refunds it is kept under none (`NeverAlwaysSlides`), for two reasons: a refund can
  land in the next lifetime of the key (`LateRefundBreaksOne`), and after a refund the key can lapse between the count
  of one and its expiry (`FactorTwoIsReached`).
- Dropping unquoted CRs in the CSV parser (`apps/api/src/contact/contact.service.ts:165-168`) is not the same as
  deleting them beforehand: `"a"` CR `"b"` reads as `ab`, without the CR as `a"b`. `Csv.StripCRHarmlessIff` says exactly
  when the two agree.
- `apps/api/src/billing/billing.service.ts:145` speaks of suspension after the grace period. A cancelled webhook suspends
  at once (`Billing.SuspendedExactly`, `SuspendedInGrace`).
- END nodes do not stop a flow by themselves (`apps/api/src/flow/flow.executor.ts:102-104`); `FlowExecutor.EndStopsIff` says
  exactly which do.

## Model

| member | source | states |
|---|---|---|
| `QuotaLedger.Ledger` | apps/api/src/billing/plan-limits.service.ts:87-109 | Over every interleaving of any number of workers, the usage counter of a period equals deliveries + guardrail rejections + provider failures + attempts in flight + refusals whose compensation is pending or lost, all counted over attempts charged to that period. |
| `QuotaLedger.DeliveryIsCharged` | apps/api/src/queue/processors.service.ts:155-171 | An attempt delivered under a limited plan is exactly one whose increment still stands in its period: no delivery of the outbound worker escapes the counter. |
| `QuotaLedger.NeverOverPlan` | apps/api/src/billing/plan-limits.service.ts:87-109 | Outbound-worker deliveries, and already admissions, of a period never exceed the largest limit any of them saw, for every interleaving, with retries and with lost compensations. |
| `QuotaLedger.RefusalIsExact` | apps/api/src/billing/plan-limits.service.ts:87-109 | Under one limit, once any attempt of a period was refused exactly `limit` attempts of it had been admitted, even when compensating decrements are lost. |
| `QuotaLedger.CounterAgainstSends` | packages/db/prisma/schema.prisma:466-469 | The schema describes the counter as the messages sent in the period. Over every run the counter less the charged attempts not sent in the period equals all messages sent in it, campaign sends included, less those not charged to it; so the description holds if and only if these two classes are equally large. |
| `QuotaLedger.Mismatches` | packages/db/prisma/schema.prisma:466-469 | Who is in the two classes: uncharged are campaign sends, sends under an unlimited plan and sends charged to an earlier month; charged and not sent are uncompensated refusals, guardrail rejections, provider failures, attempts in flight and sends that went out in a later month. |
| `QuotaLedger.CampaignIsUncounted` | apps/api/src/queue/processors.service.ts:196-229 | A concrete run: a campaign message goes out under a limited plan and the counter stays at zero. |
| `QuotaLedger.UnlimitedIsUncounted` | apps/api/src/billing/plan-limits.service.ts:87-109 | A concrete run: an outbound message goes out under an unlimited plan and the counter stays at zero. |
| `QuotaLedger.FailureUsesQuota` | apps/api/src/queue/processors.service.ts:155-171 | A concrete run with a limit of one: the provider fails once, nothing was sent, and the retry of the job is refused. |
| `MinuteWindow.RunInv` | apps/api/src/whatsapp/guardrail.service.ts:114-153 | In every reachable state each minute counter is the slots taken minus the refunds landed in the current lifetime of its key, and a positive counter has an expiry or a caller about to set one. |
| `MinuteWindow.NeverStuck` | apps/api/src/whatsapp/guardrail.service.ts:147-153 | No account stays blocked: from any reachable state without a caller between INCR and EXPIRE, after one idle minute the next screened send gets a slot. |
| `MinuteWindow.LifetimeBound` | apps/api/src/whatsapp/guardrail.service.ts:147-153 | In each lifetime of the key the sends admitted and not given back are at most the per-minute limit plus the refunds of other lifetimes that landed in it. |
| `MinuteWindow.AnyMinute` | apps/api/src/whatsapp/guardrail.service.ts:147-153 | Any sixty seconds hold at most twice the limit plus the refunds that crossed into the two lifetimes they touch. |
| `MinuteWindow.FactorTwo` | apps/api/src/whatsapp/guardrail.service.ts:147-153 | With no refund crossing an expiry, any sixty seconds hold at most twice the limit. |
| `SlidingWindow.FactorTwoIsReached` | apps/api/src/whatsapp/guardrail.service.ts:147-153 | For every limit a run with no refund crossing an expiry and exactly twice the limit of sends in sixty seconds: after a refund a send counts the key up to one, and the key lapses before that send has set the expiry. |
| `SlidingWindow.TwiceLessOne` | apps/api/src/whatsapp/guardrail.service.ts:147-153 | Without refunds any sixty seconds hold at most twice the limit less one: the send that opened the earlier of two lifetimes is a minute older than the later one. |
| `SlidingWindow.BoundIsReached` | apps/api/src/whatsapp/guardrail.service.ts:147-153 | For every limit a refund-free run with exactly twice the limit less one sends in sixty seconds. |
| `SlidingWindow.SlidesIff` | apps/api/src/whatsapp/guardrail.service.ts:34 | The comment promises a sliding window. Over the refund-free runs under a limit, no sixty seconds hold more sends than the limit if and only if the limit is one. |
| `SlidingWindow.LateRefundBreaksOne` | apps/api/src/whatsapp/guardrail.service.ts:114-119 | With refunds a limit of one fails too: a concrete run in which a send fails after its key lapsed and two messages go out at the same moment. |
| `SlidingWindow.NeverAlwaysSlides` | apps/api/src/whatsapp/guardrail.service.ts:34 | So over all runs the promise holds under no positive limit. |
| `DailyCap.Ledger` | apps/api/src/whatsapp/guardrail.service.ts:155-167 | At every moment today's counter of an account is the deliveries, provider failures and sends in flight counted today. |
| `DailyCap.DeliveriesAreCounted` | apps/api/src/whatsapp/guardrail.service.ts:91-108 | With an explicit daily limit on the account, no delivery escapes the daily counter. |
| `DailyCap.Overshoot` | apps/api/src/whatsapp/guardrail.service.ts:91-108 | With at most k workers between reading and incrementing, no day counts more than cap + k - 1 sends, including those that read before midnight and increment after it. |
| `DailyCap.OvershootIsReached` | apps/api/src/whatsapp/guardrail.service.ts:91-108 | For every cap and every number k of workers at the gate a run counts exactly cap + k - 1 sends on one day. |
| `DailyCap.UsedAtMost` | apps/api/src/whatsapp/guardrail.service.ts:155-167 | A day's counter never exceeds the sends counted on that day: expiry can only lose counts. |
| `DailyCap.SerialNeverExceeds` | apps/api/src/whatsapp/guardrail.service.ts:91-108 | With one worker at the gate at a time no day counts more than its cap. |
| `OutboundService.Pipeline.WarmupCapForAge` | apps/api/src/whatsapp/guardrail.service.ts:169-175 | The loop over the tiers returns the cap of the first tier the age fits in, 0 past thirty days. |
| `OutboundService.Pipeline.AssertCanSendMessage` | apps/api/src/billing/plan-limits.service.ts:87-109 | Admits exactly when the plan is unlimited or the counter stood below the limit; a refusal leaves the counter as it was unless the compensation is lost. No other period, account or attempt changes, and the effect is a run of the caller's own steps. |
| `OutboundService.Pipeline.ConsumeRate` | apps/api/src/whatsapp/guardrail.service.ts:147-153 | Grants a slot exactly when the counter plus one is within the limit or the limit is off; a refused caller counts too; counting up to one sets the expiry a minute ahead, counting further keeps it. No other account or attempt changes. |
| `OutboundService.Pipeline.RefundRate` | apps/api/src/whatsapp/guardrail.service.ts:114-119 | Takes one off a positive minute counter and nothing off any other; the daily counters, the quota and all other accounts and attempts stay. |
| `OutboundService.Pipeline.IncrementDaily` | apps/api/src/whatsapp/guardrail.service.ts:162-167 | Adds one to today's counter, with an expiry 36 hours ahead when it is the first, and changes no other day, account or attempt. |
| `OutboundService.Pipeline.DailyGate` | apps/api/src/whatsapp/guardrail.service.ts:91-110 | Allows exactly when there is no cap or today's counter is below it; a refusal gives the minute slot back and leaves the day alone. No other account or attempt changes. |
| `OutboundService.Pipeline.Preflight` | apps/api/src/whatsapp/guardrail.service.ts:48-111 | Allows exactly when the account is not paused, a META_CLOUD account sends a template or the contact wrote in the last 24 hours, an EVOLUTION account has such a contact, and both counters are below their limits. Says what the minute counter becomes in each of the five outcomes, that only an allowed send counts for the day, and that no other account or attempt changes. |
| `OutboundService.GuardrailsMean` | apps/api/src/whatsapp/guardrail.service.ts:51-175 | The decision and the minute counter of a guarded send in plain terms: pause, service window, per-minute limit, daily limit or else, in warm-up, 50, 250, 1000 or 5000 messages a day for a number up to 3, 7, 14 or 30 days old. |
| `OutboundMachine.CountedKeys` | apps/api/src/whatsapp/guardrail.service.ts:147-167 | Counting adds one to the minute key and to today's key; a first count makes them expire after sixty seconds and thirty-six hours, a further one keeps the expiry. |
| `ServiceWindow.DeliveredWithinRules` | apps/api/src/whatsapp/guardrail.service.ts:51-80 | Over every interleaving each attempt the provider took a message of passed the screen on an unpaused account, as a template or to a contact that was not cold on META_CLOUD, and to a contact that was not cold on EVOLUTION. |
| `ServiceWindow.ForbiddenNeverSent` | apps/api/src/whatsapp/guardrail.service.ts:51-80 | In any run, whatever happens to the account after the fetch: the row fetched and the answer of the attempt's own look-up alone decide whether it passes the screen, and if the rules forbid it, it is never sent. |
| `OutboundService.Pipeline.SendOutbound` | apps/api/src/whatsapp/whatsapp.service.ts:152-182 | Sent exactly when allowed and accepted by the provider; the minute and day counters in every outcome: a failed send gives the minute slot back and keeps its daily count, and the quota does not move. |
| `OutboundService.Pipeline.OutboundJob` | apps/api/src/queue/processors.service.ts:129-171 | One outbound job: its outcome, the usage counter, both guardrail counters and what stays untouched, in every case; and the job moves the usage counter by as much as the messages sent exactly when the plan is unlimited and nothing is sent, the job is below the limit and sent, or it is refused and compensated. |
| `OutboundService.Pipeline.CampaignSend` | apps/api/src/queue/processors.service.ts:196-229 | One campaign send: outcome and both guardrail counters in every case; the usage counter is not touched, so it keeps step with the messages sent exactly when nothing is sent. |
| `OutboundService.Pipeline.SetLimits` | apps/api/src/whatsapp/whatsapp.service.ts:125-139 | The whole new account row: the per-minute limit clamped to 1..600, the daily limit to 0 and up, what is not given as it was; nothing else changes. |
| `GlobalRateLimit.Middleware.Use` | apps/api/src/common/global-rate-limit.middleware.ts:28-58 | A request passes exactly when the limit is off, Redis does not answer the increment, or fewer than `limit` requests were counted in its minute before it; its key counts one more, with an expiry 65 seconds ahead after the first; the effect is a run of the protocol. |
| `GlobalRateLimit.CurrentIs` | apps/api/src/common/global-rate-limit.middleware.ts:34-40 | What an increment counts on from: the stored entry until its expiry, nothing from that moment on. |
| `GlobalRateLimit.OneMinute` | apps/api/src/common/global-rate-limit.middleware.ts:34-57 | Over every interleaving of requests that count within five seconds, and any Redis failures, one IP and clock minute let through at most `cap` counted requests among those with a limit of at most `cap`. |
| `GlobalRateLimit.ExactMinute` | apps/api/src/common/global-rate-limit.middleware.ts:34-57 | With one limit for everybody, of n counted requests of a minute exactly min(n, limit) pass. |
| `GlobalRateLimit.RefusedOnlyWhenFull` | apps/api/src/common/global-rate-limit.middleware.ts:47-56 | Nobody is refused unless more requests of that IP and minute were counted than the refused one's limit. |
| `GlobalRateLimit.AnySixtySeconds` | apps/api/src/common/global-rate-limit.middleware.ts:34-57 | Any sixty seconds of arrivals of one IP let through at most twice the larger limit. |
| `GlobalRateLimit.NoOtherLimits` | apps/api/src/common/global-rate-limit.middleware.ts:30-31 | Every request of a run carries one of the two configured limits. |
| `GlobalRateLimit.LateCountEscapes` | apps/api/src/common/global-rate-limit.middleware.ts:34-40 | Under every positive limit, anonymous or signed in, and for every delay beyond the five seconds of extra expiry, a run in which one minute lets through the limit and one more. |
| `GlobalRateLimit.BoundedIff` | apps/api/src/common/global-rate-limit.middleware.ts:34-57 | With any limit switched on, one IP and clock minute let through at most the larger limit in every run if and only if requests count within five seconds of arriving. |
| `FlowExecutor.Executor.Run` | apps/api/src/flow/flow.executor.ts:84-95 | The loop executes exactly the nodes of the recursive walk with room for 100, in order, with its effects and its ending. |
| `FlowExecutor.ConditionLeads` | apps/api/src/flow/flow.executor.ts:121-142 | At a condition the walk takes the first true edge exactly when the rendered left side equals the right side, holds it, begins with it (both up to case) or matches it, as the operator says, and the first false edge otherwise, so always for an unknown operator; a branch without an edge falls back to the first edge. |
| `FlowExecutor.OthersLead` | apps/api/src/flow/flow.executor.ts:84-95 | Every other node leads along its first edge, and one that throws ends the run there. |
| `FlowExecutor.ThrowsIff` | apps/api/src/flow/flow.executor.ts:106-262 | A node throws if and only if its kind is unknown, it writes to a conversation or contact that is missing, or the queue refuses its job. |
| `FlowExecutor.TouchesOnly` | apps/api/src/flow/flow.executor.ts:106-262 | Each kind of node writes its own part of the rows a flow touches and leaves all others, and only a deal sets a variable. |
| `FlowExecutor.ContactKept` | apps/api/src/flow/flow.executor.ts:152-199 | Tag nodes keep the contact's other fields, updates keep its tags, and no node creates or removes it. |
| `FlowExecutor.UpdatesContact` | apps/api/src/flow/flow.executor.ts:186-199 | An update sets exactly the fields it gives. |
| `FlowExecutor.Writes` | apps/api/src/flow/flow.executor.ts:106-249 | What sending, assigning, tagging, opening a deal and posting write: the rendered text with its job, the member and the conversation's status, the new tag, the deal in the first stage with its rendered title and `lastDealId`, the post unless the address is blocked. |
| `FlowExecutor.FindsLast` | apps/api/src/flow/flow.executor.ts:85 | Of several nodes with one id the last one counts. |
| `FlowExecutor.WalkIsTrail` | apps/api/src/flow/flow.executor.ts:97-262 | With the queue up, and no deals made or no condition reading the last deal, the nodes a run visits do not depend on what its own nodes change. |
| `FlowExecutor.UntruncatedVisitsOnce` | apps/api/src/flow/flow.executor.ts:84-95 | Under the same conditions a run the cap does not cut off executed each visited node once, so at most as many as there are node ids. |
| `FlowExecutor.Dichotomy` | apps/api/src/flow/flow.executor.ts:84-95 | With at most 100 node ids and under the same conditions a run either ends by itself with distinct nodes, or executes exactly 100 nodes and would be cut off by any cap however large. |
| `FlowExecutor.Endless` | apps/api/src/flow/flow.executor.ts:84-95 | Being cut off at 100 means being cut off at every cap. |
| `FlowExecutor.AcyclicNeverTruncated` | apps/api/src/flow/flow.executor.ts:84-95 | On an acyclic document of at most 100 node ids the cap never cuts a run off and no node is executed twice, whatever the nodes do. |
| `FlowExecutor.EndStopsIff` | apps/api/src/flow/flow.executor.ts:88-104 | A run that reaches an END node visits nothing after it if and only if the node's first edge is missing, leads to the empty id or leads to no node. |
| `FlowExecutor.NextNodeIdIs` | apps/api/src/flow/flow.executor.ts:254-262 | The walk follows the first edge of the node's branch, the first edge at all when that branch has none, and ends exactly at a node without edges. |
| `FlowExecutor.TagRoundTrip` | apps/api/src/flow/flow.executor.ts:152-175 | Adding a new tag puts it there, adding it again changes nothing, and removing it restores the contact. |
| `FlowExecutor.QueueCutsShort` | apps/api/src/flow/flow.executor.ts:106-119 | For any failures of the queue a run goes exactly like the one with the queue up, unless it fails at adding a message, and then it has visited the beginning of that one. |
| `FlowExecutor.RunKeeps` | apps/api/src/flow/flow.executor.ts:106-175 | Over any run and any failures of the queue the contact's tags stay free of duplicates, every created message is queued at most once and in order, and the last one lacks its job exactly when the run failed at adding it, all others being queued. |
| `FlowExecutor.DealsChangeBranches` | apps/api/src/flow/flow.executor.ts:201-224 | Why conditions must not read the last deal: a document that visits such a condition twice with different outcomes and then ends. |
| `Template.PassFills` | apps/api/src/flow/flow.executor.ts:294-299 | One replacement pass over printed literals and placeholders, any spacing and letter case, fills exactly the placeholders of its own pattern. |
| `Template.FlowPassesAreSimultaneous` | apps/api/src/flow/flow.executor.ts:294-299 | The three passes of the flow renderer equal one simultaneous substitution, whatever the variables hold, when message and contact id hold no dollar pattern and nothing in which a later placeholder could start. |
| `Template.CampaignPassesAreSimultaneous` | apps/api/src/queue/processors.service.ts:271-275 | The two passes of the campaign renderer equal one simultaneous substitution when neither value holds a dollar pattern and the name nothing in which the phone placeholder could start. |
| `Template.NamedPlaceholders` | apps/api/src/flow/flow.executor.ts:294-299 | The placeholders message and contact.id, and name and phone in campaigns, in any letter case and with any white space, stand for their values; a missing name reads `there`. |
| `Template.CodesExpand` | apps/api/src/flow/flow.executor.ts:294-299 | The four dollar patterns of a replacement string stand for a dollar sign, the match, and the text before and after it. |
| `Template.QuietIff` | apps/api/src/flow/flow.executor.ts:294-299 | Why that condition: a text survives a pass, whatever the pass fills in and whatever follows the text, if and only if no placeholder of the pass can start in it. |
| `Template.CalmIsQuiet` | apps/api/src/flow/flow.executor.ts:294-299 | No placeholder can start in a text that neither ends in an opening brace nor has two in a row. |
| `Template.InertIff` | apps/api/src/flow/flow.executor.ts:294-299 | Why dollar patterns are excluded: a string value is substituted as it is, in every surrounding, if and only if no dollar sign in it is followed by a dollar sign, ampersand, backquote or quote. |
| `Template.MessageCanSpellPlaceholder` | apps/api/src/flow/flow.executor.ts:294-299 | Why braces are excluded: a message that spells a placeholder is itself substituted. |
| `Csv.Tokenise` | apps/api/src/contact/contact.service.ts:132-183 | The character loop produces exactly the rows of the recursive grammar, on every input. |
| `Csv.PrintThenTokens` | apps/api/src/contact/contact.service.ts:137-183 | Rows of arbitrary strings, each field printed quoted or, where it holds no quote, comma, CR or LF, bare, each row ended by LF or CRLF, tokenise to the same rows; only a row with no field comes back as one empty field. |
| `Csv.RoundTrip` | apps/api/src/contact/contact.service.ts:137-183 | Printing in any such way and tokenising gives the rows back if and only if no row is without fields (section 2 of RFC 4180, rules 1 and 4 to 7). |
| `Csv.LastEndOptionalIff` | apps/api/src/contact/contact.service.ts:179-182 | The last line end may be missing (rule 2), if and only if the last row is not a single empty field. |
| `Csv.StripCRHarmlessIff` | apps/api/src/contact/contact.service.ts:154-168 | Deleting every CR outside quotes leaves the result unchanged if and only if no closing quote is followed, across CRs, by an opening quote; CRs inside quotes are kept. |
| `Csv.StripCRCanChange` | apps/api/src/contact/contact.service.ts:139-168 | A concrete text whose rows change when its unquoted CR is deleted. |
| `ContactImport.MapRow` | apps/api/src/contact/contact.service.ts:185-198 | Each field is the last non-empty trimmed cell under one of the header words that stand for it (phone, mobile, number; name, full name; email, e-mail; tags, tag; language, lang); missing cells count as empty. |
| `ContactImport.ParseCsv` | apps/api/src/contact/contact.service.ts:130-199 | The rows below the header line of the grammar's rows, after one leading BOM is dropped, each mapped by the trimmed lower-case header. |
| `ContactImport.PrintedFile` | apps/api/src/contact/contact.service.ts:130-199 | A printed file, with or without a BOM, reads as one row per line below the header, each field looked up under the header words up to case and surrounding spaces. |
| `ContactImport.SplitTagsIs` | apps/api/src/contact/contact.service.ts:74-77 | A row's tags are its text cut at every separator and nowhere else, each piece trimmed, blank ones dropped, in order. |
| `ContactImport.DedupeClean` | apps/api/src/contact/contact.service.ts:122-124 | The result holds no duplicate, no blank and no untrimmed tag. |
| `ContactImport.DedupeMember` | apps/api/src/contact/contact.service.ts:122-124 | It holds exactly the non-empty trimmed values of the list. |
| `Text.DigitsIs` | apps/api/src/contact/contact.service.ts:68 | Phone clean-up works character by character and keeps exactly the ten digits. |
| `Text.LowerIs` | apps/api/src/contact/contact.service.ts:185 | Header names lose their case letter by letter; nothing else changes. |
| `ContactImport.ContactService.ImportCsv` | apps/api/src/contact/contact.service.ts:61-113 | The loop computes the import of the parsed rows; created + updated + skipped = total and there is one error per skipped row. |
| `ContactImport.Conservation` | apps/api/src/contact/contact.service.ts:61-113 | With any database errors: the counters add up to the rows, errors to the skips, the table grows by exactly the created contacts, and only contacts of this client with a phone change. |
| `ContactImport.ErrorsAre` | apps/api/src/contact/contact.service.ts:66-110 | The report lists exactly the skipped rows, by line number and in order: without a digit in the phone, or failed in the database. |
| `ContactImport.ImportGives` | apps/api/src/contact/contact.service.ts:66-106 | Exactly what an import leaves: a contact exists if and only if it did or a row has its phone; each field is the last value its rows give or else what it was, English for a new contact; its tags are the old ones and those of its rows, no others. |
| `ContactImport.ImportAbsorbs` | apps/api/src/contact/contact.service.ts:66-106 | After an import without database errors every phone of the file has a contact holding the last value the file gives it for each field and every tag. |
| `ContactImport.SecondImport` | apps/api/src/contact/contact.service.ts:61-113 | Importing the same rows again creates nothing, updates exactly the rows with a phone, and changes no name, email, language or set of tags of any contact. |
| `ContactImport.ThirdImport` | apps/api/src/contact/contact.service.ts:61-113 | From the second import on the table, tag order included, does not change at all. |
| `Chunker.WindowEnd` | apps/api/src/ai/rag.service.ts:37-47 | A window ends after its start and at most 1500 later, at the end of the text exactly when that is within reach, and otherwise at least 752 later. |
| `Chunker.CutsAtLastBreak` | apps/api/src/ai/rag.service.ts:38-46 | A window that is not the last ends right after the last sentence or paragraph break in its second half, and in full length exactly when there is none. |
| `Chunker.KeepNonEmpty` | apps/api/src/ai/rag.service.ts:53 | Dropping the blank ones of the trimmed windows leaves the chunks of those windows, in order. |
| `Chunker.Chunk` | apps/api/src/ai/rag.service.ts:30-54 | The loop terminates and returns nothing for the empty text, a short text whole, and otherwise the trimmed non-blank windows. |
| `Chunker.ChunkWindows` | apps/api/src/ai/rag.service.ts:36-52 | Windows form a chain overlapping by exactly 200 in which each but the last two advances by at least 552; the final window is always the last 200 characters, inside the one before; there are at most 2 + (len - 201) / 552. |
| `Chunker.Reconstruction` | apps/api/src/ai/rag.service.ts:36-52 | Dropping the overlaps rebuilds the text. |
| `Chunker.NothingLost` | apps/api/src/ai/rag.service.ts:48-53 | After trimming and filtering every character that is not white space lies in a chunk, every chunk is a piece of the text, none is blank and none is longer than 1500. |
| `AuthTokens.AuthStore.IssueRefresh` | apps/api/src/auth/token.service.ts:34-57 | Presenting the issued token finds the new row, alive until it expires; what any other token finds is unchanged; drawn fresh, the call is a step of the machine. |
| `AuthTokens.AuthStore.Rotate` | apps/api/src/auth/token.service.ts:59-92 | Unknown, reused or expired, and valid tokens: each row of the table and the answer in each case; after detected reuse every row of the family is revoked. |
| `AuthTokens.AuthStore.Revoke` | apps/api/src/auth/token.service.ts:94-100 | Every row of the presented token ends revoked, at the time it first was; every other row is the same; an unknown token changes nothing; the call is a step of the machine. |
| `AuthTokens.AuthStore.RequestReset` | apps/api/src/auth/password-reset.service.ts:26-44 | Adds one reset link for a known subject and does nothing for an unknown one. |
| `AuthTokens.AuthStore.ConfirmReset` | apps/api/src/auth/password-reset.service.ts:46-63 | Refuses passwords under eight characters and unknown, used, expired or other-purpose links without a change; otherwise uses the link, sets the password and revokes the subject's tokens, and changes no other row. |
| `AuthTokens.AuthStore.IssueOtp` | apps/api/src/auth/password-reset.service.ts:101-119 | Consumes the subject's pending codes and adds one. |
| `AuthTokens.AuthStore.VerifyOtp` | apps/api/src/auth/password-reset.service.ts:121-150 | Looks at the newest pending code: refuses when missing, expired or tried wrongly five times, counts a wrong code, and accepts and consumes exactly the right one. |
| `Credentials.CodeWorksIff` | apps/api/src/auth/password-reset.service.ts:101-150 | Over any run without a further code for the subject: an entry is accepted if and only if it is the code issued, ten minutes have not passed, fewer than five wrong codes were entered in time and the code was not entered before. |
| `Credentials.LinkWorksIff` | apps/api/src/auth/password-reset.service.ts:26-63 | Over any run: a reset link works if and only if the new password has eight characters, thirty minutes have not passed, the account exists and the link was not used in that way before. |
| `Credentials.TokenWorksIff` | apps/api/src/auth/token.service.ts:34-100 | Over any run: the refresh token of a login is exchanged if and only if it has not expired and since then was neither presented nor logged out and its subject's password was not reset; any other time it is presented counts as reuse. |
| `AuthTokens.AcceptedIsRight` | apps/api/src/auth/password-reset.service.ts:131-149 | An accepted entry is the code of the subject's newest unconsumed row, in time and before the fifth wrong try. |
| `AuthTokens.RunFamilies` | apps/api/src/auth/token.service.ts:34-100 | Over any run of issue, rotate, revoke, reset and code calls: one subject per family, only the newest row of a family may be unrevoked, and `replacedBy` links lead from each row to a later one of its family. |
| `AuthTokens.AtMostOneLive` | apps/api/src/auth/token.service.ts:76-84 | Two rows of one family share the subject, and if both are unrevoked they are the same row. |
| `AuthTokens.DeadForever` | apps/api/src/auth/token.service.ts:67-84 | A family without an unrevoked token never has one again, in any run. |
| `AuthTokens.ReuseKillsFamily` | apps/api/src/auth/token.service.ts:67-74 | Presenting a revoked or expired token leaves its family without an unrevoked token, now and after any later calls. |
| `AuthTokens.ResetLogsOut` | apps/api/src/auth/password-reset.service.ts:46-63 | A successful reset leaves the subject no unrevoked token, and any it has later belongs to a family that did not exist then. |
| `AuthTokens.ResetOnlyOnce` | apps/api/src/auth/password-reset.service.ts:46-63 | Once a reset link has worked, it never works again in any later run. |
| `AuthTokens.RunOtp` | apps/api/src/auth/password-reset.service.ts:101-150 | Over any run each subject has at most one unconsumed code. |
| `AuthTokens.AcceptedOnce` | apps/api/src/auth/password-reset.service.ts:131-149 | A code that was accepted is never accepted again. |
| `AuthTokens.AttemptsAreMisses` | apps/api/src/auth/password-reset.service.ts:138-144 | A code's counter is the number of wrong codes entered against it in the run. |
| `AuthTokens.FiveWrongAttempts` | apps/api/src/auth/password-reset.service.ts:131-144 | At most five wrong codes are ever counted against one code, and after five even the right one is refused. |
| `WebhookIngest.WebhookService.SaveContact` | apps/api/src/webhook/webhook.service.ts:89-98 | Creates the contact of (client, phone) or updates the one there is, keeping its name unless a name was sent. |
| `WebhookIngest.WebhookService.IngestInbound` | apps/api/src/webhook/webhook.service.ts:77-147 | One message: ignored without a known account, without a sender or when its id is stored; otherwise contact, conversation, message row and job, as IngestLands spells out. |
| `WebhookIngest.AcceptedIff` | apps/api/src/webhook/webhook.service.ts:77-87 | A message is taken up if and only if it names a sender and some account has its provider and the identifier it was sent to. |
| `WebhookIngest.IngestLands` | apps/api/src/webhook/webhook.service.ts:89-147 | One taken-up message adds one unread row and one job, in an unresolved conversation between an account with that provider and identifier, its client and the sender; a conversation is opened only if all theirs are resolved, and no other one changes. |
| `WebhookIngest.UpsertIs` | apps/api/src/webhook/webhook.service.ts:89-98 | The contact of the client with the sender's number, seen now, renamed only by a sent name, created only if there was none; no other contact changes. |
| `WebhookIngest.WebhookService.HandleParsedEvents` | apps/api/src/webhook/webhook.service.ts:57-75 | The two loops apply every message and then every status of a delivery, in order. |
| `WebhookIngest.ExactlyOnce` | apps/api/src/webhook/webhook.service.ts:77-147 | Over any run of deliveries with non-empty ids, interleaved with conversation changes: one stored row and one job per distinct accepted id, in order of first arrival, with the first arrival's content. |
| `WebhookIngest.LandsWhereSent` | apps/api/src/webhook/webhook.service.ts:77-147 | Over any run the row of every first arrival lies in a conversation between its sender and the account it was sent to, with that account's client, and stays there. |
| `WebhookIngest.RepeatIgnoredIff` | apps/api/src/webhook/webhook.service.ts:83-87 | Delivering a message twice is delivering it once if and only if it is refused anyway or carries an id. |
| `WebhookIngest.RunUniqueContacts` | apps/api/src/webhook/webhook.service.ts:89-98 | Contacts stay unique per client and phone over any run. |
| `WebhookIngest.IngestKeepsOneLive` | apps/api/src/webhook/webhook.service.ts:100-117 | Ingestion alone never opens a second unresolved conversation of a contact on an account. |
| `WebhookIngest.ReportsMark` | apps/api/src/webhook/webhook.service.ts:67-74 | Statuses change nothing but read marks, and of each id only the last one counts. |
| `WebhookIngest.ReplayChangesNothing` | apps/api/src/webhook/webhook.service.ts:57-147 | Delivering a batch of identified messages and statuses again, at whatever time, leaves the whole state as it was. |
| `IngestRace.AtMostOnce` | apps/api/src/webhook/webhook.service.ts:77-147 | Any number of handlers at once, one database or queue operation per step, any of them failing, outbound rows written meanwhile: at most one row per message id, at most one job per row, jobs for inbound rows only, contacts unique. |
| `RaceLanding.RaceLands` | apps/api/src/webhook/webhook.service.ts:89-146 | With handlers at once, any interleaving and any failures: a delivery's row lies in a conversation on its account with that client and its sender, and the row's job names that conversation. |
| `IngestRace.JobIffNotStranded` | apps/api/src/webhook/webhook.service.ts:119-146 | Once all handlers have ended, an inbound row has its job if and only if the handler that stored it did not break after storing it. |
| `IngestRace.EndedWellIsStored` | apps/api/src/webhook/webhook.service.ts:83-86 | A delivery that ended with a job or as a duplicate left a row with its id. |
| `IngestRace.JobCanBeLost` | apps/api/src/webhook/webhook.service.ts:58-64 | A concrete run: the queue fails after the message was stored, the error is logged, and the next delivery is taken for a duplicate. |
| `IngestRace.CreateKeepsIff` | apps/api/src/webhook/webhook.service.ts:100-117 | A handler that creates a conversation keeps at most one unresolved per contact and account if and only if the look-up would still find none. |
| `IngestRace.OneLiveIff` | apps/api/src/webhook/webhook.service.ts:100-117 | While no status is set, handlers running at once leave at most one unresolved conversation per contact and account if and only if none ever creates one after another has. |
| `IngestRace.NoClashNoSecond` | apps/api/src/webhook/webhook.service.ts:100-117 | Over any run with any statuses set and none reopened: if no handler creates after another has, there is at most one. |
| `IngestRace.ExclusiveKeepsOne` | apps/api/src/webhook/webhook.service.ts:100-117 | Over any run in which no status is reopened it is enough that no two handlers are ever between looking for and creating the conversation of the same contact. |
| `IngestRace.TwoConversations` | apps/api/src/webhook/webhook.service.ts:100-117 | A concrete run without that: two messages of a new contact handled at once open two conversations. |
| `Billing.BillingService.Checkout` | apps/api/src/billing/billing.service.ts:29-75 | Free, purchasable and refused plans: what the row and the agency become, and that every refusal or failure leaves the state alone. |
| `Billing.BillingService.Cancel` | apps/api/src/billing/billing.service.ts:77-87 | Not found exactly without a provider id; otherwise, once the provider agrees, the row becomes CANCELLED and keeps everything else, grace period included. |
| `Billing.BillingService.ApplyWebhook` | apps/api/src/billing/billing.service.ts:127-163 | The new row and agency for known and unknown subscriptions; an unknown one changes nothing. |
| `Billing.WebhookWrites` | apps/api/src/billing/billing.service.ts:135-194 | What a webhook writes for every status word, unknown and missing ones included: status, period end, grace period and the agency's switch; the rest of the row and all other rows stay. |
| `Billing.GraceExactly` | apps/api/src/billing/billing.service.ts:139-143 | Over any mix of checkouts, cancellations and webhooks a row is in grace if and only if a past-due webhook was applied since the last active one or the row's creation, and it ends seven days after the first such webhook. |
| `Billing.AppliedExactly` | apps/api/src/billing/billing.service.ts:127-133 | A webhook is applied to an agency if and only if it names the subscription of that agency's latest paid checkout, with no free checkout since; webhooks of replaced or dropped subscriptions change nothing. |
| `Billing.SuspendedExactly` | apps/api/src/billing/billing.service.ts:145-159 | An agency is suspended if and only if a cancellation was applied to it or an administrator switched it off, and none switched it on since; a running grace period does not matter, although the comment says so. |
| `Billing.SuspendedInGrace` | apps/api/src/billing/billing.service.ts:145-159 | On a row with a running grace period a cancelled webhook suspends the agency at once and leaves the grace as it was; the comment speaks of suspension after it. |
| `Billing.RunSound` | apps/api/src/billing/billing.service.ts:56-73 | Over any run provider ids stay unique and every row belongs to an agency. |
| `Billing.RunConsistent` | apps/api/src/billing/billing.service.ts:139-152 | Over any run a past-due row has a grace period and an active row has none. |
| `Billing.DocumentedEvents` | README.md:197-199 | The documented statuses: active clears the grace, halted makes the row past due with seven days of grace, cancelled also suspends the agency. |
| `Billing.WebhookReplay` | apps/api/src/billing/billing.service.ts:135-152 | Applying the same webhook again, however late, changes nothing. |
| `Billing.GraceSurvivesCheckout` | apps/api/src/billing/billing.service.ts:66-72 | A paid checkout keeps the old grace: going past due on the new plan still ends seven days after the first past-due webhook on the old one. |
| `CampaignFanout.CampaignService.Start` | apps/api/src/campaign/campaign.service.ts:47-80 | Selects the recipients, marks the campaign sending with their number, and queues one job after the other, the jobs of contacts not yet queued each 200 ms after the one before; another client's campaign is not found. |
| `CampaignFanout.CampaignService.PauseCampaign` | apps/api/src/campaign/campaign.service.ts:82-86 | Pauses the client's own campaign and changes nothing else. |
| `CampaignFanout.CampaignService.RunJob` | apps/api/src/queue/processors.service.ts:199-229 | One undisturbed job: skipped, blocked or delivered exactly by campaign status, contact, account and provider, with its effect on outbox and counter. |
| `CampaignFanout.SelectIs` | apps/api/src/campaign/campaign.service.ts:52-62 | Recipients are exactly the client's contacts that neither opted out nor are blocked and, if a tag filter is given, carry one of its tags; each once. |
| `CampaignFanout.SendableIff` | apps/api/src/queue/processors.service.ts:203-204 | A contact may be sent to exactly while it exists and neither opted out nor is blocked, and then at its own phone. |
| `CampaignConsent.SentWasWilling` | apps/api/src/queue/processors.service.ts:199-208 | Over every interleaving each job whose message went out saw, at moments of the run when it was its turn to look, the campaign sending, its contact willing and an account connected. |
| `CampaignFanout.RunBooked` | apps/api/src/queue/processors.service.ts:212-229 | Over any interleaving the campaign's delivered counter is its delivered jobs, and the sends to each contact are that contact's accepted jobs. |
| `CampaignFanout.Conservation` | apps/api/src/campaign/campaign.service.ts:64-79 | For one start, at every moment of every interleaving, with jobs retried and given up on: recipients = still to be queued + pending + delivered + blocked + skipped + given up on. |
| `CampaignRestart.FurtherStart` | apps/api/src/campaign/campaign.service.ts:47-80 | Once a further start has queued everything, with workers, pauses and contact changes going on, the equation holds again if and only if, before the call, every job was still remembered by the queue and its contact is selected again. |
| `CampaignRestart.StaysAsItIs` | apps/api/src/campaign/campaign.service.ts:64-79 | When all starts have queued everything, whether the equation holds does not change until the next start, whatever happens to the jobs. |
| `CampaignRestart.SecondStartBreaks` | apps/api/src/campaign/campaign.service.ts:52-67 | A concrete pair of finished starts that breaks it until the next start: the one recipient of the first opts out before the second. |
| `CampaignFanout.RunTries` | apps/api/src/queue/queue.module.ts:14-19 | No job throws more than five times, and one that did is over. |
| `CampaignFanout.AtMostOncePerStart` | apps/api/src/campaign/campaign.service.ts:69-78 | A contact is sent to at most once per start that queued it, even if jobs throw and are retried and the queue forgets finished jobs. |
| `CampaignFanout.AtMostOnce` | apps/api/src/campaign/campaign.service.ts:72-76 | While the queue remembers its job ids a contact is sent to at most once, however often the campaign is started. |
| `CampaignFanout.AnyWindow` | apps/api/src/campaign/campaign.service.ts:69-78 | Of one start at most ceil(width / 200) jobs have a delay, or fall due, in any window of that width. |
| `CampaignFanout.RunBusy` | apps/api/src/queue/processors.service.ts:255 | No more jobs are in progress than there are workers. |
| `CampaignFanout.PauseStops` | apps/api/src/queue/processors.service.ts:201-202 | After a pause and until the next start no more messages go out than there are workers, however many jobs wait. |
| `CampaignFanout.OptOutHolds` | apps/api/src/queue/processors.service.ts:203-204 | Once a contact is opted out, blocked or gone and no job of it is past that check, it is never sent to again, through any later starts. |

## Left out

- DailyCap.Overshoot: speaks of runs in which the positive caps seen do not exceed `cap`; a cap lowered while sends are in progress is bounded by the older, larger one.
- GlobalRateLimit.AnySixtySeconds: intervals are over arrival times, and every request is taken to count within five seconds of arriving; BoundedIff shows that assumption is needed. Requests let through uncounted (limit off, Redis down) are not bounded.
- WebhookIngest.ExactlyOnce: needs non-empty message ids and serial handlers; RepeatIgnoredIff is about messages without an id, IngestRace about handlers at once.
- Credentials.TokenWorksIff: speaks of the token of a login and of runs whose drawn names are new.
- WebhookIngest.LandsWhereSent: needs non-empty message ids and serial handlers, like ExactlyOnce; RaceLands is about handlers at once.
- ContactImport.SecondImport: speaks of imports without database errors; Conservation and ErrorsAre cover those with errors.
- CampaignFanout.Conservation: speaks of a single start; CampaignRestart.FurtherStart says exactly when it survives a further one, during which the queue is taken to forget no job.
- Template.FlowPassesAreSimultaneous: excludes values that a later pass could change; QuietIff shows that condition exact for one pass, MessageCanSpellPlaceholder shows a value it excludes.
- FlowExecutor.Dichotomy: takes the queue to be up; QueueCutsShort says what a failing one changes. Other database errors inside a node, which also end the run, are not modelled.
- Provider, Razorpay and e-mail clients: a call is a success or a failure, given as a parameter.
- The service window: whether a contact is cold is a parameter of each send; the message count behind it is not modelled, nor are the quality-event log entries.
- The calendar: the UTC month is a number that may advance at any step, independently of the clock; the UTC day is the clock divided by its length.
- An agency missing from the plan look-up, and the plan catalogue: the limit is a parameter.
- The direct increment of the usage counter (`apps/api/src/billing/plan-limits.service.ts:111-121`): no modelled worker calls it.
- A process that dies between INCR and EXPIRE: NeverStuck is about states in which nobody is between the two.
- Finding the flows a trigger starts, keyword and regular-expression matching, and the address filter: regular expressions and the filter are functions supplied from outside, and so is lower-casing in conditions.
- Delay nodes' waiting.
- Text units: a Dafny character is a code point, while the positions, lengths and windows of the source count UTF-16 units, so characters outside the basic plane count once here and twice there.
- Text clean-up before chunking: the window loop takes the cleaned text. Embedding and retrieval are not modelled.
- The error text of a failed row, and JavaScript's Unicode lower-casing of headers beyond ASCII.
- Hashing and random generation: a token stands for its hash, and drawn tokens and families are taken to be new. Access tokens, user agents and addresses are not modelled.
- Interleavings inside one rotation or one code check: the code does not make these atomic, so calls are serial.
- E-mail verification links, sign-in and account deletion.
- Connection and quality events of webhooks, media fields and realtime notifications.
- Status reports while handlers run at once; serially they are in WebhookIngest. An outbound row whose job runs again after its id was written: its id is taken to be written once.
- Payment-link webhooks, usage status, and subscription rows changed by hand.
- The client address taken from headers: the IP is a parameter of each request.
- What the queue waits between tries, database errors after an accepted campaign send, the conversation and message rows written then, and stalled jobs: a job that loses its worker after the send could send again.
- Guardrails inside a campaign send: its answer is one Boolean in CampaignFanout; OutboundService models the send itself.
- Scheduled campaigns, creation and listing of campaigns, and when a delayed job is actually picked up.
- Owner checks, CRUD services, controllers and the web application: single branches without a property over runs.
