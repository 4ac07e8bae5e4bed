# Verified model of factory-monitor-ai

This project models, in Dafny, the parts of factory-monitor-ai whose correctness depends on order,
interleaving or counting, and proves what those parts promise.

- **Escalation, outbox and ingest** (`Model`, `Escalation`, `Relay`, `Ingest`, `Protocol`): escalation
  workers, notifier relays, ingest consumers, the acknowledge and resolve requests and the Twilio reply
  handler act on one set of tables. `Protocol` is the transition system: twenty kinds of step, each one
  transaction or one message, any number of each kind of process, crashes at any point. `Guarantees`,
  `Fencing`, `Paging`, `Timers`, `Recovery`, `Fairness`, `Attempts`, `Replay`, `Redelivery` and `CatchUp` prove
  properties of all its runs, `Effects` and `Audit` say in columns and literals what its transactions write and what
  the log and the stamps then mean, and `Witness` exhibits runs that reach the states the counterexamples start from.
  `Store` is the same code in imperative form, each method proved against the function that the transition system
  uses.
- **Live view** (`Live`, `Mirror`, `Convergence`, `Commits`, `Channel`, `LiveDelivery`, `Fallback`, `Clock`, `Cadence`):
  numbered per-connection streams, the browser's reducer, deltas against full views, announcements and timer
  snapshots that read the rows early or late, the database-polling fallback, the re-anchor loop and the smoothed
  server clock. `Commits` ties it to the transition system.
- **Edge** (`Debounce`, `Engine`): the M-of-N debouncer and the frame × track × zone loop that drives it.

## How to read the model

- A run is any sequence of steps each enabled in the state the previous ones left; "after every run" quantifies
  over all of them. A worker's claimed rows ("tickets") and a relay's claimed pages ("parcels") are kept per
  (process, row) and may be handled in any order, which includes the sequential order of the code.
- One monotone clock, in microseconds, stands for the database clock and every process clock. On-call and
  tier-configuration lookups are arbitrary partial functions of role or tier, incident facts and time. Fresh
  UUIDs are ids not yet in use. The idempotency key of a page is its (incident, tier) pair.
- Acknowledge, resolve and the reply handler are two steps, an unlocked read and a later write. The write is
  column-level, as the ORM sends only changed columns: it clears a timer only if the read saw one.
- A provider call is a step whose results the environment picks; it may also take the message and report
  failure. "Delivered" counts outbox rows accepted at least once, i.e. it assumes a receiver that drops
  repeats of the same row id.
- Statements about columns (`Effects`, `Audit`, `Redelivery.PassInColumns`, `Live.ShowsRow`, `Engine.BreaksRule`, ...)
  name statuses, keywords, periods and columns themselves and not the functions that the transition system is built
  from, so that they can be read against the source without those.
- Each SENT row's `Message` carries its row id, each record its fate and each dead letter the position of its
  record; these exist only to state properties.

## What turned out not to hold

Each of these is stated as a lemma with a case that fails, beside the condition under which the promise holds.

- The re-check before a fire does not compare the timer with the clock. A worker that lets its lease run out
  while another fires the row takes it one tier further before the new timer is due
  (`Timers.StaleTicketFiresEarly`, from a state that `Witness.TwoTickets` reaches). The fires of an incident all
  come when due exactly when every fire that passes the re-check finds its timer due (`Timers.OnTimeIff`). A test
  the worker could make, that the row is still at the tier its claim returned, is enough
  (`Timers.ClaimedTierIsDue`), and a worker that acts within its leases passes it anyway
  (`Timers.InLeaseKeepsTier`).
- Settling a page tests its status and not its claim, so the comment at relay.py:161-162 does not describe the
  code: a relay with an expired lease settles a row another relay holds (`Guarantees.StaleClaim`,
  `Guarantees.StaleSettle`, from a state that `Witness.TwoParcels` reaches). A settle is the holder's own exactly
  when the attempt its claim returned is still the row's (`Fencing.HolderIff`), a holder loses its row to a settle
  exactly when that test fails (`Fencing.HolderLosesIff`), and with the test no accepted send of a latest attempt
  would be dropped (`Fencing.FencedSendLands`). Relays that settle within their leases pass it
  (`Fencing.InLeaseIsFenced`). One out-message per SENT row holds either way
  (`Guarantees.SettledExactlyOnce`).
- RESOLVED and CRITICAL_UNRESOLVED are not terminal and the audit log is not a connected path when closing
  requests race (`Guarantees.RaceLeavesResolved`, `Guarantees.RaceLeavesResolvedAtTierThree`,
  `Witness.LeavesResolved`). A terminal status changes exactly when a close decided on an earlier status
  acknowledges the incident, or resolves it while it is CRITICAL_UNRESOLVED (`Guarantees.TerminalChangesIff`,
  `Guarantees.TerminalIsFinal`). A close keeps the path exactly when the row still has the status that was read
  (`Guarantees.ClosePathIff`).
- The two tier-label functions disagree at tier 3 for any status but CRITICAL_UNRESOLVED, which the race above
  reaches (`Live.LabelsAgreeIff`, `Mirror.ResolvedDeltaSyncsIff`).
- A connect snapshot read before a change and sent after it overwrites the change without a gap
  (`Mirror.SnapshotIsCurrentIff`).
- Replaying a record after its suppressing incident was closed makes a new incident
  (`Replay.ReplayAfterCloseCreates`): handling a record inserts exactly when neither its event id nor an open
  incident with its key is there (`Replay.InsertsIff`).
- A missing tier configuration leaves an open incident without a timer for good
  (`Recovery.FireArmsIffConfigured`, `Fairness.AdvancesIffArmed`).
- ceil(k / batch) polls need not drain k overdue incidents: an incident whose new timer is no later than that of
  one still waiting is ahead of it again, exactly then (`Fairness.CutsInIff`). With a delay of zero and two timers
  at this very moment the same incident may be taken twice (`Fairness.ZeroDelayCutsIn`). The queue ahead of an
  incident gets a batch shorter with every poll that passes it over, and longer by those that cut in
  (`Fairness.PassedOverExactly`), so that ceil((k + cut-ins) / batch) polls do (`Fairness.WaitingEndsInOrder`).
  Nobody cuts in when the delays are positive, or not negative and the timer strictly before the first poll
  (`Fairness.DelaysKeepOrder`, `Fairness.NoCutIns`). Whatever the delays, nobody waits for more than the fires left
  in the incidents ahead (`Fairness.WaitingEnds`).
- A timer snapshot read before a change and sent after its announcement overwrites the change without a gap
  (`Mirror.StaleTimerAfterResolve`: a resolved incident with a deadline, which nothing later repairs,
  `Convergence.ResolvedIsNotRepaired`). It keeps a mirroring browser exactly when every listed known incident still
  has the deadline and the tier that were read (`Mirror.StaleTimersKeepIff`), and one that is settling exactly when
  these are right as far as no pending change can touch them (`Convergence.ShowSettlesIff`).
- The fallback never shows a write stamped at or below its cursor (`Fallback.WriteIsSeenIff`). Such writes
  exist: acknowledge and resolve stamp `updated_at` with a clock read before the commit, and `now()` in the
  firing transaction is its start. `updated_at` even goes back, exactly when a close writes a row that has been
  stamped since it was read (`Audit.StampGoesBackIff`).
- A debouncer with m = 0 opens on a calm frame; with m at least 1 none ever does (`Debounce.CalmOpensNothingIff`).

## Model

| member | source | states |
|---|---|---|
| Escalation.FireAdvances | factory-monitor-ai/cloud/escalation_worker/transition.py:81-102 | With the table invariants, a fire that passes the re-check always finds a transition, (incident, tier + 1) is free in the idempotency table and in the outbox, and it advances one tier; otherwise nothing changes |
| Escalation.FireEffect | factory-monitor-ai/cloud/escalation_worker/transition.py:104-183 | The exact tables a firing transaction leaves: row with status, tier, timer and deadline set and claim cleared, one idempotency row, one event, at most one page |
| Escalation.FireKeepsEscalation | factory-monitor-ai/cloud/escalation_worker/transition.py:52-187 | A fire keeps, for all incidents, idempotency tiers = 1..current_tier, the ordered fire events, status matching tier, deadline = timer |
| Escalation.FireKeepsPages | factory-monitor-ai/cloud/escalation_worker/transition.py:168-183 | A fire keeps outbox keys unique, page tiers at most min(2, current_tier), and every page owned by an incident |
| Escalation.CloseKeepsEscalation | factory-monitor-ai/cloud/common/incident_actions.py:46-81 | A close computed from a stale read still keeps those invariants, given that a timer seen as absent is still absent |
| Escalation.LogGrows | factory-monitor-ai/cloud/escalation_worker/transition.py:134-145 | How appending one event moves an incident's fire events, its last status and the connectedness of its path |
| Relay.ChainSend | factory-monitor-ai/cloud/notifications/chain.py:27-61 | The first provider that answers "sent" decides, no later one is asked, and if none does the last answer is returned; an empty chain is the error case |
| Relay.ChainAcceptsIff | factory-monitor-ai/cloud/notifications/chain.py:27-61 | A chain accepts a message if and only if one of its providers does |
| Relay.TotalBackoffClosedForm | factory-monitor-ai/cloud/notifier_worker/relay.py:75-78 | The first n waits sum to base·(2^n − 1) exactly when the one-hour cap has not bitten, and never exceed it |
| Relay.SettleKeepsRelay | factory-monitor-ai/cloud/notifier_worker/relay.py:155-214 | Settling any parcel, stale ones included, keeps one out-message per SENT row and none otherwise, and SENT only after acceptance |
| Relay.ClaimKeepsRelay | factory-monitor-ai/cloud/notifier_worker/relay.py:53-72 | Claims and reclaims of expired leases keep the same invariant |
| Ingest.EvolvesKeepsIntake | factory-monitor-ai/cloud/ingest_worker/consumer.py:136-164 | Whatever other steps do to the tables, the recorded outcome of every handled record stays true |
| Ingest.InsertKeepsSources | factory-monitor-ai/cloud/ingest_worker/service.py:103-188 | A successful insert keeps incidents and source event ids one-to-one and open dedup keys distinct |
| Protocol.StepKeepsInv | factory-monitor-ai/cloud/escalation_worker/worker.py:44-187 | Every step of every process keeps the joint invariant of the four components |
| Protocol.RunKeepsInv | factory-monitor-ai/cloud/escalation_worker/worker.py:44-187 | The joint invariant holds after every run |
| Effects.WorkerClaims | factory-monitor-ai/cloud/escalation_worker/worker.py:44-65 | A worker may claim exactly AWAITING_OPERATOR, TIER1 and TIER2 incidents whose timer has come and whose claim, if any, has run out; the claim writes worker and lease and nothing else |
| Effects.ReleasedAtOnce | factory-monitor-ai/cloud/escalation_worker/worker.py:67-69 | After the release that follows an error, an incident whose timer has come can be claimed again at once |
| Effects.RelayClaims | factory-monitor-ai/cloud/notifier_worker/relay.py:53-72 | A relay may claim exactly PENDING pages with next_attempt_at in the past and SENDING pages with an expired lease; they become SENDING with one attempt more, and nothing else changes |
| Effects.FireInColumns | factory-monitor-ai/cloud/escalation_worker/transition.py:81-187 | After every run a fire takes exactly an open incident with a timer one rung up AWAITING_OPERATOR, TIER1, TIER2, CRITICAL_UNRESOLVED: status, tier, the timer the configuration of that tier sets, claim, stamp, idempotency row, that tier's event, and the page to the one on call; any other incident it leaves alone |
| Effects.LookInColumns | factory-monitor-ai/cloud/common/incident_actions.py:46-69 | What a request remembers of the row it reads, and which requests end with the read |
| Effects.CloseInColumns | factory-monitor-ai/cloud/common/incident_actions.py:69-135 | After every run a close writes the status decided on, its time and stamp (the time of the read), clears the timer, touches no other column, and logs ACK or RESOLVED from the status read, after the reply if one caused it |
| Effects.InsertInColumns | factory-monitor-ai/cloud/ingest_worker/service.py:103-188 | After every run the inserts go through exactly when no event has the record's id and no AWAITING_OPERATOR, TIER1 or TIER2 incident its key; they make the incident the record describes with the grace period as its timer, its CREATED event and the operator's page |
| Audit.EventsAreNamedRight | factory-monitor-ai/cloud/common/incident_actions.py:73-80 | After every run, for every event of the log: ACK if and only if no reply and reaching ACK, RESOLVED likewise, REPLY_RECEIVED if and only if it stays in its status, CREATED and each fire kind if and only if no reply and reaching its own status, at its own tier |
| Audit.ChangesAreStamped | factory-monitor-ai/cloud/escalation_worker/transition.py:147-166 | After every run a step that changes more of a row than its claim is a fire, stamping it with the present, or a close, stamping it with the time of its read, and the log then ends with the status reached |
| Audit.StampGoesBackIff | factory-monitor-ai/cloud/common/incident_actions.py:69-71 | After every run updated_at goes back if and only if a deciding close writes a row stamped since it was read |
| Guarantees.ExactlyOnce | factory-monitor-ai/cloud/escalation_worker/transition.py:52-187 | After every run an incident's idempotency rows are exactly tiers 1..current_tier, its fire events exactly that prefix of TIER1_FIRED, TIER2_FIRED, CRITICAL, and an active status matches the tier |
| Guarantees.FireIsExact | factory-monitor-ai/cloud/escalation_worker/worker.py:120-185 | A fire through any ticket, fresh or stale, advances one tier with one idempotency row and one appended fire event of that incident, tier and status and touches no other incident, or changes nothing |
| Guarantees.ClosedStaysClosed | factory-monitor-ai/cloud/common/incident_actions.py:34-135 | From any reachable state, a closed incident never reopens, never regains a timer and keeps its tier, however reads and writes interleave |
| Guarantees.TimersOnlyWhileOpen | factory-monitor-ai/cloud/escalation_worker/transition.py:147-166 | After every run deadline_at equals next_fire_at, and only open incidents have one |
| Guarantees.ClosePathIff | factory-monitor-ai/cloud/common/incident_actions.py:46-81 | A close leaves the incident's log connected and ending at its status if and only if the row still has the status that was read |
| Guarantees.AuditIsPath | factory-monitor-ai/cloud/common/incident_actions.py:73-80 | Without raced closes the log of every incident is a connected from/to path ending at its status, after every run |
| Guarantees.TerminalChangesIff | factory-monitor-ai/cloud/common/incident_actions.py:46-67 | A step changes a RESOLVED or CRITICAL_UNRESOLVED status if and only if it is a close, decided on an earlier read, that acknowledges, or that resolves a CRITICAL_UNRESOLVED incident |
| Guarantees.TerminalIsFinal | factory-monitor-ai/cloud/common/incident_actions.py:20-31 | From any reachable state a terminal status holds throughout a run if and only if the run has no such close |
| Guarantees.UnracedIsFinal | factory-monitor-ai/cloud/common/incident_actions.py:20-31 | In particular it holds when every close finds the status it read |
| Guarantees.RaceLeavesResolved | factory-monitor-ai/cloud/common/incident_actions.py:46-67 | From any state with an open incident, an acknowledge that read first and writes last takes it from RESOLVED back to ACK |
| Guarantees.RaceLeavesResolvedAtTierThree | factory-monitor-ai/cloud/common/incident_actions.py:97-122 | A resolve that read before the last fire and writes after it leaves a RESOLVED row at tier 3 |
| Guarantees.PagesBounded | factory-monitor-ai/cloud/ingest_worker/service.py:62-84 | After every run an incident's pages have distinct tiers in 0..min(2, current_tier), keys of later tiers are free, and at most three are delivered |
| Guarantees.SettledExactlyOnce | factory-monitor-ai/cloud/notifier_worker/relay.py:155-214 | After every run a row has one out-message if SENT and none otherwise; SENT was accepted; PENDING has attempts left; DEAD has none |
| Guarantees.SettledIsFinal | factory-monitor-ai/cloud/notifier_worker/relay.py:155-165 | From any reachable state a SENT or DEAD row never changes again, late settles included |
| Guarantees.StaleSettle | factory-monitor-ai/cloud/notifier_worker/relay.py:161-165 | With two relays holding a row, the stale one's failure settles it and the holder's accepted send is dropped without an out-message |
| Fencing.HolderIff | factory-monitor-ai/cloud/notifier_worker/relay.py:161-165 | After every run, a relay with a parcel on a SENDING row holds its claim if and only if the attempt its claim returned is the row's latest |
| Fencing.HolderLosesIff | factory-monitor-ai/cloud/notifier_worker/relay.py:163-214 | After every run, a step takes the row from under its holder if and only if it is a settle whose attempt is not the row's latest |
| Fencing.FencedSendLands | factory-monitor-ai/cloud/notifier_worker/relay.py:163-190 | If every settle made that test, the accepted send of a row's latest attempt would always become its SENT state and out-message |
| Fencing.LiveParcelsAreExclusive | factory-monitor-ai/cloud/notifier_worker/relay.py:53-72 | When relays settle within their leases, at most one live parcel exists per row |
| Fencing.InLeaseIsFenced | factory-monitor-ai/cloud/notifier_worker/relay.py:163-165 | And every settle then passes that test |
| Guarantees.StaleClaim | factory-monitor-ai/cloud/notifier_worker/relay.py:53-72 | Two relays come to hold one row once the first lease has run out, at two attempts more |
| Guarantees.RelayClaimEffect | factory-monitor-ai/cloud/notifier_worker/relay.py:53-72 | What the claiming statement does to one claimable row and what the relay then holds |
| Guarantees.OneIncidentPerEvent | factory-monitor-ai/cloud/ingest_worker/service.py:103-188 | After every run with crashes, redelivery and concurrent consumers, incidents and source event ids are one-to-one and open dedup keys are distinct |
| Guarantees.NothingLost | factory-monitor-ai/cloud/ingest_worker/consumer.py:136-164 | After every run every record below a committed offset became an incident, was suppressed by one, or is itself in the dead-letter topic, raw value and position |
| Paging.PagesGoToTheRightPeople | factory-monitor-ai/cloud/escalation_worker/transition.py:104-183 | After every run, for every incident and every tier in 0..min(2, current_tier): a page exists if and only if the tier's role was on call and its configuration present when the tier was reached, and it was written then, to that person, with that template |
| Paging.StepKeepsPaged | factory-monitor-ai/cloud/escalation_worker/transition.py:104-183 | Every step of every process keeps that, for all incidents |
| Paging.NewIncidentPagedRight | factory-monitor-ai/cloud/ingest_worker/service.py:155-170 | A created incident has the operator's page exactly when recipient and configuration exist at its creation, and no fire event |
| Timers.TicketsStayTrue | factory-monitor-ai/cloud/escalation_worker/worker.py:44-65 | After every run a ticket's tier is at most its row's, and while they agree an armed timer is the one claimed and was due |
| Timers.EarlyOnlyIfAdvanced | factory-monitor-ai/cloud/escalation_worker/worker.py:135-142 | After every run a fire through a ticket can be early only if the row's tier has passed the claimed one |
| Timers.StaleTicketFiresEarly | factory-monitor-ai/cloud/escalation_worker/worker.py:135-142 | Two tickets on an untouched incident take it to tier 2 in one moment, before its new timer |
| Timers.ExpiredLeaseIsReclaimed | factory-monitor-ai/cloud/escalation_worker/worker.py:44-65 | Two workers come to hold tickets on one incident once the first lease has run out |
| Witness.TwoTickets | factory-monitor-ai/cloud/escalation_worker/worker.py:44-65 | From an empty database a run leaves two workers with tickets on one untouched incident |
| Witness.TwoParcels | factory-monitor-ai/cloud/notifier_worker/relay.py:53-72 | From an empty database a run leaves two relays with unsent parcels on one row, held by the second |
| Witness.LeavesResolved | factory-monitor-ai/cloud/common/incident_actions.py:46-67 | From an empty database a run resolves an incident and a close that read it open then makes it ACK |
| Timers.LiveTicketsAreExclusiveAndDue | factory-monitor-ai/cloud/escalation_worker/worker.py:44-69 | When workers act within their leases, at most one live ticket exists per incident, at the row's tier, and an armed row is due |
| Timers.OnTimeIff | factory-monitor-ai/cloud/escalation_worker/worker.py:135-142 | After every run, every fire of an incident in the log came when its timer was due if and only if every fire of the run that passed the re-check on it found the timer due |
| Timers.ClaimedTierIsDue | factory-monitor-ai/cloud/escalation_worker/worker.py:44-65 | If every fire of an incident finds it at the tier the claim returned, every fire finds its timer due |
| Timers.InLeaseKeepsTier | factory-monitor-ai/cloud/escalation_worker/worker.py:120-185 | Workers that act within their leases always find that tier |
| Timers.FiresStayOnTime | factory-monitor-ai/cloud/escalation_worker/transition.py:113-116 | Hence, under that hypothesis, no tier of any incident ever fires before the time its timer was set for |
| Timers.CriticalNotEarly | factory-monitor-ai/cloud/ingest_worker/service.py:127-128 | If every fire of an incident finds its timer due, CRITICAL comes no earlier than creation + grace + delay(1) + delay(2), delays as configured when set |
| Recovery.Poll | factory-monitor-ai/cloud/escalation_worker/worker.py:120-185 | From every sound state a poll over due incidents is possible and advances exactly those by one tier each |
| Fairness.HealthyPollAdvances | factory-monitor-ai/cloud/escalation_worker/worker.py:120-185 | Every healthy poll, whatever the order in which it fires the claimed rows, advances exactly those by one tier each |
| Recovery.PollShrinksDueIff | factory-monitor-ai/cloud/escalation_worker/worker.py:44-65 | A poll takes exactly its incidents out of the due ones if and only if none of them is due again at once |
| Recovery.Drain | factory-monitor-ai/cloud/escalation_worker/worker.py:44-65 | Under that condition n polls at one moment with batches in timer order advance those n batches by exactly one tier each and leave every other row alone |
| Recovery.EmptiedIff | factory-monitor-ai/cloud/escalation_worker/worker.py:44-65 | k overdue incidents are drained by n full-batch polls if and only if n ≥ ceil(k / batch) |
| Recovery.DrainAll | factory-monitor-ai/cloud/escalation_worker/worker.py:44-65 | Under that condition ceil(k / batch) healthy polls at one moment advance all k overdue incidents by exactly one tier |
| Recovery.RecoversInOrder | factory-monitor-ai/cloud/escalation_worker/worker.py:44-65 | If none of the incidents then due is due again at once, waiting out timer and claim and polling exactly ceil(k / batch) times advances an armed incident by exactly one tier |
| Fairness.WaitingEnds | factory-monitor-ai/cloud/escalation_worker/worker.py:44-65 | For every sequence of healthy polls at any non-decreasing times and whatever the delays, a due incident is untouched until it is advanced, which happens as soon as the batches add up to the fires left in the incidents with no later timer |
| Fairness.CutsInIff | factory-monitor-ai/cloud/escalation_worker/worker.py:44-65 | In a round that passes an incident over, one that was fired is ahead of it again if and only if its new timer is no later |
| Fairness.PassedOverExactly | factory-monitor-ai/cloud/escalation_worker/worker.py:44-65 | The queue ahead of an incident passed over gets exactly a batch shorter and as much longer as incidents cut in |
| Fairness.WaitingEndsInOrder | factory-monitor-ai/cloud/escalation_worker/worker.py:44-65 | For every sequence of healthy polls at any non-decreasing times, ceil((k + c) / batch) of them advance an incident with k timers no later, where c counts the cut-ins before it is taken |
| Fairness.NoCutIns | factory-monitor-ai/cloud/escalation_worker/worker.py:44-65 | Nobody cuts in when no fire from the first poll on can arm a timer as early as the incident's |
| Fairness.DelaysKeepOrder | factory-monitor-ai/cloud/escalation_worker/worker.py:44-65 | That is so for any least delay, zero and negative ones included, that reaches past the incident's timer from the first poll on |
| Fairness.ZeroDelayCutsIn | factory-monitor-ai/cloud/escalation_worker/worker.py:44-65 | With a delay of zero and two timers at the moment of the first poll, ceil(2 / 1) polls may take one incident twice |
| Fairness.RunIsRound | factory-monitor-ai/cloud/escalation_worker/worker.py:249-266 | A wait and a healthy poll of the transition system are one round of those sequences |
| Fairness.Recovers | factory-monitor-ai/cloud/escalation_worker/worker.py:44-65 | After every run, lost claims included and whatever the delays: waiting out timer and claim and a bounded number of polls advances an armed incident |
| Fairness.ReachesCritical | factory-monitor-ai/cloud/escalation_worker/worker.py:120-185 | After every run, with tiers 1 and 2 configured, 3 − current_tier such rounds are possible and reach CRITICAL_UNRESOLVED |
| Fairness.CriticalAfterDueRounds | factory-monitor-ai/cloud/escalation_worker/worker.py:120-185 | In every sequence of healthy polls, at any times and whatever the delays, an incident that has been due at 2 − current_tier + ceil(p / batch) of them is CRITICAL_UNRESOLVED, where p counts the fires left in all incidents |
| Fairness.AlwaysReachesCritical | factory-monitor-ai/cloud/escalation_worker/worker.py:120-185 | So with tiers 1 and 2 configured, every sequence of that many healthy polls, none before its timer and claim, takes an armed incident there |
| Recovery.UnarmedNeverFires | factory-monitor-ai/cloud/escalation_worker/transition.py:104-116 | An incident without a timer never gets one and never changes tier, on any run |
| Fairness.AdvancesIffArmed | factory-monitor-ai/cloud/escalation_worker/transition.py:104-116 | Some run advances an open incident if and only if it has a timer |
| Recovery.FireArmsIffConfigured | factory-monitor-ai/cloud/escalation_worker/transition.py:104-116 | A fire leaves an open incident without a timer exactly when the configuration of the reached tier is missing |
| Attempts.AttemptsAreClaims | factory-monitor-ai/cloud/notifier_worker/relay.py:53-67 | After every run attempts is the number of claims of the row, at most max_attempts plus its claims that found a lease run out |
| Attempts.RetryWaits | factory-monitor-ai/cloud/notifier_worker/relay.py:200-212 | From any reachable state, after a k-th attempt that failed at a time, no further attempt starts before that time + min(base·2^(k − 1), 3600) s, in every continuation, reclaims and late settles included |
| Attempts.RetriesArePaced | factory-monitor-ai/cloud/notifier_worker/relay.py:163-212 | Without lease expiries a row is also never retried before all backoffs since its creation have passed, and never past max_attempts |
| Attempts.DeathTakesAllBackoffs | factory-monitor-ai/cloud/notifier_worker/relay.py:200-212 | Uncapped, a row cannot be DEAD before base·(2^(max − 1) − 1) seconds after its creation |
| Attempts.DoneWithinMaxAttempts | factory-monitor-ai/cloud/notifier_worker/relay.py:81-113 | Without relay crashes, a row claimed max_attempts times with no send outstanding is SENT or DEAD |
| Redelivery.PassInColumns | factory-monitor-ai/cloud/notifier_worker/relay.py:81-214 | Every pass, its sends and settles in any order and taking any time, takes only due pages, makes one attempt at each, and by the answer leaves the page SENT, DEAD if it was the last attempt, or PENDING until the answer's time + min(base·2^attempts, 3600) s; no other page changes |
| Redelivery.Redelivers | factory-monitor-ai/cloud/notifier_worker/relay.py:53-72 | After every run a PENDING or SENDING page, whatever lease a dead relay has left, is SENT at the first pass whose providers accept it and DEAD after all attempts it has left if none does, with waits for its time or lease only, and no other page changes |
| Redelivery.EveryPageEnds | factory-monitor-ai/cloud/notifier_worker/relay.py:53-72 | From every reachable state some run ends every page, each as its providers answer |
| Redelivery.EndsAfterDuePasses | factory-monitor-ai/cloud/notifier_worker/relay.py:81-113 | For every sequence of passes, at any times, with any choice of due pages that fills the batch and any answers, a page that was due at l − 1 + ceil(p / batch) of them is SENT or DEAD, l being the attempts it had left and p those of all pages, new ones included |
| Redelivery.SentIff | factory-monitor-ai/cloud/notifier_worker/relay.py:166-190 | After any of them it is SENT if and only if one that took it was answered by an acceptance |
| Redelivery.AllEndWhenDue | factory-monitor-ai/cloud/notifier_worker/relay.py:81-113 | If every page that has not ended is due at every pass, 5 + ceil(p / batch) passes end each of them |
| Redelivery.RunIsPass | factory-monitor-ai/cloud/notifier_worker/relay.py:81-113 | A pass of the transition system that fills its batch is one of those |
| CatchUp.CatchesUp | factory-monitor-ai/cloud/ingest_worker/consumer.py:120-164 | After every run, whatever consumers have crashed: one that joins commits the whole log of its partition in at most three steps a record, and every record has then become an incident, was suppressed, or is in the dead-letter topic |
| CatchUp.HandleOne | factory-monitor-ai/cloud/ingest_worker/service.py:103-188 | One record handled alone: a malformed one goes to the dead-letter topic from its own position, a new one makes its incident, any other changes no table; and the offset moves on |
| Replay.StaysSettled | factory-monitor-ai/cloud/ingest_worker/service.py:103-125 | While nothing closes an incident, every handled record stays suppressed by its event id or an open incident |
| Replay.HandledStepChangesNothing | factory-monitor-ai/cloud/ingest_worker/service.py:103-188 | A look-up, an insert or a re-check at a record that is suppressed changes no table and never stops the consumer |
| Replay.ReplayChangesNothing | factory-monitor-ai/cloud/ingest_worker/consumer.py:136-164 | After every run in which nothing closes an incident, any replay of handled stretches of the log, by any consumers, with joins, crashes and half-done handling in any order, changes no table |
| Replay.ReplayAmongOthers | factory-monitor-ai/cloud/ingest_worker/consumer.py:136-164 | And no handling step changes a table when workers, requests and relays run in between without closing anything |
| Replay.InsertsIff | factory-monitor-ai/cloud/ingest_worker/service.py:103-188 | An insert goes through if and only if neither the event id nor an open incident with the key is there |
| Replay.ReplayAfterCloseCreates | factory-monitor-ai/cloud/ingest_worker/service.py:103-125 | A record suppressed only by an open incident makes a new incident when replayed after that incident is resolved |
| Store.Database.FireTransition | factory-monitor-ai/cloud/escalation_worker/transition.py:81-187 | The statements of a fire, with rollback on a refused page, leave exactly the tables of the specification |
| Store.Database.PollOnceIds | factory-monitor-ai/cloud/escalation_worker/worker.py:90-187 | A poll claims the earliest due rows up to the batch, advances exactly those by one tier, returns them, and leaves all other incidents as they were |
| Store.Database.ProcessRow | factory-monitor-ai/cloud/escalation_worker/worker.py:120-185 | One claimed row: re-check, fire or skip, and release of the claim when the transaction raised |
| Store.Database.Acknowledge | factory-monitor-ai/cloud/common/incident_actions.py:34-81 | Not found, already acknowledged and conflict change nothing; an AWAITING_OPERATOR, TIER1 or TIER2 incident gets status ACK, acked_at and updated_at now, no timer, and one ACK event from its status |
| Store.Database.ResolveIncident | factory-monitor-ai/cloud/common/incident_actions.py:84-135 | Not found, already resolved and CRITICAL_UNRESOLVED change nothing; every other incident gets status RESOLVED, resolved_at and updated_at now, no timer, and one RESOLVED event from its status |
| Store.Database.InboundReply | factory-monitor-ai/cloud/api/twilio_webhook.py:108-218 | A reply acts on the incident of the latest message to that phone: it is logged in the incident's status, one set of keywords acknowledges an open incident, another resolves an open or acknowledged one, each logged under its own name; an unmatched reply is only recorded |
| Store.LatestOfAll | factory-monitor-ai/cloud/api/twilio_webhook.py:108-119 | The latest message to a phone is found if there is one, and no later one went to that phone |
| Store.Database.CreateIncident | factory-monitor-ai/cloud/ingest_worker/service.py:87-188 | Each result is returned exactly in its case (event id known, open incident with the key), and the tables gain the incident, event and page the record calls for, or are unchanged |
| Store.Database.HandleMessage | factory-monitor-ai/cloud/ingest_worker/consumer.py:30-81 | A malformed record goes to the dead-letter queue and touches no table; any other goes through the insert |
| Store.Database.ClaimOutbox | factory-monitor-ai/cloud/notifier_worker/relay.py:53-72 | At most a batch of PENDING rows that are due and SENDING rows whose lease ran out, all of them if fewer, none left out that was due for an earlier attempt, become SENDING with one more attempt; no other row changes |
| Store.Database.RunOnce | factory-monitor-ai/cloud/notifier_worker/relay.py:81-217 | Every claimed row was PENDING and due or SENDING with its lease run out, and ends as its chain's answer and its attempts decide, once, with one out-message to its phone for each accepted send; no other row changes |
| Store.SelectEarliest | factory-monitor-ai/cloud/escalation_worker/worker.py:44-65 | ORDER BY with LIMIT: a repeat-free choice of the right size, no key left out smaller than one picked |
| Live.LabelsAgreeIff | factory-monitor-ai/frontend/src/lib/serverClock.ts:50-64 | Server and browser print the same tier label exactly for CRITICAL_UNRESOLVED or tier at most 2 |
| Live.ViewShowsRow | factory-monitor-ai/cloud/common/ws/incident_view.py:17-34 | The server's view of an incident is the one whose columns are those of the row, "" as no snapshot url, and whose label is the one for status and tier |
| Live.ApplyEnvelope | factory-monitor-ai/frontend/src/lib/liveReducer.ts:37-122 | The reducer's loops compute the functional reducer, on which the stream properties are proved |
| Mirror.AdvancedDeltaSyncsIff | factory-monitor-ai/frontend/src/lib/liveReducer.ts:80-89 | A tier_advanced delta brings a known entry up to the full view exactly when the labels agree |
| Mirror.ResolvedDeltaSyncsIff | factory-monitor-ai/frontend/src/lib/liveReducer.ts:90-101 | A resolved delta does so exactly when the row is resolved without deadline at the known tier, at most 2 |
| Mirror.TimersChangeNothing | factory-monitor-ai/frontend/src/lib/liveReducer.ts:102-110 | A timer snapshot changes nothing in a browser that mirrors the rows |
| Mirror.SnapshotMirrors | factory-monitor-ai/frontend/src/lib/liveReducer.ts:44-54 | After a snapshot the browser knows exactly the listed incidents, at their views |
| Mirror.ConnectShowsOpen | factory-monitor-ai/cloud/api/ws.py:30-48 | A browser that connects knows exactly the AWAITING_OPERATOR, TIER1, TIER2 and CRITICAL_UNRESOLVED incidents, each as its row is |
| Mirror.SnapshotIsCurrentIff | factory-monitor-ai/cloud/api/ws.py:150-157 | A snapshot read earlier mirrors the rows at sending exactly when no listed view has changed in between |
| Mirror.StaleTimersKeepIff | factory-monitor-ai/cloud/api/ws.py:98-101 | A timer snapshot read earlier keeps a mirroring browser if and only if every listed known incident still has the deadline and tier read |
| Mirror.StaleTimerAfterResolve | factory-monitor-ai/cloud/api/ws.py:98-101 | One read while an incident ran and sent after its resolution was announced leaves it resolved with a deadline |
| Convergence.ResolvedIsNotRepaired | factory-monitor-ai/cloud/api/ws.py:38-62 | Whatever is shown of an incident whose resolution has been announced stays: no later announcement is about it and no later timer snapshot lists it |
| Mirror.CommitMirrors | factory-monitor-ai/cloud/common/ws/broadcaster.py:51-96 | Any committed change announced from the row as committed keeps the browser showing, column by column, the rows of the incidents it knows |
| Convergence.Converges | factory-monitor-ai/cloud/common/ws/broadcaster.py:72-96 | When announcements read the row at any version from their own commit on, and no timer snapshot in between does harm, then once every change has been announced every known incident is shown exactly as the server would |
| Convergence.LateStreamLearns | factory-monitor-ai/frontend/src/lib/liveReducer.ts:71-79 | However late the rows are read, the browser knows exactly what it knew and what was announced as created or acknowledged since |
| Convergence.StreamSettlesIff | factory-monitor-ai/cloud/common/ws/broadcaster.py:72-96 | From a settling state, every entry stays right in the columns no pending change can touch, after every envelope, if and only if every timer snapshot is harmless when it arrives |
| Convergence.ShowSettlesIff | factory-monitor-ai/cloud/api/ws.py:98-101 | A timer snapshot read at any version keeps the browser settling if and only if it is harmless |
| Convergence.FreshIsHarmless | factory-monitor-ai/cloud/api/ws.py:98-101 | Every timer snapshot read no earlier than the changes already announced is harmless |
| Convergence.SnapshotSettles | factory-monitor-ai/cloud/api/ws.py:150-157 | A connect snapshot read no earlier than the changes already announced is such a state |
| Mirror.StreamIsGapFree | factory-monitor-ai/frontend/src/lib/liveReducer.ts:56-63 | On a consecutively numbered stream every envelope is applied and none is flagged |
| Mirror.StreamMirrors | factory-monitor-ai/frontend/src/lib/liveReducer.ts:37-122 | Over any such stream the folded deltas show, column by column, the rows of all known incidents |
| Mirror.StreamLearns | factory-monitor-ai/frontend/src/lib/liveReducer.ts:71-79 | The browser knows what it knew before plus what was created or acknowledged since |
| Channel.PutKeepsWireOk | factory-monitor-ai/cloud/common/ws/manager.py:30-32 | Numbers on a wire only go up, and are 1, 2, 3, ... without a hole as long as no send has failed |
| Channel.Connection.Put | factory-monitor-ai/cloud/common/ws/manager.py:59-66 | A send uses up one number whether or not the socket takes the message |
| Channel.ConnectionManager.Send | factory-monitor-ai/cloud/common/ws/manager.py:59-66 | A failed send, with its caller's disconnect, leaves every registered connection hole-free |
| Channel.ConnectionManager.Broadcast | factory-monitor-ai/cloud/common/ws/manager.py:68-84 | Every connection uses one number, those with a live socket get the message under it, the others are dropped, the survivors are counted, and all are hole-free |
| Channel.GapAccounting | factory-monitor-ai/frontend/src/lib/liveReducer.ts:56-63 | For any arrivals after an anchor at s, lastSeq − s = applied + missed |
| Channel.MarkIsLastApplied | factory-monitor-ai/frontend/src/lib/liveReducer.ts:44-122 | For any arrivals, the sequence number and server time a browser goes by are those of the last envelope it took |
| Channel.FlaggedIffMissed | factory-monitor-ai/frontend/src/lib/wsContract.ts:99-101 | A gap is flagged somewhere if and only if some number was missed |
| Channel.DuplicatesAreIdentities | factory-monitor-ai/frontend/src/lib/liveReducer.ts:58-61 | An envelope that arrived before, applied or not, changes nothing when it comes again |
| Channel.NoFlagNoLoss | factory-monitor-ai/frontend/src/lib/liveReducer.ts:41-63 | With no flag, the browser applied exactly the sent stretch after its anchor, and its state is the fold of that stretch, for any drops, repeats and reorderings |
| Channel.StateIsFoldOfApplied | factory-monitor-ai/frontend/src/lib/liveReducer.ts:56-61 | Envelopes that are not applied leave no trace: the state is the fold of the applied ones, for any arrivals |
| Channel.LossIsFlagged | factory-monitor-ai/frontend/src/lib/liveReducer.ts:41-63 | A sent message that never arrived is flagged once anything later is applied |
| LiveDelivery.UnflaggedMirrors | factory-monitor-ai/frontend/src/lib/liveReducer.ts:37-122 | An anchored browser that was shown no gap holds the server's views as of a commit it was told about, over a lossy, repeating, reordering channel |
| LiveDelivery.UnflaggedSettles | factory-monitor-ai/frontend/src/lib/liveReducer.ts:37-122 | The same channel with rows read late: a browser shown no gap is settling after some stretch of the stream, and mirrors the rows if every change was announced in it |
| Commits.StepCommits | factory-monitor-ai/cloud/escalation_worker/transition.py:147-166 | Every step of the transition system, closes unraced, changes the incidents as one advance, acknowledgement, resolution or creation of the mirror does, or in claim columns only |
| Commits.RunIsCommits | factory-monitor-ai/cloud/escalation_worker/transition.py:147-166 | After every unraced run the incidents are, up to claims, what its commits make of an empty table |
| Commits.LabelsAgreeAfterRuns | factory-monitor-ai/cloud/common/ws/incident_view.py:8-15 | After every unraced run server and browser print the same tier label for every incident |
| Commits.BrowserShowsTables | factory-monitor-ai/cloud/common/ws/broadcaster.py:72-96 | A browser told of every commit of an unraced run, rows read late and timer snapshots harmless, shows every incident it knows as the tables have it: camera, zone, rule, anomaly, severity, class, status, tier, deadline, opening time, snapshot url, and the label of the tier |
| Commits.BrowserKnowsAll | factory-monitor-ai/cloud/common/ws/broadcaster.py:72-96 | And told from the first commit on it knows every incident of the tables |
| Fallback.SortedIsTheTable | factory-monitor-ai/cloud/common/ws/fallback.py:46-54 | The list has exactly the rows stamped after the cursor, or at its time with a larger id; stamps never decrease along it and equal stamps have increasing ids |
| Fallback.SelectPage | factory-monitor-ai/cloud/common/ws/fallback.py:46-54 | The page is the first batch of that list: of the rows after the cursor the first by stamp and then by id, all of them if they fit |
| Fallback.PostgresPollFallback.PollChangesOnce | factory-monitor-ai/cloud/common/ws/fallback.py:31-61 | One poll broadcasts the page's views in order and moves the cursor to the key of its last row |
| Fallback.PollsAreThePrefix | factory-monitor-ai/cloud/common/ws/fallback.py:80-105 | Successive polls over a quiet table concatenate to a prefix of the sorted list, of polls · batch rows |
| Fallback.PagedOutIff | factory-monitor-ai/cloud/common/ws/fallback.py:80-105 | The whole list has been broadcast if and only if ceil(n / batch) polls have run |
| Fallback.WriteIsSeenIff | factory-monitor-ai/cloud/common/ws/fallback.py:40-49 | A write is broadcast by the polls that page out the table if and only if it is stamped after the cursor, or at its time with a larger id |
| Fallback.RunKeepsCovered | factory-monitor-ai/cloud/common/ws/fallback.py:80-105 | With writes stamped above the cursor interleaved anywhere, every row in (start, cursor] has had, or is queued with, its current view |
| Fallback.QuietMeansCurrent | factory-monitor-ai/cloud/common/ws/fallback.py:80-105 | On quiescence the last broadcast of every incident stamped after the start shows its row, column by column |
| Fallback.ShownSinceStart | factory-monitor-ai/cloud/common/ws/fallback.py:80-105 | From the start cursor (now, largest id), that is every incident stamped after the start |
| Fallback.DrainedIff | factory-monitor-ai/cloud/common/ws/fallback.py:40-54 | No row is stamped after the cursor if and only if the next page is empty |
| Clock.ServerClock.Update | factory-monitor-ai/frontend/src/lib/serverClock.ts:23-35 | The offset is the smoothing of exactly the valid samples; an unparsable timestamp changes nothing |
| Clock.ServerClock.EstimatedServerNowMs | factory-monitor-ai/frontend/src/lib/serverClock.ts:37-39 | The estimate is within δ of the server's clock if every sample was within δ of the true offset |
| Clock.StaysBetween | factory-monitor-ai/frontend/src/lib/serverClock.ts:23-35 | For 0 ≤ α ≤ 1 the offset stays in every interval that holds all samples |
| Clock.SmoothsIff | factory-monitor-ai/frontend/src/lib/serverClock.ts:19-21 | It does so for all sample sequences if and only if 0 ≤ α ≤ 1 |
| Clock.ClosedForm | factory-monitor-ai/frontend/src/lib/serverClock.ts:23-35 | The offset is the sum of all samples under explicit decaying weights |
| Clock.WeightIsPower | factory-monitor-ai/frontend/src/lib/serverClock.ts:23-35 | Those weights are (1 − α)^age for the first sample and α(1 − α)^age for later ones |
| Clock.JumpDecays | factory-monitor-ai/frontend/src/lib/serverClock.ts:23-35 | After n samples at a new constant offset exactly (1 − α)^n of the old error remains |
| Cadence.BroadcastLoop | factory-monitor-ai/cloud/api/ws.py:77-101 | For all positive periods and any slack, after k ticks each cadence has sent min(k, floor((k·tick + slack) / period)) messages, each at the first tick that reaches it |
| Cadence.NoDrift | factory-monitor-ai/cloud/api/ws.py:88-101 | With a slack below the period, none included, the count is exactly floor((k·tick + slack) / period) |
| Debounce.TrackDebouncer.Observe | factory-monitor-ai/edge/vision/debounce.py:54-82 | The answer for a key depends on that key's own stream alone, and no other key's state moves |
| Debounce.NextFrame | factory-monitor-ai/edge/vision/debounce.py:64-82 | The deque, counter and flag updates of one frame, for every window, m and K |
| Debounce.RefinesHistory | factory-monitor-ai/edge/vision/debounce.py:43-52 | Every answer is what the history calls for: open iff not open and at least m of the last min(window, frames since the last clear) violate; clear iff open and the last K frames since opening are calm |
| Debounce.OpensCountHits | factory-monitor-ai/edge/vision/debounce.py:64-75 | An anomaly opens only when at least m of the last `window` frames since the last clear violate |
| Debounce.HitsOpen | factory-monitor-ai/edge/vision/debounce.py:70-75 | Once m frames of a stretch no longer than the window violate, an anomaly has opened |
| Debounce.ClearsAreCalm | factory-monitor-ai/edge/vision/debounce.py:77-81 | It clears only when the last K frames, all after the opening, are calm |
| Debounce.CalmOpensNothingIff | factory-monitor-ai/edge/vision/debounce.py:70-75 | No calm frame ever opens an anomaly if and only if m is at least 1 |
| Debounce.OpensAreSeparated | factory-monitor-ai/edge/vision/debounce.py:70-75 | Between any two opens there is a clear |
| Debounce.ClearsAreSeparated | factory-monitor-ai/edge/vision/debounce.py:77-81 | Before every clear there is an open with no other clear in between |
| Debounce.EventBudget | factory-monitor-ai/edge/vision/debounce.py:54-82 | opens · m + clears · K never exceeds the number of frames, for every configuration |
| Engine.KeyInjective | factory-monitor-ai/edge/vision/engine.py:198-208 | On one camera a debounce key names one track id and one zone id, whatever characters the zone id holds |
| Engine.StreamIsProjection | factory-monitor-ai/edge/vision/engine.py:198-210 | What the debouncer holds for a (track, zone) pair is that pair's own flags in visiting order |
| Engine.PublishedPerPair | factory-monitor-ai/edge/vision/engine.py:198-227 | The number of published events is the sum over pairs of the opens on each pair's stream alone |
| Engine.DigitsSpell | factory-monitor-ai/edge/vision/engine.py:201 | The decimal text in a track id spells its number |
| Engine.VisionEngine.Run | factory-monitor-ai/edge/vision/engine.py:139-228 | The nested loops, with the frame limit and the person and zone filters, feed exactly those streams, publish exactly those anomalies in order, and return their number. With m at least 1 every anomaly sent reports a person without a hardhat whose (x + w/2, y + h) a configured required_ppe zone covers in a frame below the limit, with camera, zone, track, class and box; and from a fresh debouncer, with distinct track ids in a frame and distinct zone ids, m such frames of one track and zone within the window are reported |

## Left out

- Guarantees.StaleClaim: states the case with the second claim one microsecond after the lease ends; later claims are covered by the steps of `Protocol`.
- Recovery.Drain: is about polls at one moment and incidents that are not due again at once; `Fairness` has the polls at any times and without that condition.
- Guarantees.NothingLost: a record suppressed by an open incident is stated as "some incident with its dedup key exists", since that incident may be closed later.
- Store.Database.ProcessRow: runs alone on the tables; interleavings with other processes are stated on `Protocol`, not on the class.
- Debounce.TrackDebouncer.Observe: the per-key record is a value in a map, not an object; each record has one owner, so no aliasing is lost.
- Redelivery.EndsAfterDuePasses: nothing but new pages comes between two passes; what several relays do to one page is the subject of `Guarantees.StaleSettle` and `Fencing`.
- Cadence.BroadcastLoop: real arithmetic in place of floating point; the loop is watched for a given number of ticks, as it has no end.
- Clock.ClosedForm: real arithmetic in place of floating point.
- Channel.ConnectionManager.Broadcast: numbering and handing to the socket are one step; that the event loop keeps this order on one socket is assumed.
- Channel.NoFlagNoLoss: is about a browser that has its anchoring snapshot; before one, the reducer takes any first number without a flag, and a later snapshot in the stream anchors it anew.
- Skew between the database clock and a process clock.
- Record keys, which travel with the raw values into the dead-letter topic.
- Roster and tier-configuration queries, which are partial functions here.
- Whether a publisher fires after a commit: the mirror takes the announced stream as given. The reply handler announces nothing, so its closes reach a browser only by a snapshot.
- `deadline_at` as text: the two renderings of one instant ("+00:00" and "Z") are one time here.
- A fallback poll that raises half way through its page: the cursor then stays, and the page is sent again.
- Inbound message rows, WhatsApp session windows, acked_by and resolved_by, resolution notes, request idempotency keys, and the 404 and 409 response bodies.
- The dedup key and event id of a published anomaly, its time stamp, and the detection and heatmap emission.
- The dashboard's sort order, resync over REST, `incidentToView`, React components and hooks.
- Detector, tracker and point-in-polygon: the covering test is an arbitrary function of anchor and polygon.
- Signature checks, logging, metrics, migrations, deployment files and load scripts.
