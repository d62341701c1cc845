# AntreTix: a verified model of its ticket sale

AntreTix sells tickets through a waiting room in Redis and a two-layer inventory: atomic Lua
scripts answer first, PostgreSQL functions decide. Many API and worker processes run at once,
so what it promises is promised over whole runs. This project models those runs and proves
the promises. `dafny verify dfyconfig.toml` checks everything.

## How it is built

| file | what it holds |
|---|---|
| `Measures` | totals over sequences, `Option` |
| `Database` | tables, the three SQL functions, refund and admin statements; what every run of them keeps |
| `StatementLaws` | what each statement does in full; prices and ticket codes over every run |
| `SqlInterleaving` | the inside of `antretix_reserve_order` (lock, sum, update, insert and commit) with any number of transactions |
| `Inventory` | Redis, the processes of checkout, release, payment, heal and quota edit, one atomic step each; crashes |
| `Conservation` | the invariant that ties the two layers together |
| `LayerOne` | Redis as a conservative filter, idle moments, what drift costs |
| `HealEffects` | what a heal leaves, with anything between its reads; a run in which it goes wrong |
| `Settlement`, `Idempotency` | exactly-once results over the same runs |
| `SingleCaller`, `TicketOffice` | the operations as one caller sees them, and as imperative code over both stores |
| `Reconcile` | the three-run healing rule |
| `SortedSets`, `WaitingQueue`, `QueueFairness`, `AdmissionLog`, `WaitingRoom` | the waiting room: scripts, invariants, order, bounded waiting, the log, the imperative code |
| `RateLimit`, `Protection`, `Quotas` | the sliding-window limiter, the rules of each HTTP request, and what they mean for clients |
| `Lease`, `Calendar`, `SaleStatus` | the leader lock, the schedule, pause and sold out |

A Lua script, a SQL statement or a committed transaction is one atomic step. Code that works by
changing things in place is a class whose methods are proved against functions on values; the
laws are proved about those functions over every run. `Inventory.World` carries bookkeeping no
step reads: `drift` (what crashes and heals left in a category's stock), `lost` (what crashes
left in an account's counter), `credited` and `dropped` (credits given and dropped per order).

## Assumptions

- One clock shared by API, worker, Redis and PostgreSQL; it never runs backwards. In the waiting
  room times are reals of at least 1 (milliseconds since the epoch are), in the rest integers.
- Windows, limits and the limit per account do not change during a run; quantities are at least 1.
- A failing SQL function rolls back entirely, and a checkout's statement throws only if nothing
  was committed. A stock key, once created, stays.
- A Redis key with a time to live is gone once the clock has passed its end, not in that very
  millisecond. Rate limits are at least 1, as `apps/api/src/env.ts:22-25` makes sure.
- Ids are positions in their table; a category belongs to one event, so its id names its stock
  key. Idempotency keys are kept per user. Ticket codes, idempotency keys and the names of
  limiter entries are numbers; queue members are numbers in the byte order Redis compares them
  in. A ticket is modelled with its category instead of the category's name, and an
  admission-log entry as a time and a count instead of the text `time:count`.
- A ticket code list that repeats a code, or one already issued, makes the payment statement fail.
- Reading the queue status and then setting it counts as one step.

## Where code and documentation differ

- The transition table in `packages/shared/src/policy.ts:22-28` omits CANCELLED to REFUNDED and
  adds PAID to REFUNDED, which no code performs. The model follows
  `packages/core/src/payments.ts:87-94`; `Database.PolicyTableDiffers` shows that these are the
  only two differences.
- Two ticks that admit equally many users in one millisecond, as two workers that both believe
  they lead can cause, share one log entry, and a window of the full 300 s read in the
  millisecond of a tick can miss admissions of exactly 300 s before, because the prune is
  inclusive. `AdmissionLog.ReadersAreRight` says exactly when a reader's sum is right.
- Reconciliation is described as correcting a difference only once it is no longer work under
  way. It reads PostgreSQL first and each Redis key later, so a checkout that passes between the
  two reads looks like a difference although nothing is in flight at either.
  `HealEffects.HealIsExact` gives the exact condition under which a heal leaves no drift,
  `HealEffects.HealCanOverfill` a run in which it leaves one, `LayerOne.DriftCost` what that
  costs, and `Reconcile.HealsIffThreeClose` the spacing of runs that healing needs.

## Model

| member | source | states |
|---|---|---|
| Database.ApplyKeeps | packages/db/prisma/migrations/20260925010000_order_functions/migration.sql:25-124 | Each of reserve, pay, release, refund, quota edit and new category keeps: reserved = PENDING units, sold = PAID units = tickets, both within the quota, one positive item per order, keys unique |
| Database.NeverOversold | packages/db/prisma/migrations/20260925010000_order_functions/migration.sql:38-51 | The same over every run of statements, which never read Redis: no oversell whatever Redis contains |
| Database.NeverOverLimit | packages/db/prisma/migrations/20260925010000_order_functions/migration.sql:27-36 | Over every run no account holds more PENDING and PAID units of an event than its limit |
| Database.HeldAfter | packages/db/prisma/migrations/20260925010000_order_functions/migration.sql:29-51 | Only a successful checkout of that account adds to what an account holds, by its quantity; no other statement ever does |
| Database.OneItem | packages/db/prisma/migrations/20260925010000_order_functions/migration.sql:85-88 | With one item per order, an update that touches each category row once moves every unit of the order |
| Database.StatusOverRun | packages/core/src/payments.ts:83-117 | Over every run of statements a status only moves PENDING to PAID, EXPIRED or CANCELLED and from the last two to REFUNDED; owner, key, total, hold and items never change |
| StatementLaws.HeldGrows | packages/db/prisma/migrations/20260925010000_order_functions/migration.sql:29-32 | What an account holds is made of its own PENDING and PAID orders of the event, each with all its units |
| StatementLaws.ReserveExactly | packages/db/prisma/migrations/20260925010000_order_functions/migration.sql:25-53 | Who is refused and why, in this order: limit, stock, key taken, and a refusal changes nothing; otherwise one order appears for the request, at the price of the moment times the quantity, and only its category's held units grow |
| StatementLaws.PayExactly | packages/db/prisma/migrations/20260925010000_order_functions/migration.sql:66-90 | A payment goes through iff the order is PENDING and has a distinct code for every unit that stands on no ticket; its tickets then carry those codes in order, its units are sold, and nothing else changes |
| StatementLaws.ReleaseExactly | packages/db/prisma/migrations/20260925010000_order_functions/migration.sql:107-124 | A release wins iff the order is PENDING and, to expire it, past its hold; a cancellation does not look at the clock; the winner gets the rows, and only the order's status and its category's held units change |
| StatementLaws.RefundExactly | packages/core/src/payments.ts:87-94 | A refund wins iff the order still has the released status that was read, and changes that status only |
| StatementLaws.AdminExactly | packages/core/src/admin.ts:176-212 | An edit changes price and quota of one category and nothing else, down to what is sold and held; a new category starts empty |
| StatementLaws.AlwaysPriced | packages/db/prisma/migrations/20260925010000_order_functions/migration.sql:47-51 | Over every run each order's total is quantity times noted price over its items, whatever prices are edited later |
| StatementLaws.NoCodeTwice | packages/db/prisma/migrations/20260925010000_order_functions/migration.sql:74-83 | Over every run no two tickets share a code |
| Inventory.DatabaseOfRun | packages/core/src/orders.ts:164-289 | The database of every run of the whole system is what its SQL statements alone produce, in order |
| Database.PolicyTableDiffers | packages/shared/src/policy.ts:22-32 | The documented table differs from the code in exactly two entries |
| SqlInterleaving.EndsAtomically | packages/db/prisma/migrations/20260925010000_order_functions/migration.sql:25-53 | The moment a checkout transaction ends, running the whole function at once would give the same verdict and database |
| SqlInterleaving.FineRefinesAtomic | packages/db/prisma/migrations/20260925010000_order_functions/migration.sql:25-53 | Every interleaving of lock, sum, update and commit steps with payments, releases, refunds and edits is serializable, hash collisions of the advisory lock included |
| SqlInterleaving.LimitUnderInterleaving | packages/db/prisma/migrations/20260925010000_order_functions/migration.sql:25-45 | Limit per account and quota hold under every such interleaving |
| Conservation.Conserved | packages/core/src/orders.ts:164-224 | Over every run of checkouts, releases, payments, heals, edits and crashes: Redis stock = quota - sold - reserved - in flight + drift, and each account's counter = held + in flight + lost, within the limit |
| Conservation.DoKeeps | packages/core/src/orders.ts:252-269 | Each single step of any process, a crash included, keeps both balances and what every process relies on |
| Conservation.FloorUnused | packages/lua/scripts/release.lua:9-15 | The counter always covers what an account holds and what any one of its processes carries, so the floor at zero never cuts anything off |
| LayerOne.DriftOnlyDown | packages/lua/scripts/reserve.lua:6-18 | Without heals and quota cuts, crashes only push drift down and Redis stock never falls below zero |
| LayerOne.AcceptedIsHonoured | packages/core/src/orders.ts:185-219 | A checkout granted by Redis is never refused by PostgreSQL for stock or limit, however late its statement runs; only a duplicate key can refuse it |
| LayerOne.LayersAgree | packages/lua/scripts/reserve.lua:13-18 | With nothing in flight and no drift both layers give the same verdict on every request |
| LayerOne.DriftCost | packages/lua/scripts/reserve.lua:13-14 | The exact condition under which the layers disagree about stock: request size between what is available and what drift makes of it |
| LayerOne.ExactWhenIdle | packages/core/src/orders.ts:164-224 | Without crashes and heals, whenever all work is done stock and counters equal what the database says |
| HealEffects.HealLeaves | packages/core/src/reconcile.ts:26-55 | In every run, with anything between the read of the database, the read of the stock key and the INCRBY, a heal leaves as drift the units in flight at the second read, plus what the offer lost between the reads, plus whatever else moved the drift meanwhile |
| HealEffects.HealIsExact | packages/core/src/reconcile.ts:26-55 | Without a crash or another heal after the second read, a heal leaves no drift iff the units in flight at that read equal the growth of the offer since the first read |
| HealEffects.HealCanOverfill | packages/core/src/reconcile.ts:26-55 | A concrete run without crashes, with nothing in flight at any read, in which three checkouts between reads are healed away: Redis then grants a ticket that PostgreSQL refuses as out of stock |
| SingleCaller.ReconcileIsTheProcess | packages/core/src/reconcile.ts:33-60 | The reconciliation process of the step system, left alone, is one run of the healing rule |
| Reconcile.Converges | packages/core/src/reconcile.ts:33-60 | Three or more consecutive runs make the stock right from any stock and any tracker, and keep it so |
| Reconcile.HealsEveryThird | packages/core/src/reconcile.ts:45-60 | However stock and availability move between the runs, a run heals iff it is the third, sixth, ninth and so on sighting in a row of one nonzero difference, each within the life of the tracker before it |
| Reconcile.HealNeedsThreeSightings | packages/core/src/reconcile.ts:14-15 | Nothing is ever healed that the two runs before did not see as well, each in time |
| Reconcile.HealsWholeOrNothing | packages/core/src/reconcile.ts:49-60 | A run leaves the stock alone or makes it right, and a heal forgets what it had noted |
| Reconcile.HealsIffThreeClose | packages/core/src/reconcile.ts:33-60 | From a difference not yet noted, and with the database at rest, the runs make the stock right iff two gaps in a row are within a tracker's life, and otherwise never touch it |
| Settlement.AlwaysSettledOnce | packages/core/src/orders.ts:252-269 | Over every run and for every order: credits given, owed and dropped sum to one iff it left PENDING unpaid; replies PAID (REFUNDED) sum to one iff it is PAID (REFUNDED) |
| Settlement.CreditedExactlyOnce | packages/core/src/orders.ts:239-269 | An order's units come back to Redis at most once, only if it left PENDING unpaid, and exactly then once no release is under way and none crashed |
| Settlement.TicketsMatchSales | packages/db/prisma/migrations/20260925010000_order_functions/migration.sql:74-88 | In every run of the whole system an order has one ticket per unit iff it is PAID and none otherwise, tickets per category total sold, no two tickets share a code, and each total is what the items cost |
| Settlement.OneReentry | packages/core/src/payments.ts:112-117 | Over every run a notification re-enters its handler at most once, and never reaches the payment statement again |
| Idempotency.SameKeySameOrder | packages/core/src/orders.ts:169-173 | All successful replies for one user and key name the same order |
| Idempotency.AlwaysCreatedOnce | packages/core/src/orders.ts:202-223 | No order is ever announced as newly created twice |
| Idempotency.LedgerIsRight | packages/core/src/orders.ts:185-219 | Over every run, what the steps of one checkout have taken out of the stock, less what they gave back, is its quantity iff it stands between reserving and its outcome or has created its order |
| Idempotency.TwinsTakeOnceAmongOthers | packages/core/src/orders.ts:204-219 | Over every run, beside all other traffic and crashes, the checkouts of one user and key that have replied have together taken exactly the units of the one order under that key, or nothing if there is none |
| Idempotency.TwinsTakeOnce | packages/core/src/orders.ts:204-219 | With no other traffic, the stock itself ends lower by the units of the one new order, or where it was |
| Idempotency.LoserAnswersWithTheOrder | packages/core/src/orders.ts:204-219 | A twin that loses the race at the unique index compensates and then answers with the order that won, whatever runs meanwhile |
| SingleCaller.CreatePromise | packages/core/src/orders.ts:164-224 | A checkout alone: one PENDING order appears at the price of the moment for every unit, and stock, counter, held units and availability all move by its quantity, or both stores are exactly as before |
| SingleCaller.CreateReplies | packages/core/src/orders.ts:169-219 | Which of the seven replies a checkout gets, each as an if-and-only-if on what stands in the two stores |
| SingleCaller.ReserveLuaExactly | packages/lua/scripts/reserve.lua:6-18 | Missing key first, then the limit, then the stock; a refusal changes nothing, a grant returns what is left |
| SingleCaller.ReleaseLuaExactly | packages/lua/scripts/release.lua:6-17 | The stock grows and is returned; the counter falls and is gone at zero; no other counter moves |
| SingleCaller.RefusalRestores | packages/core/src/orders.ts:204-219 | Reserve followed by compensation restores Redis exactly, so a refused checkout leaves no trace |
| SingleCaller.CreateIsTheProcess | packages/core/src/orders.ts:164-224 | The checkout process of the step system, left alone, has exactly that outcome |
| SingleCaller.PaymentPromise | packages/core/src/payments.ts:62-124 | The reply tells exactly how the order's status moved; PAID needs the right amount and gives one ticket per unit; no other order changes and the layers stay as far apart as they were |
| SingleCaller.PaymentReplies | packages/core/src/payments.ts:71-123 | A failed payment cancels a PENDING order at any time of its hold; a successful one of the right amount pays it whenever the codes are new and distinct, and the tickets carry them in order; after a release it is refunded |
| SingleCaller.LatePayment | packages/core/src/payments.ts:110-117 | A payment that finds the order no longer PENDING goes round once more and ends exactly as one that arrives only now |
| SingleCaller.LateRefund | packages/core/src/payments.ts:87-94 | A refund whose order has moved on changes nothing and is answered IGNORED |
| SingleCaller.PaymentIsTheProcess | packages/core/src/payments.ts:62-124 | The notification process of the step system, left alone, has exactly that outcome |
| SingleCaller.ReleaseKeepsGap | packages/core/src/orders.ts:252-269 | A release moves both layers by the same amount in every category |
| TicketOffice.Office.Reserve | packages/lua/scripts/reserve.lua:6-18 | The script as it runs leaves the stock and counter, and gives the reply, of its specification |
| TicketOffice.Office.Release | packages/lua/scripts/release.lua:6-17 | The same for the compensation script |
| TicketOffice.Office.ReserveInDatabase | packages/db/prisma/migrations/20260925010000_order_functions/migration.sql:25-53 | The SQL function, with its sum, its conditional update and its rollback, meets its specification |
| TicketOffice.Office.PayInDatabase | packages/db/prisma/migrations/20260925010000_order_functions/migration.sql:66-90 | The payment function, rollback on a bad code included, meets its specification |
| TicketOffice.Office.ReleaseInDatabase | packages/db/prisma/migrations/20260925010000_order_functions/migration.sql:107-124 | The release function meets its specification |
| TicketOffice.Office.CreateOrder | packages/core/src/orders.ts:164-224 | The three stages with compensation have the outcome that `SingleCaller.CreatePromise` is about |
| TicketOffice.Office.ReleaseOrder | packages/core/src/orders.ts:252-269 | Exactly the caller that finds the order PENDING (and past its hold, for EXPIRED) wins, and only the winner credits Redis, with the order's units |
| TicketOffice.Office.HandlePaymentNotification | packages/core/src/payments.ts:62-124 | Even on a stale read, reply and effect are those of the order's real status, after at most one re-entry |
| TicketOffice.Office.ExpireDueOrders | packages/core/src/orders.ts:272-289 | A batch expires as many due orders as it says, the batch size or all of them, and no category's gap between the layers moves |
| TicketOffice.Office.SelectDue | packages/core/src/orders.ts:273-278 | The batch is made of due orders, oldest first, none left out that is older than one taken |
| TicketOffice.Office.ExpiryTick | apps/worker/src/jobs.ts:323-336 | The loop ends; afterwards exactly the orders that were due are EXPIRED, none is due any more, and the total is their number |
| TicketOffice.Office.ReconcileStock | packages/core/src/reconcile.ts:25-73 | Every category of the event with a stock key takes one run of the healing rule and is reported as it was read; nothing else moves |
| TicketOffice.ReportIsTrue | packages/core/src/reconcile.ts:62-70 | A report says what was read, how far the stock is off, and healed iff the run put a difference right |
| TicketOffice.Office.UpsertCategories | packages/core/src/admin.ts:168-224 | An admin edit is taken iff every category named is of the event and keeps room for what is sold and held; then each has the price and quota last given for it, the new ones follow in order, existing gaps between the layers do not move and new categories start level; otherwise nothing changes |
| TicketOffice.Office.SyncStock | packages/core/src/events.ts:173-188 | A missing stock key is initialised from the database, never below zero; a running one is left alone |
| WaitingQueue.AlwaysSound | packages/lua/scripts/join.lua:19-30 | Over every run: queue and heartbeats have the same members, no queued user has a live session, sessions and their keys end together |
| WaitingQueue.AdmitsExactly | packages/lua/scripts/admit.lua:14-31 | A tick at OPEN admits the head of the queue, as many as rate, stock, free places under maxActive and queue all allow and no fewer; otherwise nobody, and the reply says why |
| WaitingQueue.AdmitMoves | packages/lua/scripts/admit.lua:14-42 | The admitted have a session and a key that end together and no heartbeat, ended sessions are gone, and everyone else is as before |
| WaitingQueue.AdmitCounts | packages/lua/scripts/admit.lua:14-49 | The counts a tick returns are the real ones, and it never lifts the sessions past maxActive |
| WaitingQueue.NeverOverMaxActive | packages/lua/scripts/admit.lua:26-42 | Over every run, with any number of would-be leaders, there are never more sessions than the highest maxActive used |
| WaitingQueue.NeverOverRate | packages/lua/scripts/admit.lua:27-31 | Over every run no more users are admitted than the rates of its ticks add up to |
| WaitingQueue.JoinsExactly | packages/lua/scripts/join.lua:8-33 | Which of the six codes a join gets; whoever passes is queued once, by lot in PREQUEUE and by time after, has a heartbeat of this moment and is told the place where they stand |
| WaitingQueue.BeatsExactly | packages/lua/scripts/status.lua:16-19 | A look refreshes the heartbeat of a queued user and never adds one |
| QueueFairness.OrderPreserved | packages/lua/scripts/join.lua:23-30 | While two users stay queued nothing changes who is ahead, rejoining included |
| QueueFairness.LotteryFirst | packages/lua/scripts/join.lua:23-27 | Whoever enters during PREQUEUE is ahead of whoever enters at another status |
| QueueFairness.LaterGoesLast | packages/lua/scripts/join.lua:23-33 | Outside PREQUEUE a strictly later newcomer goes to the very end and is told that rank |
| QueueFairness.TickTakesPrefix | packages/lua/scripts/admit.lua:30-31 | No one a tick leaves behind precedes anyone it admits |
| QueueFairness.TakenAreAdmitted | packages/lua/scripts/admit.lua:35-42 | Everyone a tick takes has a session and a key that end together, and no heartbeat |
| QueueFairness.BoundedWaiting | packages/lua/scripts/admit.lua:26-42 | A user at rank r who keeps heartbeating is admitted no later than the first tick at which the places offered exceed r, whatever else interleaves; a tick at OPEN offers as many as its rate, its stock and the places left under maxActive all allow |
| AdmissionLog.LogHolds | packages/lua/scripts/admit.lua:44-47 | The pruned log holds exactly the distinct admitting ticks of the last 300 s, whatever ticks share a millisecond |
| AdmissionLog.ReadersAreRight | packages/lua/scripts/status.lua:25-30 | For every window, a reader's sum over the log is the number of users admitted in it iff nobody was admitted between its start and the last cutoff and no two admitting ticks in it have the same time and the same count |
| AdmissionLog.LogAgreesWithHistory | packages/lua/scripts/status.lua:25-30 | For every window that starts after the last cutoff, the second condition alone decides |
| AdmissionLog.FullWindowAtTick | packages/core/src/admin.ts:17-30 | A full 300 s window read in the millisecond of a tick is right iff, besides, nobody was admitted exactly 300 s before |
| AdmissionLog.TwoTicksAtOnce | packages/lua/scripts/admit.lua:44-46 | Two admitting ticks in one millisecond are both counted iff they admit different numbers |
| WaitingRoom.ReadersCountTheRun | packages/lua/scripts/status.lua:25-30 | Over every run of the scripts by any number of would-be leaders, the readers' sum is what the run admitted in the window under exactly those conditions |
| WaitingRoom.HistoryCounts | packages/lua/scripts/admit.lua:30-46 | Over every run, what the ticks log adds up to the users that left the queue in ticks |
| WaitingRoom.CleanupCall | packages/lua/scripts/cleanup.lua:6-11 | A call removes only stale users, as many as it says, and all of them if it says fewer than the batch |
| WaitingRoom.OldestGoFirst | packages/lua/scripts/cleanup.lua:6-11 | Nobody a call removes was heard of later than anybody it spares, and sessions, keys and log are left alone |
| WaitingRoom.RoomStore.Join | packages/lua/scripts/join.lua:8-33 | The script as it runs meets the specification that the queue laws are about |
| WaitingRoom.RoomStore.Status | packages/lua/scripts/status.lua:11-42 | Only a queued user's heartbeat is refreshed; status, rank, rate, sums and session are the real ones |
| WaitingRoom.RoomStore.AdmitsSince | packages/core/src/admin.ts:17-30 | The loop of both readers adds up the counts at or after the start of the window |
| WaitingRoom.RoomStore.Admit | packages/lua/scripts/admit.lua:14-49 | The tick with its loops meets the specification that the queue laws are about |
| WaitingRoom.RoomStore.CleanupTick | apps/worker/src/jobs.ts:301-321 | The loop ends; exactly the users stale at the cutoff are gone, no stale heartbeat is left, and the total is their number |
| WaitingRoom.RoomStore.Leave | packages/core/src/queue.ts:88-96 | Leaving removes a user from queue, heartbeats, sessions and keys and touches nobody else |
| RateLimit.RefinesHistory | packages/lua/scripts/ratelimit.lua:9-38 | Over every run the pruned, expiring sets show exactly the accepted requests of each window, and a request passes iff every rule has fewer than its limit there |
| RateLimit.NoWindowOverflows | packages/lua/scripts/ratelimit.lua:13-34 | No window of a rule's length, wherever it lies, holds more than the limit of accepted requests |
| RateLimit.RejectedCostsNothing | packages/lua/scripts/ratelimit.lua:28-33 | A rejected request uses up no rule's quota |
| RateLimit.ScanReply | packages/lua/scripts/ratelimit.lua:13-31 | The rule blamed is the first of the full ones with the longest wait, and none is blamed iff none is full |
| RateLimit.RetryIsExact | packages/lua/scripts/ratelimit.lua:18-28 | The same request would pass after e milliseconds iff e is at least the delay returned, for rules with a limit of at least 1 |
| RateLimit.ZeroLimitNeverOpens | packages/lua/scripts/ratelimit.lua:18-21 | A rule with a limit below 1 never lets anything pass, so the condition of `RetryIsExact`, which apps/api/src/env.ts:22-25 guarantees, is needed |
| RateLimit.RetryAfterSuffices | apps/api/src/protection.ts:84-90 | Waiting the rounded-up seconds sent in Retry-After always suffices |
| RateLimit.RetryAfterRoundsUp | apps/api/src/protection.ts:84-90 | It is the least whole number of seconds that covers the delay |
| RateLimit.Limiter.Check | packages/lua/scripts/ratelimit.lua:9-38 | The script with its two loops meets the specification that the limiter laws are about |
| Protection.RulesAreProper | apps/api/src/protection.ts:27-59 | Whatever address and user id contain, the keys of one request differ and a key always has the same window and limit |
| Protection.RulesFor | apps/api/src/protection.ts:27-59 | The rules pushed are those of the request's route, address and user, in that order |
| Quotas.TallyNeverOverflows | apps/api/src/protection.ts:27-59 | Over every series of HTTP requests, in any 60 s an address gets no more requests of all kinds and no more joins through than their limits, and a user no more joins, status reads and orders than theirs |
| Quotas.RefusedIffFull | apps/api/src/protection.ts:27-59 | A visit is refused iff one of the counts it adds to, by its route, address and user, has reached its limit in the last 60 s |
| Protection.RetryAfterIsKept | apps/api/src/protection.ts:65-90 | A blocked visitor who waits the seconds sent would be let through |
| Protection.EnforceRateLimits | apps/api/src/protection.ts:65-91 | One request is checked and recorded under its rules at once, and refused with the rounded-up delay iff a rule blocks |
| Lease.GrantedIffFree | packages/lua/scripts/leader.lua:5-14 | Over every run of acquire calls a call is granted iff no other instance was granted the lock ttl or less before |
| Lease.TermsDoNotOverlap | packages/lua/scripts/leader.lua:5-14 | Grants to different instances are more than ttl apart |
| Lease.LockKey.Acquire | packages/lua/scripts/leader.lua:5-14 | The script as it runs meets the specification that the lease law is about |
| SaleStatus.StatusOnTime | packages/core/src/events.ts:117-148 | The status at a moment, exactly: the calendar opens waiting room and sale at their times and closes everything at the start; SOLD_OUT stays until then, PAUSED while the sale would be open |
| SaleStatus.DoesExactly | apps/worker/src/jobs.ts:139-294 | What a look, a tick, an edit, pause, resume and the sold-out check each do to the status and to the event's own column, and that they do nothing else |
| SaleStatus.SumsToCategories | apps/worker/src/jobs.ts:282-290 | The comparison of the two sums succeeds iff every category of the event is sold to the last ticket and holds nothing |
| SaleStatus.SoldOutIsSound | apps/worker/src/jobs.ts:267-294 | Over every run, while the status is SOLD_OUT and no quota was raised, every category is full, no checkout can succeed and no order is PENDING |
| SaleStatus.SoldOutSticks | packages/core/src/events.ts:139-141 | Until the event starts, nothing but an edit takes SOLD_OUT back |
| SaleStatus.PhaseNeverBack | packages/core/src/events.ts:117-148 | While nobody edits the event the sale never moves back, and CLOSED is final, although the event's own status column changes on the way |
| SaleStatus.StatusKeeper.SyncToRedis | packages/core/src/events.ts:193-200 | The status becomes CLOSED iff the schedule closes it; otherwise SOLD_OUT stays, PAUSED stays while the schedule says OPEN, and else the schedule rules |
| SaleStatus.StatusKeeper.SyncEvents | apps/worker/src/jobs.ts:139-167 | One look of the worker at an event meets the step that the status laws are about |
| SaleStatus.StatusKeeper.UpsertEvent | packages/core/src/admin.ts:149-222 | An edit of the event is followed at once by the status its new row asks for |
| SaleStatus.StatusKeeper.ConfirmSchedule | apps/worker/src/jobs.ts:200-224 | A stale cached event can delay a status change but never cause one: the change is decided on a fresh read |
| SaleStatus.StatusKeeper.Control | packages/core/src/admin.ts:131-145 | Pause ends at PAUSED exactly from OPEN or PAUSED, resume at OPEN exactly from those, no other status changes, and the reply is the status afterwards |
| SaleStatus.StatusKeeper.CheckSoldOut | apps/worker/src/jobs.ts:267-294 | The status changes iff 3 s have passed since the last look, it was OPEN or PAUSED, and every category is full |

## Left out

- HTTP routes, server-sent events, cookies, validation, metrics, logging, process signals: plumbing.
- Turnstile, JWT and HMAC signatures, password hashing, random codes: foreign cryptography; tokens and codes are taken as given.
- `createOrderWithoutQueue` and `resetEventForLoadTest`: load-test paths that bypass Redis or wipe state.
- Loss of Redis data, clock skew, a database error after the commit took effect, two administrators editing one event at once.
- `getQueueState`, the waiting-time estimate, `EventMetaCache`, the order views: presentation of what is modelled.
- `recordStat` and the statistics keys other than the admission log: counters that nothing reads back into a decision.
- A paid buyer leaving the waiting room (`leaveQueue` after PAID) is a leave step of the waiting room, not of the payment process.
- The overlap guard of the worker's timers and the order in which its jobs run.
- TicketOffice.Office.CreateOrder: proved for one caller without interference; interleavings are the subject of the step system in `Inventory`.
- TicketOffice.Office.ExpireDueOrders: proved without concurrent writers, and without the error that ends a batch early when Redis is down.
- TicketOffice.Office.HandlePaymentNotification: the status read may be stale, but the order does not change while the call itself runs.
- Idempotency.TwinsTakeOnce: other users' checkouts do not run beside the twins, since they would move the same stock; `Idempotency.TwinsTakeOnceAmongOthers` is about the twins' own steps among all others.
- TicketOffice.Office.ReconcileStock: proved without interference; `HealEffects` is about what runs between its reads and its INCRBY.
- SaleStatus.SoldOutSticks: reading the status and setting it are one step, so an administrator's write between the two is not covered.
- LayerOne.DriftOnlyDown: excludes reconciliations and quota cuts, which can push Redis above what PostgreSQL offers.
