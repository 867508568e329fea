# A Dafny model of go-microservice

A model of the parts of go-microservice whose correctness depends on more than one function at
a time: the asynchronous notification pipeline first, then refresh-token rotation, e-mail
uniqueness, the rate limiter and the list endpoint. `dafny verify dfyconfig.toml` checks all of it.

## The notification pipeline

`Pipeline.dfy` is one step machine over the user service, the broker, any number of concurrent
handler calls, the notifications table and the mail server. A state holds every broker message
with its place (main queue, unacked, retry queue, DLQ, acked) and its death record, every handler
call with its program counter, the table, the committed users, what has been declared on the
broker, and a history no step reads. Declarations are steps; a message that arrives is queued only
if the bindings of that moment route it to the consumer's queue. Every
external effect is a step of its own with its possible outcomes, so lost acks, lost replies, lost
connections, crashes between any two effects and mail that went out although `Send` reported an
error are all ordinary steps. A step that is not enabled does nothing; a statement about every
list of steps is therefore a statement about every interleaving.

| File | What it is about |
|---|---|
| `XDeath.dfy` | the `x-death` header: the broker's record of a message's deaths, and the consumer's scan of it |
| `NotificationTable.dfy` | one audit row per event |
| `Pipeline.dfy` | the machine |
| `PipelineSafety.dfy` | nothing is lost, rows are unique and permanent, everything traces to one committed user |
| `PipelineMail.dfy` | an exact account of every e-mail, and the bound that makes "at most once" precise |
| `PipelineRetries.dfy` | how often a message is handled, and what a parked message proves about its past |
| `PipelineProgress.dfy` | the pipeline cannot run forever by itself; what became of a message at rest |
| `PipelineRouting.dfy` | what the pipeline owes to the declared topology: which events are queued at all |
| `PipelineParking.dfy` | when a written-off event is in the DLQ |
| `PipelineCases.dfy` | runs, for every workable configuration, that show where the guarantees stop |
| `Consumer.dfy` | consumer and notification service as objects with methods, proved to take the machine's steps |
| `Topology.dfy` | the queues and bindings a consumer declares, and where dead letters go |
| `Rotation.dfy`, `AuthService.dfy` | refresh-token rotation as a machine, and the service over its store |
| `Users.dfy` | check-then-insert and check-then-update over a unique e-mail column; publish after commit |
| `RateLimit.dfy` | the fixed-window limiter |
| `Query.dfy`, `Clauses.dfy`, `Pagination.dfy`, `ListEndpoint.dfy` | parsing, clauses, page arithmetic, and the list endpoint they make up |
| `Counting.dfy` | counting over lists and finite sums |

## Where the code and its documentation disagree

The model follows the code. For each of these a lemma says what does hold, and for most exactly when.

- `pkg/messaging/rabbitmq/consumer.go:51-53` says a permanently failing message ends up in the
  DLQ. The audit row is written before the message is parked; a message that comes back after
  that finds its own row and is acked. An acked event with a "failed" row is in the DLQ, or its
  park was silently lost, unless its message was requeued after a failed park or redelivered
  (`WrittenOffPublishedEventIsParked`); each of the two does break the promise
  (`FailedRowWithMailAndWithoutDlq`, `RedeliveredFailedRowWithoutDlq`). `docs/messaging.md:92`
  gives the order of the two steps the other way round.
- `docs/messaging.md:33` and `services/notification/cmd/api/main.go:58-60` say that both services
  declare the topology, so neither has to assume the other started first. The user service
  declares the exchange alone (`services/user/internal/platform/messaging/publisher.go:20-31`),
  and an event confirmed before the consumer has bound its queue leaves no trace
  (`ConfirmedEventIsKeptIffBound`, `ConfirmedEventCanVanish`).
- `services/notification/internal/notification/service.go:79-81` says no e-mail was ever sent for
  a "failed" row. A send can succeed while its insert is lost (`FailedRowMeansNoMail` has the exact
  condition).
- `pkg/messaging/rabbitmq/topology.go:13-16` says one consumer's failures must not be retried
  against the other's. A retry expires to the shared exchange, so every consumer whose key selects
  it gets a copy (`ExpiryReachesEveryConsumer`).
- `docs/auth.md:151` says a stolen token can be used only once. Refreshes that look the token up
  before the first one deletes it all succeed: without faults, uses are exactly the lookups before
  the removal (`UsesAreLookups`, `TokenUsedManyTimes`). Without overlap it is used once
  (`SingleUseWithoutOverlap`).
- `README.md:184` says string filters match as a substring. The value is placed in the pattern
  unescaped (`SubstringMatchNeedsPlainValue`).
- A rate-limit window below one second becomes a TTL of zero, which deletes the counter, so a
  limit of at least one limits nothing (`NoLimitBelowOneSecond`); nothing warns of it.
- Page numbers are not bounded, so a page far enough out wraps the offset and returns rows
  (`FetchedPageIsTheOneAskedFor`).

## Assumptions

- Dead-lettering and `x-death` follow RabbitMQ: one entry per queue and reason, its count raised
  by one on each death, the newest first, written as a 64-bit count. Topic routing follows
  section 3.1.3.3 of AMQP 0-9-1. A message no queue is bound for is confirmed and dropped.
- The retry queue loses messages only by expiry: the code declares no length limit on it and no
  consumer, and no operator's policy adds one. The retry count is then exact over every run
  (`RetriesAreExpiries`); with a length limit it can be wrong (`OverflowResetsTheCount`).
- A service whose declarations fail does not start: nothing is delivered before the consumer's
  topology is complete, and nothing is published before the exchange is declared.
- The consumer's channel is not in confirm mode. A park publish that returned nil but was not
  stored is a step of its own, and every statement it could break names it (`LostInPark`).
- Nobody else publishes an event id the user service minted, and uuids and refresh tokens are
  fresh when minted.
- A statement or a store command takes effect at one instant. It may fail before it, or its
  reply may be lost after it.
- A Redis counter is alive up to and including the instant its TTL runs out, and `EXPIRE` with a
  TTL that is not positive deletes the key.
- GORM leaves an offset that is not positive out of the statement, and zero fields out of an
  update built from a struct. `Where` clauses added one after another must all hold.
- The database evaluates a clause on a row and orders rows by a fixed function that neither adds
  nor drops rows. Where it matters (`ResultIsWhatWasAskedFor`, `ResultIsInOrderAskedFor`), it reads
  clauses and ORDER BY items as SQL does.

## Model

| member | source | states |
|---|---|---|
| PipelineSafety.AcceptedEventsAreNeverLost | pkg/messaging/rabbitmq/consumer.go:73-133 | in every run, an event the broker once queued is, at every later moment, still in the broker (queued, in flight, retrying or parked), or has a row, or its park publish was silently lost |
| PipelineSafety.OnlyUndecodableBodiesAreDropped | pkg/messaging/rabbitmq/consumer.go:73-102 | an acked message is undecodable, or its event has a row, a DLQ copy or a silently lost park |
| PipelineSafety.AckedOnlyWhenSettledAlways | services/notification/internal/notification/service.go:38-77 | in every run a call reports success only on a recorded event, and messages are acked only for settled events |
| PipelineSafety.LinkedAlways | pkg/messaging/rabbitmq/consumer.go:54-71 | every handler call works on the body and death record its delivery carried, and every unacked message belongs to one call |
| PipelineSafety.HistoryIsAppendOnly | services/notification/internal/notification/repository.go:29-39 | rows keep event, recipient and status forever, DLQ copies and acked messages stay put, minted ids and commits are never revised |
| PipelineSafety.AtMostOneRowPerEvent | database/migrations/notification/000001_create_notifications.up.sql:3 | no two rows share an event id, in every interleaving of HandleUserCreated and RecordFailure |
| PipelineSafety.ChecksAndSendsAlways | services/notification/internal/notification/service.go:39-59 | each call checks once, before any row of its event was written if it goes on to send, and every e-mail comes after its own call's check |
| PipelineSafety.NoSendAfterRow | services/notification/internal/notification/service.go:39-46 | a call whose check comes after the event's row was written never sends |
| PipelineSafety.TracedAlways | services/user/internal/platform/messaging/publisher.go:33-43 | every message, row and e-mail with a minted id speaks of the one commit the id was minted for |
| PipelineSafety.RowsAndMailsTraceToOneCommit | services/user/internal/user/service.go:30-39 | every row and e-mail of a published event goes to the address of one committed user, and a commit leads to at most one row, even when its publish reported an error |
| PipelineMail.EveryMailIsAccountedFor | services/notification/internal/notification/service.go:53-76 | e-mails sent = sent rows + conflicts + lost inserts + crashes before the insert + sends that reported an error after delivering + calls about to insert, per event, in every interleaving |
| PipelineMail.MailsNeverOutrunTokens | services/notification/internal/notification/service.go:32-77 | e-mails plus the messages and calls that may still cause one never exceed acceptances + lost inserts + unreported sends + redeliveries |
| PipelineMail.AcceptedOnceAlways | services/user/internal/user/service.go:21-39 | whether or not its publish reached the broker or found a queue, a minted event is queued at most once, and exactly once if any message ever carries it |
| PipelineMail.PublishedEventMailBound | services/notification/internal/notification/service.go:32-37 | a published event causes at most one e-mail plus one per redelivery, lost insert and unreported send; with none of those, at most one |
| PipelineMail.FailedRowMeansNoMail | services/notification/internal/notification/service.go:79-94 | a failed row means no e-mail was sent if and only if the event had no conflict, lost insert, crash before insert, unreported send or pending insert |
| PipelineMail.SentRowsAreBacked | services/notification/internal/notification/service.go:53-66 | every sent row follows a Send to its recipient that returned nil |
| PipelineRetries.CountedAlways | pkg/messaging/rabbitmq/consumer.go:91-96 | the retry count read from any message lies between 0 and max(0, maxRetries), and a waiting message has a retry left |
| PipelineRetries.RetriesAreExpiries | pkg/messaging/rabbitmq/consumer.go:135-140 | in every run, the count the consumer reads from a message is exactly the number of times that message has expired from the retry queue |
| PipelineRetries.CallsAlwaysAddUp | pkg/messaging/rabbitmq/consumer.go:81-133 | handler calls on a message = 1 + retries + requeues after failed parks + redeliveries, less the call it still waits for |
| PipelineRetries.HandlerCallBound | pkg/messaging/rabbitmq/consumer.go:47-53 | at most max(0, maxRetries) + 1 handler calls per message, plus one per requeue and per redelivery |
| PipelineRetries.FailuresAlwaysBehind | pkg/messaging/rabbitmq/consumer.go:91-101 | every retry a message has used is backed by a failed call on it, and calls give up only without retries left |
| PipelineRetries.NothingIsWrittenOffEarly | services/notification/cmd/api/main.go:163-171 | behind every failed row and every DLQ copy there is a message of the event with at least max(0, maxRetries) + 1 failed calls, and an event with a failed row has no sent row |
| PipelineProgress.RunsAreBounded | pkg/messaging/rabbitmq/consumer.go:42-53 | the steps of a run are bounded by its fuel: 20 * max(0, maxRetries) + 11 per queued message, 11 per redelivery and requeue, 1 per commit, declaration and publish that queues nothing, whatever the handlers do |
| PipelineProgress.AtRestEverythingIsSettled | pkg/messaging/rabbitmq/consumer.go:47-53 | when no step is left to the services and the broker, every queued event is settled, or still held by a finished call whose ack was lost, or waits for a consumer whose topology is incomplete |
| PipelineProgress.AtRestPlaces | pkg/messaging/rabbitmq/consumer.go:47-53 | when no step is left to the services and the broker, every message is acked, in the DLQ, unacked by a finished call, or waiting for a consumer whose topology is incomplete |
| PipelineProgress.AcksAlwaysExplained | pkg/messaging/rabbitmq/consumer.go:82-102 | every acked event was acked by a call that had not failed, or by one out of retries whose park left a trace |
| PipelineProgress.AlwaysFailingMessageIsParked | pkg/messaging/rabbitmq/consumer.go:91-133 | an event whose every call failed, once acked, was handled exactly max(0, maxRetries) + 1 times (plus requeues and redeliveries) and is in the DLQ unless its park was silently lost |
| PipelineProgress.AlwaysFailingMessageEndsParked | pkg/messaging/rabbitmq/consumer.go:47-53 | the same with the ack concluded and not assumed: at rest, with the consumer listening, for every event whose every call failed and which no finished call still holds |
| PipelineParking.InDlqIffStored | pkg/messaging/rabbitmq/consumer.go:111-133 | in every run an event is in the DLQ if and only if some publish of it to the DLQ was stored, whatever the publisher heard |
| PipelineParking.HeldAlways | pkg/messaging/rabbitmq/consumer.go:96-132 | in every run a call that is not over holds its message unless that was requeued or redelivered, and the call that wrote a failed row holds its message or has acked it after a park |
| PipelineParking.WrittenOffEventIsParked | pkg/messaging/rabbitmq/consumer.go:47-53 | an acked event with a failed row is in the DLQ, or its park was silently lost, unless its message was requeued after a failed park or redelivered, or another message carried the event |
| PipelineParking.WrittenOffPublishedEventIsParked | pkg/messaging/rabbitmq/consumer.go:47-53 | for a published event, which travels in one message, the condition is that this message was neither requeued nor redelivered; it is then in the DLQ if and only if a park was stored |
| PipelineRouting.RoutedOnceBound | pkg/messaging/rabbitmq/topology.go:57-59 | in every run an arriving message is queued if and only if some declaration had got as far as binding the queue and the routing key selects its key |
| PipelineRouting.ConfirmedEventIsKeptIffBound | services/notification/cmd/api/main.go:57-75 | an event the broker took is kept for good (in the broker, as a row or as a named lost park) if and only if the consumer had bound its queue for that key before the publish |
| PipelineRouting.ConfirmedEventCanVanish | services/user/internal/platform/messaging/publisher.go:20-31 | for every user and event id a run in which the user service starts first and its confirmed event leaves no trace, whatever happens afterwards |
| PipelineRouting.DeadLettersFollowTheWiring | pkg/messaging/rabbitmq/topology.go:29-39 | in every run that has delivered anything the topology is complete, and nack and expiry go where the machine sends them and nowhere else, if and only if the shared exchange is not the retry exchange |
| PipelineCases.FailedRowWithMailAndWithoutDlq | pkg/messaging/rabbitmq/consumer.go:98-101 | for every workable configuration a run whose one park attempt failed and that ends with a failed row, an e-mail sent, the message acked and nothing in the DLQ |
| PipelineCases.RedeliveredFailedRowWithoutDlq | pkg/messaging/rabbitmq/consumer.go:98-101 | for every workable configuration a run with a lost connection, and no park at all, that ends with a failed row, the message acked and nothing in the DLQ |
| PipelineCases.MailBoundIsAttained | services/notification/internal/notification/service.go:67-69 | for every n a run with n redeliveries and no other fault that sends n + 1 e-mails: the e-mail bound is tight |
| PipelineCases.EventTypeKeyIsWorkable | services/notification/internal/config/config.go:188 | the runs above exist for the routing key the service sets, whatever the other settings, if the retry TTL is not negative |
| XDeath.RetriesSoFar | pkg/messaging/rabbitmq/consumer.go:141-168 | on any header at all, the scan returns the count of the first entry naming the retry queue with an integer count, or 0 |
| XDeath.RecordCountsHistory | pkg/messaging/rabbitmq/consumer.go:135-140 | after any history of deaths there is one entry per queue and reason, counting exactly those deaths |
| XDeath.RetriesIgnoresOrder | pkg/messaging/rabbitmq/consumer.go:150-166 | whatever the order of entries and whatever other queues' entries, the scan reads the expiry count of a queue that only expires |
| XDeath.RetriesCountsExpiries | pkg/messaging/rabbitmq/consumer.go:135-140 | over every history in which the retry queue loses messages only by expiry, the scan returns the number of completed retry cycles |
| XDeath.RetriesReadsLatestReason | pkg/messaging/rabbitmq/consumer.go:155-165 | over every history, the scan returns how often the message died in the queue for the reason of its latest death there |
| XDeath.OverflowResetsTheCount | pkg/messaging/rabbitmq/consumer.go:155-165 | under an operator's length limit: one overflow after three expiries and the scan reads 1 |
| Consumer.NotificationRepository.Create | services/notification/internal/notification/repository.go:29-39 | after success or conflict the event has a row, no row is lost, one row per event is kept; an error may hide a commit |
| Consumer.NotificationRepository.ExistsByEventID | services/notification/internal/notification/repository.go:41-47 | true exactly if some row bears the event id |
| Consumer.NotificationService.HandleUserCreated | services/notification/internal/notification/service.go:38-77 | path by path the error reported, the e-mail and the row, for every outcome of every external call and any rows others insert meanwhile; a send that errs is reported as such; success only for a recorded event; uniqueness kept |
| Consumer.NotificationService.RecordFailure | services/notification/internal/notification/service.go:82-94 | adds the failed row unless the event has one; a conflict is success |
| Consumer.Consumer.HandleEvent | services/notification/cmd/api/main.go:153-161 | an undecodable payload is an error without effect, anything else is the service's call |
| Consumer.Consumer.RecordExhausted | services/notification/cmd/api/main.go:163-171 | records the failure under whatever of the payload could be decoded |
| Consumer.Consumer.Handle | pkg/messaging/rabbitmq/consumer.go:73-102 | table, mail, DLQ and settlement after one delivery, for every fault and any rows others commit during the handler and after it; the reason on the audit row of a failed send and of an undecodable payload; acked only with a trace left or a silently lost park |
| Consumer.Consumer.ParkDelivery | pkg/messaging/rabbitmq/consumer.go:111-133 | a DLQ copy exactly if the publish stored one; acked on nil, requeued on error |
| Consumer.Consumer.Consume | pkg/messaging/rabbitmq/consumer.go:54-71 | the loop settles each delivery exactly if the broker hears of it, takes no row or parked copy away, and leaves a trace of every event it acked |
| Consumer.HandleRefinesMachine | pkg/messaging/rabbitmq/consumer.go:73-133 | from any state, with any faults and any steps of others after the check and after the handler, whether or not the call inserts anything, the machine's steps for a call end where Handle's contract says, in table, e-mail, settlement and DLQ |
| Topology.DeclareConsumerTopology | pkg/messaging/rabbitmq/topology.go:40-77 | succeeds exactly if nothing fails, the TTL is not negative by a millisecond or more and no queue of these names exists with other arguments; then the two exchanges, three queues and two bindings are in place by name, the retry queue's TTL is the whole milliseconds of the setting and the other two have none; a failure leaves exactly the declarations before it and takes nothing away |
| Topology.RedeclaringIsIdle | pkg/messaging/rabbitmq/topology.go:37-39 | declaring an established topology again is accepted and changes nothing |
| Topology.WiredStays | pkg/messaging/rabbitmq/topology.go:25-39 | no later declaration takes a topology apart |
| Topology.MatchesItself | pkg/messaging/rabbitmq/topology.go:61-68 | every topic pattern selects itself used as a key |
| Topology.WordsOfDotted | pkg/messaging/rabbitmq/topology.go:57-68 | a routing key is its words with dots between them |
| Topology.WildcardsSelect | pkg/messaging/rabbitmq/topology.go:57-68 | in a pattern a star stands for exactly one word and a hash for any number, and all else for itself |
| Topology.NackGoesToRetry | pkg/messaging/rabbitmq/topology.go:52-70 | a rejected message goes to its own retry queue under its own key, and nowhere else exactly if nothing else on the retry exchange selects the key |
| Topology.ExpiryComesBack | pkg/messaging/rabbitmq/topology.go:61-68 | an expired message comes back to its main queue, alone exactly if no other queue on the shared exchange selects the routing key |
| Topology.BouncesForever | pkg/messaging/rabbitmq/topology.go:30-35 | after any number of retry cycles the next nack and the next expiry still find their queues, though the first expiry replaces the key by the pattern |
| Topology.DeclaringAddsOneConsumer | pkg/messaging/rabbitmq/topology.go:40-77 | declaring consumers one after another leaves exactly their bindings on an exchange that is none of their retry exchanges |
| Topology.ExpiryReachesEveryConsumer | pkg/messaging/rabbitmq/topology.go:10-16 | an expiry delivers to exactly the consumers whose key selects this one's; the promise of separate retries holds if and only if there is no other |
| Topology.RetriesLeakToTheOtherConsumer | pkg/messaging/rabbitmq/topology.go:13-16 | two consumers of one key under their own queue names both get each retry of either |
| Rotation.ConsistentAlways | services/auth/internal/auth/repository.go:24-45 | in every interleaving live tokens stand for the user they were minted for, and a token is gone before anything is minted from it |
| Rotation.NeverLiveTogether | services/auth/internal/auth/service.go:84-95 | a token and any descendant of it, over any number of rotations, are never live together |
| Rotation.LiveTokensComeFromLogins | services/auth/internal/auth/service.go:71-82 | the call that minted the token at the start of a live token's lineage is a Login with the credentials of the very user the token is good for |
| Rotation.ReuseBound | services/auth/internal/auth/service.go:84-95 | a token yields at most as many token pairs as it had lookups before it was first removed |
| Rotation.UsesAreLookups | docs/auth.md:151 | in runs whose store commands succeed, once its refreshes have finished, a token has yielded exactly as many pairs as it had lookups before its removal; so it is single-use if and only if at most one lookup came before |
| Rotation.SingleUseWithoutOverlap | services/auth/internal/auth/service.go:84-95 | whatever fails, a token yields at most one pair if no two refreshes of it ever stand between lookup and delete |
| Rotation.RemovedStaysRemoved | services/auth/internal/auth/repository.go:28-45 | once a token was removed every later lookup of it is denied |
| Rotation.TokenUsedManyTimes | docs/auth.md:151 | for every n a run in which no lookup, store command or token issue fails and one token yields n token pairs |
| AuthService.Service.Login | services/auth/internal/auth/service.go:71-82 | a token pair exactly on matching credentials and no fault; a refusal changes nothing |
| AuthService.Service.Refresh | services/auth/internal/auth/service.go:84-95 | success trades one live token for a new one of the same user; failure never leaves more live tokens |
| AuthService.Service.Logout | services/auth/internal/auth/service.go:97-99 | the token is gone if no error is reported |
| AuthService.Service.IssueTokenPair | services/auth/internal/auth/service.go:101-118 | the token is stored exactly if issuing succeeded and the store took it |
| AuthService.RefreshIsARun | services/auth/internal/auth/service.go:84-95 | an uninterrupted Refresh is a schedule of the rotation machine with the same store and the same answer |
| AuthService.LoginIsARun | services/auth/internal/auth/service.go:71-82 | an uninterrupted Login is a schedule of the rotation machine with the same store and the same answer |
| AuthService.LogoutIsAStep | services/auth/internal/auth/service.go:97-99 | a Logout is one step of the rotation machine with the same store |
| Users.EmailsStayUnique | services/user/internal/user/repository.go:56-89 | no two users share an e-mail after any interleaving of inserts, updates and deletes, pre-checks or not |
| Users.UserService.CreateAndPublish | services/user/internal/user/service.go:30-39 | no event without a committed row, at most one, bearing the row as inserted; a failing publish never fails the request |
| Users.UserService.Create | services/user/internal/user/service.go:49-59 | the pre-check refuses a taken e-mail without effect; past it the constraint decides on the table as it then is |
| Users.UserService.Update | services/user/internal/user/service.go:68-90 | one transaction: a success is this update on top of what others committed since the fetch, field by field, with id and password those of the row; a refusal leaves the table as the others left it and is given exactly for a missing user or a taken e-mail; uniqueness kept |
| Users.UserHandler.Update | services/user/internal/user/http_handler.go:77-100 | an invalid PUT changes nothing; an accepted one has stored exactly the name and e-mail it answers with, whatever others do; run alone the constraint decides |
| Users.EventPublisher.PublishUserCreated | services/user/internal/platform/messaging/publisher.go:33-43 | success only on a broker confirmation; an error may hide an acceptance |
| Users.CreateRefinesConstraint | services/user/internal/user/service.go:49-66 | over any list of creations run one after another, the pre-checked path and the path without a pre-check refuse the same ones and store the same users |
| Users.UpdateRefinesConstraint | services/user/internal/user/service.go:68-90 | run alone, for every request that passes validation, the pre-check changes neither answer nor table |
| Users.UpdatesRefineConstraint | services/user/internal/user/service.go:68-90 | any list of validated PUTs ends in the same table with and without the pre-check; a refused one changes nothing |
| Users.AcceptedPutIsStored | README.md:201 | after any list of validated PUTs a user's row is exactly what the last accepted PUT for it answered with |
| Users.PutsKeepPasswords | services/user/internal/user/service.go:84-86 | no list of PUTs changes an id or a password, or adds or removes a user |
| RateLimit.RateLimiter.Increment | pkg/middleware/ratelimit.go:17-25 | counts the request, and starts a window on the first one |
| RateLimit.RateLimiter.Handle | pkg/middleware/ratelimit.go:39-70 | turns away past the limit, fails open on a Redis error |
| RateLimit.RateLimiter.constructor | pkg/middleware/ratelimit.go:32-37 | the TTL is the whole seconds of the window, truncated toward zero |
| RateLimit.RateLimiter.ServeHTTP | pkg/middleware/ratelimit.go:39-70 | a request is counted under its service's and address's own key, touches no other, and is turned away only on a reply that finds the limit used up |
| RateLimit.WindowAdmitsAtMostLimit | pkg/middleware/ratelimit.go:27-31 | at every moment of every timeline, admissions counted since a key's window began are at most the limit |
| RateLimit.AdmissionBound | pkg/middleware/ratelimit.go:27-31 | in any interval of n window lengths a key gets at most (n + 1) * limit - 1 counted admissions |
| RateLimit.AdmissionBoundIsAttained | pkg/middleware/ratelimit.go:27-31 | for every limit and window a timeline that gets 2 * limit - 1 admissions in one window length |
| RateLimit.NoLimitBelowOneSecond | pkg/middleware/ratelimit.go:37 | with a window below one second and a limit of at least one, no request is ever turned away |
| RateLimit.NamespacesDoNotCollide | pkg/middleware/ratelimit.go:41 | namespaces without a colon never share a key, whatever the client addresses |
| Query.Parse | pkg/query/query.go:58-95 | on any parameters and schema, in any order of the parameters, resolves to the sorts and filters specified below |
| Query.ParseSorts | pkg/query/query.go:61-74 | the sort loop resolves each token in order |
| Query.ParseFilters | pkg/query/query.go:76-92 | the filter loop resolves each parameter |
| Query.SortRoundTrip | pkg/query/query.go:56-74 | printing any list of sortable fields with directions, with any white space around them, and parsing it gives back those columns in order |
| Query.SortParameterRoundTrip | pkg/query/query.go:58-74 | the same from the request: the first value of the parameter named sort is what is parsed, and without it there are no sorts |
| Query.SpacesAre | pkg/query/query.go:62 | the code points that are trimmed, one by one |
| Query.SortsAreAllowlisted | pkg/query/query.go:52-74 | for any input the sorts are exactly the resolvable tokens, in order, each a column of a sortable field |
| Query.FiltersAreAllowlisted | pkg/query/query.go:76-92 | there is exactly one filter for each field the request filters by and the schema lets it, with the schema's column and mode and the first value given |
| Query.FilterRoundTrip | pkg/query/query.go:76-92 | asking by parameters named filter[field] for any different filterable fields with values gives exactly those filters, in any order of the parameters |
| Query.WordCharsAre | pkg/query/query.go:14-15 | the characters a filter key may name a field with, one by one |
| Query.FieldDeterminesKey | pkg/query/query.go:14-15 | two parameters for one field are one parameter |
| Query.FilterOrderIsIrrelevant | pkg/query/query.go:76-92 | any two orders of the parameters give the same filters |
| Clauses.Filters | pkg/query/gorm/gorm.go:16-27 | adds one clause per filter, in order: equality of column and value, or the value between percent signs; leaves the ordering alone |
| Clauses.Sorts | pkg/query/gorm/gorm.go:31-42 | adds one ordering item per sort, in order, which SQL reads back as the column and direction of that sort; leaves the clauses alone |
| Clauses.SubstringMatchNeedsPlainValue | README.md:184 | the clause of a string filter accepts exactly the texts that contain its value if and only if the value has no percent sign, underscore or backslash |
| Pagination.ClampedAreTheFixpoints | pkg/pagination/pagination.go:21-32 | NewParams returns in-range parameters and leaves exactly those alone |
| Pagination.OffsetIsExact | pkg/pagination/pagination.go:34-36 | the 64-bit offset is the mathematical one if and only if page - 1 <= (2^63 - 1) div limit |
| Pagination.TotalPagesIsFewest | pkg/pagination/pagination.go:38-49 | TotalPages is the least number of pages that hold all rows if and only if total <= 2^63 - limit |
| Pagination.MetaPassesOn | pkg/pagination/pagination.go:38-49 | without a limit there are no pages; page, limit and total are passed on unchanged |
| Pagination.FetchedPageIsTheOneAskedFor | pkg/pagination/pagination.go:34-36 | what is fetched is the page asked for, on every list, if and only if the offset fits in 64 bits |
| ListEndpoint.Repository.GetAll | services/user/internal/user/repository.go:29-43 | the total counts the rows of the table that pass every filter, as the count sees it; the rows are one page of the ordered selection, each of the table and passing every filter, as the fetch sees it |
| ListEndpoint.Handler.GetAll | services/user/internal/user/http_handler.go:24-40 | the response holds the page, total, page number and limit that the other statements speak of, computed on the tables the fetch and the count saw |
| ListEndpoint.AnswerWithDefaults | pkg/pagination/pagination.go:21-36 | a page below one is the first page, a limit below one is ten rows a page and a limit over a hundred is a hundred: the answer is that page of the ordered result |
| ListEndpoint.SelectedIsFilter | pkg/query/gorm/gorm.go:16-27 | the selection is the rows meeting every clause and no others, each as often as in the table and in its order |
| ListEndpoint.NoFilterSelectsAll | pkg/query/gorm/gorm.go:16-27 | without filters the whole table is selected |
| ListEndpoint.ResultIsWhatWasAskedFor | services/user/internal/user/repository.go:37-39 | from request to rows: a row is in the result as often as in the table exactly if for every filter[field] its column has the value, or contains it for a string field, and not at all otherwise |
| ListEndpoint.ResultIsInOrderAskedFor | services/user/internal/user/repository.go:37-39 | from request to rows: the result comes by the first field of sort, then the next among equals, downwards where there is a minus sign |
| ListEndpoint.ResultIgnoresMapOrder | services/notification/internal/notification/repository.go:49-63 | the same rows in the same order, whatever order Go ranges over the parameters in |
| ListEndpoint.PagesPartitionTheResult | services/user/internal/user/repository.go:29-43 | on an unchanging table the answers to pages 1 to TotalPages, put together, are exactly the ordered selected rows, though each request has its own map order |
| ListEndpoint.LaterPagesAreEmpty | services/user/internal/user/repository.go:29-43 | a page past the last is empty while its offset fits in 64 bits |

## Left out

- SMTP, AMQP, Redis, GORM and Postgres internals: only their atomic effects and their failures are modelled.
- JSON, uuids, clocks, bcrypt and JWT signing: decoding is a given outcome of each body, ids and tokens are given and fresh, credentials match or do not.
- HTTP and gRPC handlers, validation, routers, configuration, start-up, shutdown, logging and health probes: plumbing.
- `apperror` codes, request ids, middleware chaining and messages: settled by reading one function.
- Register and the unchanged pass-through methods of the services: they only forward.
- A consumer without an exhaustion callback: the one consumer there is passes one.
- Prefetch: one consumer handles its deliveries one after the other, and the machine allows any number of handler calls at once.
- The routing key of a queued message: what the wiring does with it is stated for every key the consumer's key selects.
- Several consumers in one machine: the pipeline machine has one queue; what shared routing keys do to several is in `Topology.dfy`.
- Message and queue loss by the broker itself, queue length limits on the main queue, and deliveries lost when a queue is deleted.
- Undecodable deliveries that reach the DLQ: the code never parks one.
- Timestamps, and the columns of a row that no property speaks of.
- Kong and its Lua, protobuf and OpenAPI files, Docker files, migrations other than the unique columns.
- The choice of the client address from proxy headers: any address may come out of it.
- Case folding in ILIKE, and the typed comparison of a filter value with a column: a clause is decided by a given function on rows.
- The order of rows without a total sort: rows are ordered by a given function.
- A count and a fetch that see different tables: `GetAll` states what each sees; the partition is stated for a table that does not change.
- Query.ParseSorts: the Unicode spaces trimmed are those of Go's `unicode.IsSpace`; text is a list of characters, not of UTF-8 bytes.
