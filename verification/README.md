# Verified protocols of a systems-programming course

The repository is a collection of small C programs that share memory, semaphores,
message queues, condition variables and signals. This project models the protocols of
the larger ones and proves what they promise for every number of processes and every
interleaving: a chat server whose shared slot gives totally ordered, exactly-once
delivery, two request/reply servers of which one refines the other, dining
philosophers, two thread-safe stacks, a rendezvous barrier, a block-reversing file
copier, a pool of threads that upper-case files, and a cascade of signals.

## How the models are built

Each concurrent program is a step system. Its state holds the semaphores (natural
numbers), the shared records and the place of every process in its code; a function
`Step` gives the state after one action, or `None` when the action would block. One
action is one semaphore, lock or queue operation together with the private code next to
it. Numbers of processes, queue capacities and table sizes are parameters (the C
programs fix them: 5 processes, 1453 connections, stacks of 100 characters), and values
drawn at random are arbitrary. `Runs.Reaches` is "some schedule leads there",
`Runs.Stuck` is "no action is enabled"; the main results hold in every reachable state
or of every schedule.

Code that works on arrays and records step by step is also written as classes and
methods in the form of the C code: the connection table, the message queue, the fork
array, the two stacks, the semaphore set, the copier's target file and its loop, the job
list and the two-cursor loop. Each method is proved against the same functions that the
step systems use (`ConnectionTable.Connected`, `SingleQueueServer.FirstOfType`,
`Philosophers.SetForks`, `BoundedStack.Apply`, `ReverseCopy.Blocks`,
`JobPool.UpperAll`).

Some fields only record what happened so that a property can be stated: the messages
broadcast, the requests posted and handled, the order of critical sections, the values
sent to each child, the threads that took the jobs. No step reads them to decide
anything.

| file | program |
|---|---|
| `ConnectionTable.dfy`, `ChatServer.dfy`, `ChatTheorems.dfy`, `ChatDepartures.dfy`, `ChatLines.dfy` | `TME05/src/skipShare.c`, `TME05/src/skipClient.c` |
| `MultiQueueServer.dfy` | `TME04/src/serverMultiFile.c` |
| `SingleQueueServer.dfy`, `SingleQueueTheorems.dfy` | `TME04/src/serverUniq.c` |
| `Philosophers.dfy` | `TME05/src/nietzscheBrot.c` |
| `BoundedStack.dfy`, `SemaphoreStack.dfy`, `ConditionStack.dfy` | `TME04/src/thread_stack.c`, `TME03/src/thread_stack.c` |
| `Barrier.dfy` | `TME05/src/rdvSem.c`, `TME04/src/rdvSem.c` |
| `ReverseCopy.dfy` | `TME09/src/ex4.c` |
| `JobPool.dfy` | `TME03/src/pool.c`, `TME03/src/common.c` |
| `SignalCascade.dfy` | `TME09/src/ex5.c` |
| `Runs.dfy`, `Totals.dfy`, `Numbers.dfy`, `Wrappers.dfy` | schedules, sums over processes, finite sets of numbers, `Option` |

## What does not hold

- `deco_sem` carries no name. A client that a full table rejected still asks to leave
  and waits on `deco_sem`, although the server posts nothing for it. It can take the
  token of a member, who then waits forever (`ChatDepartures.RejectedClientStealsToken`
  gives a run). That everybody can get away, from every reachable state, holds exactly
  when the table has an index for every client (`ChatDepartures.EveryoneCanLeaveIff`).
  Even then a client can take another's token before its own disconnection is
  processed; the other one waits until then, and can always go in the end
  (`ChatDepartures.LeaverCanGo`).
- `serverUniq` can deadlock: while the server owes replies the queue can fill up with
  requests. `SingleQueueTheorems.DeadlockFreeIff` gives the exact capacity: one message
  per child, or a single message when no child asks for anything. `serverMultiFile`
  needs only queues that hold one message.
- A second copy by `ex4` restores the source, without its last byte, exactly for the
  sizes with `(size - 1) % 10 == 0` (`ReverseCopy.TwiceRestoresIff`).
- A philosopher can always come to eat, but is not bound to: for every n and every i
  there is a reachable cycle in which all n philosophers take part and philosopher i
  never has its forks, exactly when n is at least 2 (`Philosophers.StarvationIff`).

## Model

| member | source | states |
|---|---|---|
| ConnectionTable.FirstFree | TME05/src/skipShare.c:61-63 | the index where the connection loop stops: free, all before it taken, none exactly when the table is full |
| ConnectionTable.FindName | TME05/src/skipShare.c:93-97 | the first index that carries the requester's name, none exactly when nobody has it |
| ConnectionTable.Table.constructor | TME05/src/skipShare.c:192-197 | all indices are NULL in both arrays and nobody is connected |
| ConnectionTable.Table.Connexion | TME05/src/skipShare.c:58-88 | only the first free index changes, to the name and its link together; 0 and one more connected, or -1 and nothing changed when full; names and links stay NULL together and `nb_connect` counts the taken indices |
| ConnectionTable.Table.Deconnexion | TME05/src/skipShare.c:90-115 | only the first index with the name becomes NULL in both arrays, `deco_sem` is posted once and `nb_connect` drops, or -1 and nothing changes |
| ConnectionTable.Table.FanOut | TME05/src/skipShare.c:121-129 | every linked segment holds the message and is authorised once more; the table is unchanged |
| ChatServer.Lookup | TME05/src/skipShare.c:70-80 | the segment opened is that of the client with the name in the slot |
| ChatServer.InvStep | TME05/src/skipShare.c:204-229 | every step of the server or of a client keeps the whole invariant: baton, mail, table, round, delivery, departures |
| ChatTheorems.OneBaton | TME05/src/skipShare.c:200-228 | `poster_message` + `prevenir_server` + writers in their critical section + the server at work is always 1; two clients never write the slot together, nor a client while the server works |
| ChatTheorems.NoRequestLost | TME05/src/skipClient.c:212-216 | requests handled are exactly those posted, in order and unaltered, but for at most one that is whole in the slot; its type is 0, 1 or 2, so the `default: continue` that would drop the baton is never reached; the history is the type-1 requests handled |
| ChatLines.RequestsAreWhatWasTyped | TME05/src/skipClient.c:186-218 | in every run the requests a client has posted, with the line in its hand, are its connection request, one broadcast for each line typed, unaltered and in order, and its disconnection request |
| ChatLines.HistoryMergesTypedLines | TME05/src/skipClient.c:206-216 | the server's history is a merge of what the users typed: credited to client k are exactly the lines typed at k, lone newlines apart, in order, but for those on the way, and none is on the way when nothing is pending or in hand |
| ChatLines.LoneNewline | TME05/src/skipClient.c:210-211 | a lone newline is read and nothing comes of it |
| ChatLines.LineCanBeShown | TME05/src/skipClient.c:206-240 | from every reachable state any other line typed at a client that reads can become the last message of the history and the last one displayed by every member |
| ChatTheorems.RecordsAreFaithful | TME05/src/skipShare.c:204-229 | the recorded memberships mean what they say: a client joins at the current end of a history that only grows, is rejected by a full table only, and leaves at its current end |
| ChatTheorems.ShownIsSlice | TME05/src/skipClient.c:225-241 | a client has displayed exactly the contiguous slice of the server's history from its connection to now, or to its disconnection, up to the one message in flight; others have displayed nothing |
| ChatTheorems.SameOrder | TME05/src/skipClient.c:225-241 | two clients agree on every message both received and on its place in the history |
| ChatTheorems.RoundClosesExactly | TME05/src/skipShare.c:131-132 | when `diffusion` has done its waits every member has displayed this message, and no authorisation or acknowledgement is left with any client or in `fin_diffusion` |
| ChatTheorems.UpToDateBetweenRounds | TME05/src/skipShare.c:117-133 | outside a round every member has displayed all of its slice and the round's semaphores are 0 |
| ChatTheorems.NoBufferOverwritten | TME05/src/skipShare.c:125-127 | a private buffer is overwritten only after its last message was displayed, and then holds the new message with one authorisation |
| ChatTheorems.RoundAdvances | TME05/src/skipShare.c:121-132 | in a round every step of the server or of a receiver lowers the count of unposted, unread and unacknowledged messages, and no other step raises it |
| ChatTheorems.RoundIsFinite | TME05/src/skipShare.c:121-132 | a run that stays in a round has at most that count of such steps, whatever the users do meanwhile |
| ChatTheorems.RoundNeverBlocks | TME05/src/skipShare.c:131-132 | until the round ends one of those steps is enabled |
| ChatTheorems.RoundCanClose | TME05/src/skipShare.c:117-133 | from every state of a round a continuation ends that round |
| ChatTheorems.BatonStep | TME05/src/skipShare.c:204-229 | until the baton is free some step of the server, of a receiver or of the client that holds it brings it nearer, so no user is needed, and a waiting client stays where it is |
| ChatTheorems.WaitingClientCanProceed | TME05/src/skipClient.c:187-212 | a client that waits for `poster_message` can always get it |
| ChatTheorems.MembershipTable | TME05/include/skipShare.h:27-30 | `nb_connect` is the number of taken indices and at most the table's size; each taken index is the own index of a joined client and each joined client has its index |
| ChatTheorems.DisconnectFreesRequester | TME05/src/skipShare.c:90-115 | a disconnection frees exactly the requester's index and posts one token, or does nothing for a client that had been rejected |
| ChatDepartures.DepartureTokens | TME05/src/skipClient.c:36-36 | clients past `deco_sem` never outnumber processed disconnects; tokens left and tokens taken by others are the processed leavers still waiting |
| ChatDepartures.EveryoneCanLeaveIff | TME05/src/skipClient.c:26-36 | from every reachable state all clients can still be brought to their end, if and only if the table has an index for every client |
| ChatDepartures.DepartureSafeIff | TME05/src/skipShare.c:85-102 | in all runs, whenever no request is pending, there is a token for every member whose disconnection was processed, if and only if no client can be rejected from a table that has members: the table has an index for every client, or none, in which case nobody becomes a member and no token is ever posted |
| ChatDepartures.LeaverCanGo | TME05/src/skipClient.c:30-36 | with an index for every client, from every reachable state, with or without a pending request, one that has sent its disconnection request has a continuation that takes it past `deco_sem` |
| ChatDepartures.TokenIsThere | TME05/src/skipClient.c:36-36 | then its wait for `deco_sem` succeeds at once whenever no request is pending |
| ChatDepartures.RejectionIsFatal | TME05/src/skipClient.c:30-36 | once a client is rejected no continuation ever takes all clients to their end |
| ChatDepartures.StolenToken | TME05/src/skipClient.c:30-36 | for every table that can be full a run in which a rejected client takes a member's token |
| ChatDepartures.RejectedClientStealsToken | TME05/src/skipClient.c:30-36 | with two clients and one index, a run after which nothing can move and the member waits forever |
| MultiQueueServer.InvStep | TME04/src/serverMultiFile.c:63-93 | every step keeps the invariant and is exactly one of the operations still to come |
| MultiQueueServer.ValuesStep | TME04/src/serverMultiFile.c:70-91 | a receive adds exactly the value at the head of the child's queue to `res`, a reply sends exactly the value drawn, and no other step touches what a child has received or was sent |
| MultiQueueServer.AnyValue | TME04/src/serverMultiFile.c:90-91 | the server can reply with any value if it can reply with one |
| MultiQueueServer.SumConcat | TME04/src/serverMultiFile.c:73-73 | the sum in these results adds up: over two lists put together |
| MultiQueueServer.SumOne | TME04/src/serverMultiFile.c:73-73 | and it is the value itself for one value, 0 for none |
| MultiQueueServer.Conservation | TME04/src/serverMultiFile.c:69-93 | requested = received + queued + owed; a child receives the values sent to it in order and `res` is their sum; no send ever targets a removed queue |
| MultiQueueServer.AtTheEnd | TME04/src/serverMultiFile.c:69-101 | each child has all the values sent to it, as many as it asked for, and their sum; its queue is removed and no request is left |
| MultiQueueServer.AllServed | TME04/src/serverMultiFile.c:83-93 | after n turns of the server's loop each child was served and the request queue is empty |
| MultiQueueServer.DeadlockFreeIff | TME04/src/serverMultiFile.c:69-93 | no deadlock if and only if a queue can hold a message (or there is no child) |
| MultiQueueServer.EveryRunEnds | TME04/src/serverMultiFile.c:63-101 | every schedule is finite, whatever the capacity; with room for one message, one that cannot be prolonged has reached the final state |
| SingleQueueServer.FirstOfType | TME04/src/serverUniq.c:70-83 | a typed receive takes the first message of its type, and waits exactly when there is none |
| SingleQueueServer.MessageQueue.Send | TME04/src/serverUniq.c:67-67 | the message comes last in the projection on its type, and the projections on all other types stay as they are |
| SingleQueueServer.MessageQueue.Reply | TME04/src/serverUniq.c:87-92 | the server's inner loop puts the values it draws, in order, behind the replies its child has not received, and no other type sees anything of it |
| SingleQueueServer.MessageQueue.Receive | TME04/src/serverUniq.c:70-70 | the first message of the type leaves the queue and all others keep their order; nothing changes when there is none |
| SingleQueueServer.ProjectHead | TME04/src/serverUniq.c:70-83 | the message a typed receive takes is the head of the projection on its type |
| SingleQueueServer.ProjectReceive | TME04/src/serverUniq.c:70-83 | a typed receive removes the head of its own projection and leaves every other projection alone |
| SingleQueueServer.StepRefines | TME04/src/serverUniq.c:60-94 | every step of `serverUniq` is, through the projection by message type, the same step of `serverMultiFile` |
| SingleQueueServer.ValuesStep | TME04/src/serverUniq.c:68-92 | a receive adds exactly the value of the first message of the child's type to `res`, a reply sends exactly the value drawn under the child's type, and no other step touches what a child has received or was sent |
| SingleQueueServer.AnyValue | TME04/src/serverUniq.c:88-91 | the server can reply with any value if it can reply with one |
| SingleQueueServer.RunRefines | TME04/src/serverUniq.c:60-94 | so is every schedule, from any state of the invariant |
| SingleQueueServer.Refinement | TME04/src/serverUniq.c:50-94 | every schedule of `serverUniq` runs on the n + 1 queues and leaves the same children with the same replies, and no send is lost |
| SingleQueueServer.InvStep | TME04/src/serverUniq.c:60-94 | every step keeps the invariant and is exactly one of the operations still to come |
| SingleQueueTheorems.Conservation | TME04/src/serverUniq.c:67-94 | requested = received + queued under the child's type + owed; values come in order and `res` is their sum |
| SingleQueueTheorems.AtTheEnd | TME04/src/serverUniq.c:67-102 | each child has all the values sent to it, as many as it asked for, and their sum; the queue is empty |
| SingleQueueTheorems.FewRequests | TME04/src/serverUniq.c:87-92 | while the server replies at most n - 1 requests are pending |
| SingleQueueTheorems.ReplyingCanStep | TME04/src/serverUniq.c:87-92 | so with room for n messages a replying server, or the receiver of a reply in the full queue, can move |
| SingleQueueTheorems.ReceivingCanStep | TME04/src/serverUniq.c:67-83 | while the server waits for a request and the end is not reached, something can move |
| SingleQueueTheorems.DeadlockReachable | TME04/src/serverUniq.c:67-92 | with 0 < capacity < n and one child that asks for something, a deadlock is reachable |
| SingleQueueTheorems.DeadlockFreeIff | TME04/src/serverUniq.c:67-94 | no deadlock if and only if the capacity is at least n, or at least 1 when nobody asks for anything (or there is no child) |
| SingleQueueTheorems.EveryRunEnds | TME04/src/serverUniq.c:60-102 | every schedule is finite, whatever the capacity; with enough room, one that cannot be prolonged has reached the final state |
| SingleQueueTheorems.RunFollows | TME04/src/serverUniq.c:60-94 | with room for n + 1 full queues `serverUniq` follows every schedule of `serverMultiFile`, state by state |
| SingleQueueTheorems.Simulation | TME04/src/serverUniq.c:50-94 | then every schedule of `serverMultiFile` from its start is a schedule of `serverUniq`, with the same children and reply sequences at its end |
| SingleQueueTheorems.SameSchedules | TME04/src/serverUniq.c:50-94 | with room for as many messages as there are operations the two programs have exactly the same schedules, and the same children at the end of each |
| Philosophers.Forks.constructor | TME05/src/nietzscheBrot.c:125-129 | all forks are on the table |
| Philosophers.Forks.Take | TME05/src/nietzscheBrot.c:144-151 | flags go up for missing forks; both forks are taken exactly when no flag is up, and else none |
| Philosophers.Forks.PutBack | TME05/src/nietzscheBrot.c:155-155 | both forks are on the table again, the others untouched |
| Philosophers.InvStep | TME05/src/nietzscheBrot.c:141-174 | with two philosophers or more every step keeps forks, gates, flags and the regulator accounted for |
| Philosophers.RouteAfterTest | TME05/src/nietzscheBrot.c:143-173 | from its test on, whatever the others do, a philosopher has its meal exactly when both forks were on the table at the test, and else goes through the gate of fork i if that one was missing, then through the gate of fork i + 1 if that one was, and back to the regulator |
| Philosophers.Routes | TME05/src/nietzscheBrot.c:143-173 | the four ways through the loop, place by place |
| Philosophers.SemaphoresUsed | TME05/src/nietzscheBrot.c:163-172 | the left gate uses `semtab[i]`, the right one `semtab[(i+1)%N]`, and no other place uses a gate |
| Philosophers.ForkAccounting | TME05/src/nietzscheBrot.c:143-162 | a fork is missing if and only if exactly one of its two philosophers holds it; neighbours never eat together; free forks = n - 2 * holders, and holders are at most n / 2 |
| Philosophers.NoDeadlock | TME05/src/nietzscheBrot.c:141-174 | no reachable state is stuck, whoever is inside the gates |
| Philosophers.EveryoneCanEat | TME05/src/nietzscheBrot.c:141-174 | from every reachable state every philosopher has a continuation in which it eats |
| Philosophers.StarvationIff | TME05/src/nietzscheBrot.c:141-174 | for every n and every philosopher i: a reachable cycle of steps exists in which all n take part and i never has its forks, if and only if n is at least 2 |
| BoundedStack.Bounded | TME04/src/thread_stack.c:90-94 | the sequential stack never exceeds its bound |
| BoundedStack.Conservation | TME04/src/thread_stack.c:67-104 | in a legal history accepted pushes = values popped + contents, as multisets |
| BoundedStack.LastInFirstOut | TME04/src/thread_stack.c:79-102 | a character accepted by a push is the result of the pop that comes when all that was pushed after it is gone again, and that pop leaves the stack as it was before the push |
| BoundedStack.PopAfterPush | TME03/src/thread_stack.c:26-57 | in particular of a pop right after the push |
| BoundedStack.AtTheBounds | TME04/src/thread_stack.c:72-94 | a push on a full stack changes nothing; a pop of the empty one returns the character 0 and changes nothing |
| SemaphoreStack.InvStep | TME04/src/thread_stack.c:67-104 | every step keeps mutual exclusion, the sleepers' account, the contents and every thread's calls |
| SemaphoreStack.Linearizable | TME04/src/thread_stack.c:67-104 | under any interleaving the calls with their results, in the order of their critical sections, are a history of the sequential stack (a full push is dropped, an empty pop returns 0) that keeps each thread's own order; the array holds the sequential contents; nothing is lost or invented |
| SemaphoreStack.CallsAsTold | TME04/src/thread_stack.c:67-104 | each thread completes the calls it was told to make, in order and with their arguments, but for the one under way |
| SemaphoreStack.RealTimeOrder | TME04/src/thread_stack.c:67-104 | a call that has returned by some moment has a smaller place in the log than any call, of any thread, made after that moment |
| SemaphoreStack.SleeperAccounting | TME04/src/thread_stack.c:74-76 | while the mutex is free, poppers on their way through `P(0)` = `nb_endormis` + semaphore 0, `nb_endormis` > 0 only on an empty stack, and on a stack that is not empty each sleeper has a token |
| SemaphoreStack.ResetForgetsNobody | TME04/src/thread_stack.c:95-100 | when a push resets `nb_endormis` there is a token for each sleeper |
| SemaphoreStack.SleeperCanWake | TME04/src/thread_stack.c:76-77 | a sleeper can return once the stack holds something, whoever has the mutex |
| SemaphoreStack.PushCanComplete | TME04/src/thread_stack.c:85-104 | with the mutex free and the stack not full a push can complete: its character is on top, each thread counted asleep has a token and nobody is counted any more |
| SemaphoreStack.PopCanComplete | TME04/src/thread_stack.c:67-83 | with the mutex free and the stack not empty a pop can complete with the character on top |
| SemaphoreStack.Segment.constructor | TME04/src/thread_stack.c:14-28 | the stack is empty and nobody sleeps |
| SemaphoreStack.Segment.Pop | TME04/src/thread_stack.c:72-80 | the character on top goes and is returned; on an empty stack the result is 0 and the caller must sleep, and is counted |
| SemaphoreStack.Segment.Push | TME04/src/thread_stack.c:90-102 | the character goes on top below 100, and nothing changes at 100; nobody stays counted asleep and semaphore 0 gained one token for each who was |
| ConditionStack.BroadcastCounts | TME03/src/thread_stack.c:42-42 | after a broadcast nobody is left in the wait set, and nobody has gained or lost the mutex or a pending broadcast |
| ConditionStack.InvStep | TME03/src/thread_stack.c:20-61 | every step keeps mutual exclusion, the wait set's account, the contents and every thread's calls |
| ConditionStack.Linearizable | TME03/src/thread_stack.c:20-61 | as for the other stack; moreover no pop ever meets an empty stack, even with spurious wake-ups |
| ConditionStack.CallsAsTold | TME03/src/thread_stack.c:20-61 | each thread completes the calls it was told to make, in order and with their arguments, but for the one under way |
| ConditionStack.RealTimeOrder | TME03/src/thread_stack.c:20-61 | a call that has returned by some moment has a smaller place in the log than any call, of any thread, made after that moment |
| ConditionStack.NoLostWakeup | TME03/src/thread_stack.c:37-54 | while the mutex is free and a thread waits on the condition, the stack is empty |
| ConditionStack.PopperCanProceed | TME03/src/thread_stack.c:49-61 | while the mutex is free and the stack holds something, every popper can get the character on top |
| ConditionStack.PushCanComplete | TME03/src/thread_stack.c:20-47 | with the mutex free a push can complete: its character is on top, or dropped by a full stack |
| ConditionStack.PopCanComplete | TME03/src/thread_stack.c:49-61 | with the mutex free and the stack not empty a pop can complete with the character on top |
| ConditionStack.SpuriousWakeup | TME03/src/thread_stack.c:53-54 | a thread woken for nothing finds the stack empty and waits again, with nothing changed |
| ConditionStack.Pile.constructor | TME03/src/thread_stack.c:11-12 | the stack is empty |
| ConditionStack.Pile.IsFull | TME03/src/thread_stack.c:17-17 | true if and only if the stack holds 100 characters |
| ConditionStack.Pile.IsEmpty | TME03/src/thread_stack.c:18-18 | true if and only if the stack holds nothing |
| ConditionStack.Pile.Push | TME03/src/thread_stack.c:23-43 | the character goes on top below 100, and nothing changes at 100; it broadcasts if and only if the stack was empty |
| ConditionStack.Pile.Pop | TME03/src/thread_stack.c:56-57 | the character on top of a stack that is not empty goes and is returned |
| Barrier.InvStep | TME05/src/rdvSem.c:109-111 | every step keeps posts, waits and children in balance and is exactly one of the operations still to come |
| Barrier.SemaphoresUsed | TME04/src/rdvSem.c:54-58 | on XSI the children do V(1) and P(0) and the father P(1) and V(0), on POSIX the other way round, each by one |
| Barrier.NobodyPassesEarly | TME05/src/rdvSem.c:22-26 | no process is past the second semaphore before all have posted the first |
| Barrier.AllPassed | TME05/src/rdvSem.c:111-111 | the father has reaped n children only when all have passed, and both semaphores are then 0 |
| Barrier.NoDeadlock | TME04/src/rdvSem.c:100-102 | a reachable state is stuck if and only if the father has reaped all its children |
| Barrier.EveryRunEnds | TME04/src/rdvSem.c:54-58 | every schedule has at most 5n operations; one that cannot be prolonged has taken everybody through and left both semaphores at 0, on either API |
| Barrier.SemaphoreSet.constructor | TME04/src/rdvSem.c:31-31 | both semaphores are 0 |
| Barrier.SemaphoreSet.P | TME04/src/rdvSem.c:33-39 | lowers the semaphore by one, or would sleep exactly when it is 0 |
| Barrier.SemaphoreSet.V | TME04/src/rdvSem.c:41-47 | raises the semaphore by one and leaves the other |
| Barrier.SemaphoreSet.OpenBarrier | TME04/src/rdvSem.c:101-101 | the second loop adds n to semaphore 0 and nothing to semaphore 1 |
| ReverseCopy.WriteByte | TME09/src/ex4.c:68-78 | a one-byte write changes its offset only; a gap before it reads as zeros |
| ReverseCopy.Target.Write | TME09/src/ex4.c:68-78 | the same on the target file, with the offset recorded |
| ReverseCopy.Target.WriteList | TME09/src/ex4.c:129-135 | whatever the order of its writes, a list appends the buffer and writes each offset once |
| ReverseCopy.Copy | TME09/src/ex4.c:84-141 | for at least eleven bytes the loop leaves through its `break`, each byte of the target is the byte of the source its place calls for (blocks of ten from the end of all but the last byte, then the rest from the start), and the offsets below size - 1 are each written exactly once; a shorter source writes nothing |
| ReverseCopy.CopiedIff | TME09/src/ex4.c:84-141 | the byte-by-byte description and the recursive one by blocks are the same |
| ReverseCopy.BlockAt | TME09/src/ex4.c:89-140 | byte i of block j of the copy is byte i of the j-th block of ten from the end of what is copied |
| ReverseCopy.BlocksOfPrepend | TME09/src/ex4.c:89-135 | ten bytes before whole blocks come last in the copy |
| ReverseCopy.TwiceWhole | TME09/src/ex4.c:89-135 | reversing whole blocks twice restores them |
| ReverseCopy.RemainderLast | TME09/src/ex4.c:109-121 | the short block at the start of the source ends the copy |
| ReverseCopy.TwiceRestoresIff | TME09/src/ex4.c:84-141 | for every source of a size, copying, appending any byte and copying again gives `src[..size - 1]`, if and only if size - 1 is a multiple of ten |
| JobPool.UpperCaseInPlace | TME03/src/common.c:47-77 | the two-cursor loop turns the k-th small letter of the alphabet into the k-th capital, leaves every other byte, and no small letter remains |
| JobPool.UpperAllCapitalised | TME03/src/common.c:66-71 | the same of the upper case used throughout, without naming how it is computed |
| JobPool.Jobs.constructor | TME03/src/pool.c:70-73 | no job is taken |
| JobPool.Jobs.IsEmpty | TME03/src/pool.c:17-25 | true if and only if every job is taken |
| JobPool.Jobs.Pop | TME03/src/pool.c:27-35 | the first job not taken, which is then taken |
| JobPool.ThreadFun | TME03/src/pool.c:37-63 | a thread that works alone handles exactly the jobs left, in their order; each file listed among them, once or more, ends as the upper case of what it was and all others are untouched |
| JobPool.InvStep | TME03/src/pool.c:37-63 | every step of any thread keeps jobs, buffers and files accounted for |
| JobPool.RecordIsFaithful | TME03/src/pool.c:27-55 | a thread gets a job only when it is the next one in the list and is then recorded as its taker; no other step changes the record, and a thread keeps its job until it ends it |
| JobPool.JobTakenOnce | TME03/src/pool.c:46-55 | jobs are handed out in order, and over a whole run only one thread ever has a given job index |
| JobPool.NeverHandedOutAgain | TME03/src/pool.c:46-55 | a job index handed out at some moment is never handed out later, not even to the same thread |
| JobPool.FinishedJobsAreUpper | TME03/src/common.c:66-74 | a job that its taker has finished is upper case, whoever else writes the same file |
| JobPool.EveryRunEnds | TME03/src/pool.c:37-63 | every schedule ends; one that cannot be prolonged has ended every thread, and with a thread or more each listed file, once or several times, is the upper case of the original and the others are untouched |
| SignalCascade.InvStep | TME09/src/ex5.c:36-65 | every step keeps printed, woken, signalled and sleeping children in their order |
| SignalCascade.TraceIsPrefix | TME09/src/ex5.c:45-57 | the "passage" lines are always a prefix of n-1, n-2, ..., 0 |
| SignalCascade.NoLostWakeup | TME09/src/ex5.c:30-31 | from a child's first signal on, the one before it is woken or has the signal pending, however early it came |
| SignalCascade.SignalsSent | TME09/src/ex5.c:45-58 | a child that has ended has signalled the one before it twice if it is the last, not at all if it is the first, and else once |
| SignalCascade.EveryRunEnds | TME09/src/ex5.c:36-65 | every schedule has at most 6n steps; one that cannot be prolonged has printed the whole sequence and ended every child |

## Left out

- Fairness: the models say which steps can be taken, not that a scheduler takes them. "Can always" results are about some continuation; termination results are about all schedules.
- Failing system calls: `shm_open`, `mmap`, `fork`, `open`, `read`, `semop`, `msgsnd` and `lio_listio` succeed. In particular the half-filled entry that `connexion` leaves when `shm_open` or `mmap` fails, and the client whose `fork` fails, are not modelled.
- Creation of shared segments, keys, queues and files, unlinking, permissions, DEBUG output: their successful result is the initial state. Queue servers, philosophers and barrier start with their children forked.
- Byte buffers: messages are sequences without a terminating null, so `CONTENT_SIZE`, the payload sizes given to `msgsnd`, the segment of 100 bytes indexed as `int` in the semaphore stack and the terminator written after `buffer[10]` in `ex4` are not modelled.
- Chat: SIGINT reaches a writer only at its `read`, and a receiver that is told to end keeps draining until its disconnection is processed, after which it stays at its wait; an end of input sends empty messages, and an error of `read` is left out.
- Chat: `deco_sem` is taken as 0 at the start although `sem_init` is never called on it.
- Chat: the uniqueness check of client names at `TME05/src/skipClient.c:142-147` is a property of the configuration; a name used again after its client has gone is not modelled.
- Chat: copying into the slot or a buffer is part of the semaphore operation after it; the type written by the fan-out loop is part of its step.
- Queue servers: the father's final `wait` and `IPC_RMID` calls follow the modelled end; a capacity is counted in messages, not bytes.
- ConnectionTable.ClientSegment: the segment of a client is given to `Connexion` as an object instead of being opened by name.
- Philosophers: eating and thinking take no step of their own; the state between two regulator operations stands for them.
- Barrier.SemaphoreSet.P: returns whether the caller can go on instead of suspending it; the waiting is in the step system.
- ConditionStack.Pile.Pop: starts after the wait loop; the loop and its wake-ups are in the step system.
- ReverseCopy: the notifications of the asynchronous writes and the final `sigsuspend` loop depend on how the kernel merges signals.
- JobPool: read-ahead of the input stream (a byte is read when the cursor passes it), and upper-casing outside the letters of the C locale; `unlimited` in `TME03/src/common.c:12-42` is the same loop.
- SignalCascade: processes are numbered by their place in the fork order instead of process ids; a failing `fork`, which kills the father, is left out.
- SIGINT handlers that only release resources and exit.
- The socket programs of TME07 and TME08: network I/O, with chunk counts that depend on short reads.
- `TME03/src/chaine.c`, `TME02/src/daemon.c`, `TME02/src/daemonBIS.c`: they wait on conditions without a predicate, so the liveness one would want does not hold.
- `TME09/src/ex6.c` and `TME09/src/ex7.c`: they depend on unspecified merging of signals.
- `TME06/src/lseekInv.c`, `TME06/src/preadInv.c`, `TME01/src/max_func.c` and the fork and exit-status exercises of TME01: sequential programs of one loop each (reading a file backwards, a maximum) or with a fixed handful of processes, which share no state.
