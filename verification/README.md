# Token mutual exclusion with logical clocks

A Dafny model of the centralised token protocols of the repository, with proofs about every
run, any number of clients and any interleaving. `dafny verify dfyconfig.toml` checks it.

## What is modelled

1. **The waiting queue** (`QueueSpec.dfy`, `LinkedQueue.dfy`, `FillDrain.dfy`). `QueueSpec`
   is the functional queue: where a new item goes, when it is refused. `LinkedQueue.Fila` is
   the linked list the programs relink in place, proved against it, for the servers (no PID
   twice) and for the standalone program (PIDs may repeat). `FillDrain` is the standalone
   program: any interleaving of insertions and removals, and its fill-then-drain driver.
2. **The UDP token server and its clients** (`Messages.dfy`, `Server.dfy`, `ServerClock.dfy`,
   `Client.dfy`, `ClientStamps.dfy`, `Protocol.dfy`, `Invariant.dfy`, `InvariantSteps.dfy`,
   `Safety.dfy`, `Programs.dfy`, `Turns.dfy`, `Capacity.dfy`, `Progress.dfy`). `Server.Servidor` and `Client.Cliente` are
   the two programs with their variables and loops. `Server.Handle`, `Client.Ask`,
   `Client.Receive` and `Client.Leave` say what one turn computes; the classes are proved
   against them, `Protocol` composes the same functions into a system of one server, any
   number of clients and the datagrams in flight, and `Programs` proves that inside the
   system each of them runs its loop. `Turns` states every single step on its own terms.
3. **The RPC variant** (`Rpc.dfy`, `RpcProtocol.dfy`, `RpcSafety.dfy`, `RpcRuns.dfy`), where the holder
   stays at the head of the queue and the others wait until they are the head.

`CInt.dfy` holds the C integer facts and `Sums.dfy` the counting lemmas.

## Main results

- *Mutual exclusion, exactly.* The UDP protocol is exclusive in every reachable state if and
  only if there are not two clients or no PID is congruent to 255 modulo 256, since those read as
  -1, the mark of a free token, in the `char` flag (`MutualExclusionIff`).
- *No starvation with a number.* A queued client is granted the token within an explicit
  number of steps of any continuation, with no fairness assumption (`NoStarvation`), and
  with reliable delivery there is always a next step (`DeadlockFreedom`) unless an `int` is
  about to overflow, which is far away (`OverflowIsFarAway`).
- *Capacity, exactly.* The result of `insere`, which the server ignores, is never a refusal
  if and only if there are at most `n` clients, or `n + 1` when every datagram arrives and
  those of one client arrive in order (`NeverRejectsIff`).
- *No lost update, routing, one place for each client* (`NoLostUpdate`, `GrantsAreRouted`,
  `RequestConservation`).
- *Order.* The token goes to a client whose last REQUEST is stamped no later than that of
  any queued client (`GrantsInRequestOrder`).
- *Acknowledgements.* Every datagram of a client is acknowledged exactly once, to that
  client (`AckConservation`).
- *Clocks.* The server's stamps increase over a run if and only if the unbounded Lamport
  clock of that run stays below INT_MAX (`StampsIncreaseIffNoWrap`); a client's stamps are
  3k - 2 and 3k in round k if and only if k is at most 715827882
  (`StampsExactUntilLastRound`); both hold inside any run of the system (`Programs.dfy`).
- *The RPC variant, exactly.* A run keeps answers exclusive if and only if no arrival takes
  the head of the queue from an answered caller (`OrderlyIffExclusive`); without that
  condition the variant is exclusive for a single client only (`UnconditionalExclusionIff`).
  Orderly runs have a well-defined wait loop, exact stamps for every grant and release, no
  lost update, and answers in the order of the requests (`WaitLoopIsDefined`,
  `StampsAreExact`, `StampChain`, `AnswersInRequestOrder`).

## Modelling decisions

- A client address is the index of the client; PIDs are a function of the address. They need
  not be distinct or small except where a lemma says so (`UniquePids`, `SafePids`).
- `char` is signed and narrowing wraps. Where C leaves a signed overflow undefined, the
  model has no step: a client increments its clock or the value only below INT_MAX.
- REPLY_ALLOW is sent with the size of a pointer. On a 64-bit machine only `rec` and `cod`
  travel, and the client's buffer keeps its other fields; the model does that.
- The network reorders freely unless `fifo`, loses datagrams if `lossy`, never duplicates.
- The `rec` field of an ACK is never written by the server; it is an arbitrary number.
- The comment in the server's loop gives the message codes as 100 to 400; the code uses 10
  to 40, and so does the model.
- In the RPC variant, enqueuing, answering after a true head test, and releasing are atomic
  steps of concurrent callers. A stamp that does not fit the `int` parameter of `insere`, or
  a value that would overflow when doubled, stops its caller in the model.

## Model

| member | source | states |
|---|---|---|
| QueueSpec.PositionIsTheRightPlace | LAB2-NETKIT/servidor.c:70-86 | in a sorted queue an accepted item goes to the front iff the queue is empty or the head is strictly later, else behind the head and every earlier item and before every tail item that is not earlier; no other place satisfies this |
| QueueSpec.PositionFromWalk | LAB2-NETKIT/servidor.c:80-84 | the node where the pointer walk stops is that place |
| QueueSpec.InsertContents | LAB2-NETKIT/servidor.c:70-88 | an insertion adds the item and loses none |
| QueueSpec.InsereKeepsWellQueued | LAB2-NETKIT/servidor.c:62-108 | over insertions and removals the queue stays within capacity, in time order and without a PID twice |
| QueueSpec.InsereQueuesInPlace | LAB2-NETKIT/servidor.c:62-92 | with room and a new PID the queue gets the unchanged item in its right place, otherwise it is unchanged |
| QueueSpec.LaterStampStaysBehind | LAB2-NETKIT/servidor.c:75-84 | a later stamp is never inserted in front of a waiting item |
| LinkedQueue.Fila.EstaNaFila | LAB2-NETKIT/servidor.c:52-60 | the search over the linked list is true exactly when the PID is queued |
| LinkedQueue.Fila.Antecessor | LAB2-NETKIT/servidor.c:80-82 | the pointer walk ends at the node the new item goes behind |
| LinkedQueue.Fila.Encadeia | LAB2-NETKIT/servidor.c:70-87 | relinking keeps one chain without a cycle, counts it, and inserts at the right place |
| LinkedQueue.Fila.Insere | LAB2-NETKIT/servidor.c:62-92 | accepted iff there is room and the PID is not queued; a refusal changes nothing |
| LinkedQueue.Fila.InsereSemBusca | fila.c:43-72 | accepted iff there is room, duplicates included |
| LinkedQueue.Fila.RemoveItem | fila.c:74-88 | takes the head, or nothing from an empty queue |
| FillDrain.Conservation | fila.c:25-88 | for any interleaving, accepted items are the removed ones plus the queued ones, as multisets, and the queue is in time order |
| FillDrain.RemovalTakesAMinimum | fila.c:74-88 | each removal in any run takes one item with the smallest stamp |
| FillDrain.FillThenDrain | fila.c:110-117 | filling and draining returns the first n offered, sorted by stamp |
| FillDrain.PreencheEEsvazia | fila.c:99-119 | the driver returns the ten drawn items in time order, each once, and never removes from an empty queue |
| Server.Servidor.Atende | LAB2-NETKIT/servidor.c:168-242 | one turn on the program's variables and linked queue acknowledges the sender with its PID and the exact stamp, grants, queues in place under the request's own stamp and address, or passes the token on, and equals the turn the protocol model uses |
| Server.Servidor.TrataRequest | LAB2-NETKIT/servidor.c:195-215 | a free token is granted at once, otherwise the request is queued in its right place under its own stamp, PID and address, or refused |
| Server.HandleIsATurn | LAB2-NETKIT/servidor.c:168-242 | the turn used by the protocol model meets the same promise, stated on the datagram and the states before and after |
| Server.Servidor.TrataRelease | LAB2-NETKIT/servidor.c:216-242 | the new value is stored and the token goes to the head of the queue, or becomes free |
| Server.Servidor.Executa | LAB2-NETKIT/servidor.c:161-243 | the receive loop over any sequence of datagrams is the iteration of that turn |
| ServerClock.ClockInRange | LAB2-NETKIT/servidor.c:176-231 | on any input below INT_MAX the clock stays in 0..INT_MAX at loop heads and every stamp sent in 0..INT_MAX-1 |
| ServerClock.StampsIncreaseIffNoWrap | LAB2-NETKIT/servidor.c:176-231 | the stamps sent strictly increase over a run iff the unbounded Lamport clock stays below INT_MAX, and then the clock equals it |
| ServerClock.ClockPassesEveryStamp | LAB2-NETKIT/servidor.c:176 | without a wrap the clock ends above every stamp received |
| Client.Cliente.Aguarda | LAB2-NETKIT/cliente.c:69-125 | the inner loop, with its retry counter, does what the client model does until the release or the retry |
| Client.Cliente.Executa | LAB2-NETKIT/cliente.c:37-126 | the nested loops over any sequence of datagrams send exactly what the client model sends |
| ClientStamps.StampsExactUntilLastRound | LAB2-NETKIT/cliente.c:39-111 | round k sends stamps 3k-2 and 3k iff k is at most 715827882; the next request is stamped zero and is the last datagram |
| ClientStamps.RetriesOnForeignAcks | LAB2-NETKIT/cliente.c:83-90 | up to 127 ACKs for another PID, the first three are ignored and each later one repeats the request, because giving up does not reset the counter |
| InvariantSteps.StepKeepsInv | LAB2-NETKIT/servidor.c:161-243 | every step of server, client or network keeps the joint invariant on token, places, values and order |
| InvariantSteps.NothingRejected | LAB2-NETKIT/servidor.c:62-91 | with enough room no insertion is refused (pigeonhole over the clients that can be queued) |
| Safety.TokenConservation | LAB2-NETKIT/servidor.c:195-242 | free token, grants in flight, critical sections and releases in flight add up to one in every reachable state, to at most one with losses |
| Safety.MutualExclusionIff | LAB2-NETKIT/servidor.c:197-199 | never two clients in the critical section iff fewer than two clients or no PID is congruent to 255 modulo 256 |
| Safety.NoLostUpdate | LAB2-NETKIT/cliente.c:106-112 | the value is 30 plus the releases served; grants in flight and critical clients have it, releases in flight have one more |
| Safety.HolderOnRecord | LAB2-NETKIT/servidor.c:199-232 | a grant to a client, its critical section or its release in flight imply that the flag is that client's narrowed PID |
| Safety.GrantsAreRouted | LAB2-NETKIT/servidor.c:199-236 | every grant carries the current value and goes to the address of the waiting client whose PID is recorded, through queue insertion and removal |
| Safety.GrantsInTimeOrder | LAB2-NETKIT/servidor.c:197-236 | while somebody waits no request is granted directly, and each grant goes to the head, stamped no later than any waiter |
| Safety.RequestConservation | LAB2-NETKIT/cliente.c:53-126 | each client is in at most one place, and in exactly one with reliable delivery and enough room |
| Safety.RetryIsUnreachable | LAB2-NETKIT/cliente.c:76-95 | no ACK for another PID reaches a client, the counter stays zero and the retry is never taken |
| Safety.ClocksInRange | LAB2-NETKIT/servidor.c:176-203 | in every reachable state all clocks and stamps are in range and no delivery overflows the server's clock |
| Safety.RequestStampInRun | LAB2-NETKIT/cliente.c:58 | in any run the request after k earlier ones is stamped 3k+1 up to the remainder |
| Programs.ServerRunsItsLoop | LAB2-NETKIT/servidor.c:161-243 | in any run of the system the server's state and all it has sent are what its receive loop computes from what was delivered to it |
| Programs.ServerClockInSystem | LAB2-NETKIT/servidor.c:176-231 | in any run all the server sends is stamped in increasing order iff its Lamport clock stays below INT_MAX, and then its clock is that one and ends above every stamp received |
| Programs.ClientSendsWhatItsLoopsSend | LAB2-NETKIT/cliente.c:53-126 | in any run what a client has sent is a prefix of what its nested loops send on the same input |
| Programs.ClientStampsInSystem | LAB2-NETKIT/cliente.c:58-111 | in any run a client alternates requests and releases, stamped 3k-2 and 3k in round k iff k is at most 715827882 |
| Turns.DeliveryIsATurn | LAB2-NETKIT/servidor.c:168-242 | a delivery to the server removes one datagram, adds first the ACK to its sender and then at most one grant, with exact stamps, and changes the server's state as promised |
| Turns.ClientSends | LAB2-NETKIT/cliente.c:56-61 | the exact REQUEST and RELEASE datagrams and the client's variables after sending them |
| Turns.ClientReceives | LAB2-NETKIT/cliente.c:69-107 | the buffer after a whole or a short datagram, and the client's clock, counter and place after each kind of datagram |
| Turns.QueuedUnderRequestStamp | LAB2-NETKIT/servidor.c:213 | in any reachable state a queued item carries the stamp of the last REQUEST its client sent |
| Turns.GrantsInRequestOrder | LAB2-NETKIT/servidor.c:197-236 | whoever is granted the token while a client is queued sent a REQUEST stamped no later than that client's |
| Turns.AckConservation | LAB2-NETKIT/servidor.c:184-188 | what a client has sent is what is in flight from it, plus the ACKs in flight to it, plus the ACKs it has received |
| Turns.BufferKeepsLastWhole | LAB2-NETKIT/cliente.c:71 | the PID and tempo fields of a client's buffer are those of the last datagram it received whole |
| Capacity.NeverRejectsIff | LAB2-NETKIT/servidor.c:129-213 | no reachable insertion is refused iff the clients fit: n, or n+1 with ordered delivery and no loss |
| Progress.DeadlockFreedom | LAB2-NETKIT/servidor.c:161-243 | with reliable delivery every reachable state has an enabled step or a pending int overflow |
| Progress.OverflowIsFarAway | LAB2-NETKIT/cliente.c:97-111 | a pending overflow needs 715827883 requests of one client or INT_MAX - 30 releases served |
| Progress.GrantsKeepComing | LAB2-NETKIT/servidor.c:161-243 | in every run, steps plus remaining work equal three per client plus seven per grant |
| Progress.StepBypass | LAB2-NETKIT/servidor.c:75-86 | position in the queue plus the requests of others not stamped later, in flight or still to be sent, never rises and drops with every grant |
| Progress.BoundedBypass | LAB2-NETKIT/servidor.c:216-236 | the grants to others before a queued client's are at most that measure |
| Progress.NoStarvation | LAB2-NETKIT/servidor.c:161-243 | every continuation longer than work plus seven times that measure grants the token to the queued client |
| Progress.QueuedIsServed | LAB2-NETKIT/servidor.c:161-243 | with reliable delivery such a continuation exists, unless it comes to a pending overflow |
| Rpc.Servidor.Enfileira | LAB07-SD/backup/servidor.c:105-111 | creates the queue on the first call and puts the caller, under its own stamp, in its right place, or refuses it |
| Rpc.Servidor.EhPrimeiro | LAB07-SD/backup/servidor.c:112 | the wait condition, on a queue that is not empty, tells whether the caller is the head |
| Rpc.Servidor.Responde | LAB07-SD/backup/servidor.c:115-119 | the answer carries the current value and the next tick of the clock |
| Rpc.Servidor.Libera | LAB07-SD/backup/servidor.c:122-132 | stores the value, sets the clock one past the larger of the two, pops the head whoever calls |
| Rpc.Cliente.Executa | LAB07-SD/backup/cliente-2.c:25-61 | over any replies, each release is stamped two past the larger of its request and its reply, each later request one past the release before it, and the release returns the doubled value |
| RpcProtocol.ArrivalQueuesInPlace | LAB07-SD/backup/servidor.c:45-73 | an arrival is queued in its right place under the stamp of its call, or refused, and changes nothing else |
| RpcProtocol.AnswerTicks | LAB07-SD/backup/servidor.c:115-119 | an answer is stamped with the next tick, without a merge, and leaves the queue |
| RpcProtocol.ReleaseMerges | LAB07-SD/backup/servidor.c:122-127 | after a release the clock is exactly one past the larger of the two, the value is the one given back and the head is gone |
| RpcProtocol.ClientSteps | LAB07-SD/backup/cliente-2.c:30-50 | the exact clock, stamps and value of a caller after its request, its merge and its release |
| RpcSafety.StepKeepsInv | LAB07-SD/backup/servidor.c:105-132 | every step that does not displace an answered caller keeps the answered caller at the head and the waiting ones queued |
| RpcSafety.OrderlyIffExclusive | LAB07-SD/backup/servidor.c:56-58 | a run is free of displacements iff no answer along it breaks mutual exclusion |
| RpcSafety.UnconditionalExclusionIff | LAB07-SD/backup/servidor.c:105-132 | without the arrival condition the variant is exclusive iff there is at most one client |
| RpcSafety.ConditionalExclusion | LAB07-SD/backup/servidor.c:105-132 | in an orderly run at most one caller is past the wait loop, and it is the head |
| RpcSafety.WaitLoopIsDefined | LAB07-SD/backup/servidor.c:108-127 | with no more clients than places a waiting caller stays queued, so the head it reads is never null, and a release pops the caller's own item |
| RpcRuns.StampChain | LAB07-SD/backup/servidor.c:115-127 | grants and releases of an orderly run alternate, each stamp determined by the one before, and the value is two to the number of releases |
| RpcRuns.StampsAreExact | LAB07-SD/backup/cliente-2.c:31-50 | the first grant is stamped 1 and each later one two past the release before it; each release is by the caller just granted, two past the larger of its request and the grant |
| RpcRuns.ChainIncreases | LAB07-SD/backup/servidor.c:115-127 | any two stamps of such a chain are in strictly increasing order |
| RpcRuns.AnswersInRequestOrder | LAB07-SD/backup/servidor.c:56-65 | in an orderly run the caller answered asked with a stamp no later than that of any other caller then queued |
| RpcRuns.RequestFollowsOwnRelease | LAB07-SD/backup/cliente-2.c:31 | in every run a client's first request is stamped 1 and each later one is one past its own previous release |

## Left out

- Sockets, host names, `sleep`, random numbers, printing and argument parsing: only message contents and addresses are kept.
- Memory management: `malloc` failures and sizes, leaks, `free`, and the uninitialised item `removeItem` returns on an empty queue, which no server uses.
- The `addrlen` and `sockaddr_in` saved with a queued request: both are the one abstract address.
- Behaviour after a signed overflow, and duplicated datagrams.
- Fairness for a request still in flight: only a queued request has a bound, since the network may delay a datagram for ever.
- Progress of the RPC variant: under a single-threaded dispatcher a waiting call blocks the release that would end it.
- The static reply buffer that concurrent RPC calls share: each call has its own reply in the model.
- The half-edited copies under LAB07-SD (`servidor.c`, `cliente.c`, `backup2-sem-M`), the generated RPC stubs, the RPC demos and `thread-RPC.c`.
