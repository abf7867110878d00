# A verified model of C-dsm

C-dsm is a page-migrating distributed shared memory. Each of N processes maps some of the
shared pages; touching a page that is mapped elsewhere raises SIGSEGV, the handler asks the
node it believes to be the owner, and that node's daemon ships the page, unmaps it and tells
the others. A launcher starts the processes, introduces them to each other and relays their
output. This project models these parts in Dafny and proves what they guarantee.

Check everything with `dafny verify dfyconfig.toml`.

## How it is built

| file | what it holds |
|---|---|
| Basics.dfy | octets, `Option` |
| Protocol.dfy | the page protocol: node functions, FIFO links, labelled steps, runs |
| Traffic.dfy | what a step does to each link; additive counts over links |
| SingleCopy.dfy, FlatMemory.dfy | of the atomic give in step: one copy of every page; reads return the last write |
| Requests.dfy, OwnerHints.dfy | request accounting; what the owner tables are worth |
| Directed.dfy | with any N, where transfers of a page do not overlap: requests go to the node that has it |
| TwoNodes.dfy | termination for any N, routing and progress for two nodes |
| Steps.dfy, Progress.dfy | what each step changes, and no more; what each node can always do |
| FineInstall.dfy | page installation in its steps, interleaved with the application |
| FineGive.dfy | giving a page in its steps: the lost write, and when there is none |
| GiveSimulation.dfy, GiveReduction.dfy | careful runs of the written give are runs of the atomic protocol |
| FineRouting.dfy | what the steps of a give do to routing between two nodes |
| Variants.dfy, WrittenLoops.dfy | exact conditions, in code and node count, for what can fail |
| Misreading.dfy, FineMisreading.dfy | reading on behind a lone header: exact conditions over all runs, for giving as one step and in its steps |
| Repeats.dfy | daemons that fault over and over |
| NodeProgram.dfy | dsm.c's procedures as a class, proved against the protocol's functions |
| DaemonTurns.dfy | when the daemon's loop gets through |
| Addresses.dfy | fault addresses and page numbers |
| Framing.dfy, Messages.dfy | common.c over short reads and writes; the protocol's messages as bytes |
| WireFormat.dfy | all that travels, octet by octet |
| Interleaving.dfy | two threads of a node writing to one socket |
| Mesh.dfy | the all-to-all connection phase |
| Barrier.dfy, Handshake.dfy | the launcher's start barrier and its exchange with the workers |
| OutputLoop.dfy | the launcher's poll loop |

A run is a sequence of labels (an access, a fault, a spin, one delivery, a fault of the daemon
itself, a request misread for the content of a page); each label determines the next state, and
`Exec` says whether every label was enabled in its turn. A theorem about every legal run is a
theorem about every interleaving. Where a page is, what a node is owed and what memory holds are
functions of the labels alone (`PlaceAfter`, `PendingAfter`, `LastWritten`), and the lemmas show
that the states agree with them. A run is *in step* when nothing in it is misread, departure (h)
below; what is only true of such runs says so, and Misreading and FineMisreading say when all
runs are.

## Where the code departs from its purpose

The protocol is modelled as the rest of the program needs it. The departures (a), (c) and (g) are
flags of the model (`Variant`), so that both readings are covered.

- (a) dsm.c:111-114 never records the new owner in the giver's own table. Meant: the entry
  becomes the receiver, in the step that unmaps the page: were it recorded later, the giver's
  thread could fault while the table still names its own node. `Variant.recordsGrant`. Without it
  a node may come to address a request to itself. Its own slot was cleared to zero at dsm.c:277 and never filled, so that message goes
  to descriptor 0, its standard input, which by `WrittenLoops.WrittenPollIff` is also polled at
  every rank but 0. The model puts the message on a link of the node to itself that nobody reads.
- (b) dsm.c:112-114 runs over page numbers and indexes the connections with them. Meant: one
  SEND_INFO to every node but giver and receiver. `WrittenLoops.WrittenInfoLoopIff` says when
  the written loop does that.
- (c) dsm.c:208-211 ends the wait when another node is named as owner. Meant: when the own
  node is. `Variant.waitsForOwnership`. The handler spins in its own thread, so ownership may
  come and go before it looks. `Variant.wakesAtOnce` makes the wait end in the step that makes its
  test true; without it the end of the wait is a step of its own (`Spin`), and
  `Variants.NobodyStrandedIff` says what that costs.
- (d) dsm.c:108 with common.c:121 sends a page only up to its first NUL. Meant: all of it.
  `Messages.WrittenBodyIff` says which pages arrive whole.
- (e) dsm.c:149 recognises the own slot at rank 0 only, and dsm.c:161 reads one entry past
  the poll set. Meant: exactly the other nodes. `WrittenLoops.WrittenPollIff` covers the first.
- (f) common.c:92-96 and its three copies there, and dsmexec.c:451-455, add the -1 of an
  interrupted call to the cursor. Meant: try again from the same place. `Framing.WrittenSendIff`,
  `Framing.WrittenRecvIff` and `Framing.WrittenBufferIff` say what this costs on a socket,
  `OutputLoop.PieceShownIff`, `OutputLoop.OutputPrintedIff` and `OutputLoop.SlippedPieceShown` in the
  launcher.
- (g) dsm.c:106-111 copies and ships a page before unmapping it. So giver and receiver can both
  write it, and a write after the copy is lost (`FineGive.LostWrite`). `Variant.unmapsFirst` is the
  other order: the page is unmapped, and the grant recorded, before it is copied. Among runs in
  step that is exactly what single copy and flat memory need (`FineGive.SingleCopyInStepIff`,
  `FineGive.FlatMemoryInStepIff`). But it lets the giver's thread ask for the page before it is
  shipped; the request overtakes the page, and a daemon faults. So with two nodes and everything
  else as meant, requests find their pages exactly in the written order
  (`FineRouting.FineRoutingIff`), and neither order will do (`FineMisreading.NeitherOrderWillDo`).
  In the written order, reads of runs in step still return the last write when the giver's thread
  leaves the page alone in between (`FineGive.CarefulReadsReturnLastWrite`), and two nodes can touch
  a page only in between (`FineGive.OneUserPerPage`). Everything proved in the other files is about
  giving as one step. `GiveReduction.GivesAreAtomic` carries it over, for any number of nodes and a
  handler that waits for ownership, to all runs in which the giver's thread does not write the page
  in between: what that thread does then is moved in front of the give, and every thread keeps the
  order of its own steps. With the handler as written, which does not wait,
  `GiveSimulation.GiveRunsAreSimulated` does so if the thread neither touches the page nor asks a
  third node before the news for that node is out; with two nodes there is no third.
  `FineMisreading.AtomicRunsAreFine` is the other direction.
- (h) A request that reaches a node without the page makes the daemon itself fault at dsm.c:106,
  after it has sent the SEND_PAGE header. The handler serves the whole process: it sends a
  request to the recorded owner and waits for a table that only this daemon could change. The
  step `DaemonFault` does just that; the request it serves stays at the head of its link, and
  where the written test lets the handler return, the copy faults and asks again. With (a) and (c)
  as meant and giving as one step it takes three nodes (`Variants.ServingIffAtMostTwoNodes`). That a
  daemon faults again and again, with one more request each time and without end, never happens as
  meant; `Repeats.RepeatsIff` has the exact condition.
  The receiver of the header maps the page and waits for its content. What comes behind a header is
  always a request (`Requests.HeadersInRuns`), and the receiver takes its first bytes for the
  content: the type is the length 2, and the page number begins the body
  (`Messages.HeaderSwallowsRequest`, `Messages.MangledIsWhatIsRead`). The step `Misread` installs
  that and leaves the link out of step: what is read on it from there is skipped, or ends the
  process at a page that does not exist (`Messages.NothingReadBehindScrap`,
  `Addresses.NoPageBeyond`). So single copy and flat memory are false of runs that misread, as meant
  too: `Misreading.TwoTouchOnePage` for three nodes, `Misreading.WriteIsOverwritten` for two that do
  not wait, `FineMisreading.WriteIsMisread` for two with the page unmapped first. The exact
  conditions are `Misreading.NeverMisreadIff`, `Misreading.ReadsReturnLastWriteIff` and
  `FineMisreading.NoTwoWritersIff` for giving as one step, and `FineMisreading.SingleCopyIff`,
  `FineMisreading.FlatMemoryIff` and `FineMisreading.ServingIff` for its steps. With three nodes
  what was written can be lost for good (`Misreading.PageLost`).

The accept loop labels a connection by its order of arrival (dsm.c:308-309); the protocol assumes
correctly labelled links, and `Mesh.LabelsCorrectIff` says when it gets them. It also assumes that a
message is written whole; `Interleaving.RecoveredIffWhole` says that this is what it takes.

## Model

| member | source | states |
|---|---|---|
| SingleCopy.SingleCopyInRuns | dsm.c:48-121 | with giving as one step: in every state that a run in step reaches, a page is exactly where the labels of the run put it, mapped at one node or in one SEND_PAGE on one link, and nowhere else, daemon faults included |
| SingleCopy.ExactlyOneCopy | dsm.c:48-121 | with giving as one step, in step: (nodes mapping the page) + (SEND_PAGE messages for it in flight) = 1, for any N, any hints, repeated requests and daemons that fault |
| SingleCopy.NoTwoWriters | dsm.c:61-121 | with giving as one step, in step: two nodes are never able to touch the same page in the same state; FineMisreading.NoTwoWritersIff has all runs |
| SingleCopy.OnlyAtStep | dsm.c:61-121 | any step of the atomic protocol but a misreading moves the single copy as its label says and duplicates or drops nothing |
| FlatMemory.CurrentInRuns | dsm.c:61-121 | with giving as one step, in step: every copy, mapped or in flight, holds the last values written to the page by any node |
| FlatMemory.ReadsReturnLastWrite | dsm.c:61-121 | with giving as one step, refinement of one flat memory: each read of each run in step returns the last value written to its address, zero if none; Misreading.ReadsReturnLastWriteIff has all runs |
| FlatMemory.LastWriteIsReadable | dsm.c:61-73 | in step, the running node that maps a page can read the last value at each of its addresses |
| FineGive.LostWrite | dsm.c:104-111 | for every configuration with two nodes, a page and a byte, and every variant with the written order: a run in which giver and receiver can both touch a page, and the receiver then reads something other than the last value written |
| FineGive.GivenPageInOnePlace | dsm.c:91-115 | with copying, shipping and unmapping as separate steps, in either order and any run in step: a page is in one place told by the labels, or besides in the memory of a giver that has shipped it, which unmapping first rules out |
| FineGive.OneUserPerPage | dsm.c:91-115 | if two nodes can touch one page in a run in step, one of them has shipped it and not yet unmapped it, in the written order |
| FineGive.CarefulReadsReturnLastWrite | dsm.c:91-115 | in either order, in every run in step in which the giver's thread does not write the page once copied nor read it once shipped, reads return the last value written |
| FineGive.GiverGoesOn | dsm.c:104-114 | in every reachable state a daemon in the middle of a give can make its next step, and no other; what a thread can do is not affected |
| FineGive.GivesCanEnd | dsm.c:104-114 | from every reachable state all gives under way can be brought to their end by the givers alone, in exactly the steps left of them |
| FineGive.SingleCopyInStepIff | dsm.c:106-111 | no run in step lets two nodes touch one page, exactly when the page is unmapped before it is copied |
| FineGive.FlatMemoryInStepIff | dsm.c:106-111 | all reads of all runs in step return the last value written, exactly when the page is unmapped before it is copied |
| GiveSimulation.GiveRunsAreSimulated | dsm.c:104-114 | a run of the written order, for any N, in which the giver's thread leaves the page alone and asks no third node while news for it is due, is a run of the atomic protocol in which giving happens when the page is shipped |
| GiveReduction.GivesAreAtomic | dsm.c:104-114 | for any N and a handler that waits for ownership: a run of the written order in which no giver's thread writes the page between copy and unmapping is seen as the state some run of the atomic protocol leads to, and every thread makes the same steps in the same order in both |
| GiveReduction.GivesEndAtomic | dsm.c:104-114 | and when no give is under way that atomic run leads to exactly the state the written order is in |
| GiveReduction.InsertStep | dsm.c:104-114 | a step of the giver's thread that is no write to the page may be moved from the end of a run to just before the give, as long as no news of the give that its request would be in front of has been read |
| GiveSimulation.TwoNodeGivesAreSimulated | dsm.c:104-114 | with two nodes it is enough that the giver's thread leaves the page alone |
| FineRouting.WrittenOrderServes | dsm.c:104-114 | with two nodes, handlers that wait and the written order, whatever the threads do between copy and unmapping: no daemon ever faults, and a free daemon finds the page a request at the head of its link asks for |
| FineRouting.WrittenOrderInStep | dsm.c:104-114 | and nothing is ever misread |
| FineRouting.RequestOvertakes | dsm.c:104-114 | with the page unmapped first: a run that puts the request of the giver's own thread in front of the page on one link |
| FineRouting.OvertakenFaults | dsm.c:104-114 | after which the daemon it reaches faults, with two nodes and everything else as meant |
| FineRouting.FineRoutingIff | dsm.c:104-136 | two nodes, as meant, giving in its steps: daemons keep serving, requests find their pages and links stay in step in all runs, exactly when the page is unmapped last, the order that FineGive.SingleCopyInStepIff excludes |
| Requests.NeverSelfInRuns | dsm.c:75-136 | with grants recorded, a node lacking a page never names itself as its owner, no SEND_INFO names its addressee, and nothing is sent to oneself |
| Requests.OwedInRuns | dsm.c:61-136 | in all runs, while its daemon serves, a node whose thread runs has no request of its own and no page for it undelivered; a waiting one has at most one of the two, for the page it waits for and not to itself, and none only if the page has come and its thread has yet to see it; requests that a stuck daemon keeps for ever, whose page was misread, do not count |
| Requests.OneThingPerWaitingThread | dsm.c:61-136 | for any N and all runs, daemon faults and misreadings included: the requests of a node and the pages on their way to it are together as many as its threads that wait, a misread request counting as still due and a wait that a misread page ended as still going on |
| Requests.StuckForever | dsm.c:203-212 | a daemon in its own fault handler stays there in every continuation |
| Requests.HeadersInRuns | dsm.c:104-136 | in every reachable state a lone SEND_PAGE header on a link means that its sender is stuck, with the request of its addressee at the head of the link the other way, and only requests are behind it |
| OwnerHints.HintsArePastGrants | dsm.c:30-115 | in all runs every table entry and every SEND_INFO for p names the first home of p, a node p was granted to earlier, or one that misread it |
| OwnerHints.CopyIsForLastGrantee | dsm.c:91-121 | in step, the one copy of a page is at the node it was granted to last, or on its way there |
| OwnerHints.ConvergingInRuns | dsm.c:75-115 | in step, if transfers of p start only when no news of p is undelivered, whoever does not name the last grantee has that news under way |
| OwnerHints.TablesAgreeWhenSettled | dsm.c:75-115 | in such runs, whenever no news of p is in flight all N tables name one node, and it maps p |
| Directed.RequestsGoToTheHolder | dsm.c:203-205 | any N, every variant that records grants, all runs in step in which transfers of p do not overlap: while no news of p is under way, a thread or daemon that asks for p sends its request to the one node that maps p |
| Directed.ThreadAsksTheHolder | dsm.c:203-205 | there a running thread without p can ask that node, and no other |
| Directed.FaultIsServed | dsm.c:61-136 | any N, as meant: there, with nothing else under way between the two, a fault is served in two deliveries; the page arrives with the last values written, both tables name its new holder, and every third node is sent the news |
| TwoNodes.DeliveryShrinksWork | dsm.c:155-186 | every delivery lowers the work left, a request weighing N and any other message one |
| TwoNodes.DeliveriesTerminate | dsm.c:155-186 | however long a run goes on without new faults, accesses included, it contains no more deliveries than the work left, for any N |
| TwoNodes.RoutableInRuns | dsm.c:91-136 | with giving as one step and two nodes, draining a link in order finds every requested page mapped when its request comes up |
| TwoNodes.TwoNodeRouting | dsm.c:117-136 | with giving as one step and two nodes a request at the head of its link is at a node that maps the page, no daemon ever faults and nothing is misread; FineMisreading.ServingIff has the steps of a give |
| TwoNodes.HoldersKnowInRuns | dsm.c:61-115 | with two nodes the node that maps a page names itself, and no SEND_INFO is ever sent |
| TwoNodes.HeadsAreDeliverable | dsm.c:155-186 | with giving as one step and two nodes every message at the head of a link can be delivered |
| TwoNodes.AtRest | dsm.c:203-212 | with giving as one step, two nodes and nothing in flight both tables name the node that maps each page; nobody waits if threads see at once what they wait for, and Variants.NobodyStrandedIff has the other case |
| TwoNodes.DeliveriesLeadToRest | dsm.c:203-212 | with giving as one step and two nodes the pending deliveries lead from every reachable state to rest, spinning threads or not; with threads that see at once, whoever waits is served |
| FineInstall.FineRunsAreSimulated | dsm.c:61-73 | with mapping, reading, copying and publishing as separate steps, and a lone header mapped before a request is read for its content, every run is a run of the atomic protocol in which the install or misreading happens when it is published |
| FineInstall.NoAccessToUnfilledPage | dsm.c:61-73 | no access is possible at a node that is in the middle of installing a page, or that has mapped one for a header alone; what it may touch is filled and published, be it from a request |
| FineInstall.FineReadsReturnLastWrite | dsm.c:61-73 | reads of fine runs in step return the last value written as well; Misreading.InstallReadsIff has all runs |
| FineInstall.InstallerGoesOn | dsm.c:61-73 | as meant, in every reachable state a daemon in the middle of an install can make its next step, and no other; behind a lone header it waits for a request |
| FineInstall.InstallCanEnd | dsm.c:61-73 | and can bring it to its end by itself in the steps left, unless nothing is behind the header yet |
| FineInstall.CoarseRunsAreFine | dsm.c:61-73 | the other direction, for every variant: every run of the atomic protocol is what is seen of a fine one that does each install and misreading in its steps |
| Steps.PageArrives | dsm.c:61-73 | a SEND_PAGE maps the page with just the body sent and makes the own node its owner; no other entry, page, node or link changes |
| Steps.NewsArrives | dsm.c:75-83 | a SEND_INFO makes the table name the node it names, whatever it named and whether or not the page is mapped, and changes nothing else |
| Steps.RequestIsServed | dsm.c:91-121 | giving as one step: one SEND_PAGE with the content to the node that asks, one SEND_INFO to every third node, the page unmapped, the own entry changed only where grants are recorded, nothing else |
| Steps.ThreadFaults | dsm.c:203-212 | a fault sends one request to the node the table names, and the thread waits unless its test holds at once |
| Steps.DaemonMisreads | dsm.c:61-73 | reading on behind a header changes what an install does, with the two bytes and the stale buffer as content, and leaves the scrap |
| Progress.DealtRoundRobin | dsm.c:346-351 | page p starts at node p mod N, zeroed, named so by all tables; node i starts with the whole part of (pages + N - 1 - i) / N pages |
| Progress.WholeInRuns | dsm.c:48-121 | in all runs every page mapped or in flight is one of the region and of the page size |
| Progress.StatusIsWrite | dsm.c:30-40 | in all runs the status of every entry is WRITE, so it tells nothing |
| Progress.AwakeInTime | dsm.c:208-211 | in all runs a handler that looks at once is never waiting while its test holds |
| Progress.SpinsIff | dsm.c:208-211 | in every reachable state a waiting thread can go on by itself exactly when its test holds, and then only if it spins |
| Progress.ThreadIsFree | dsm.c:203-247 | in every reachable state a running thread can write every byte of a mapped page and read its value and no other, and faults on every other page of the region, asking the node its table names and no other |
| Progress.HeadIsTaken | dsm.c:155-186 | in every reachable state a daemon in its loop can take what is at the head of a link in exactly one way: install, learn, give, fault or misread, and nothing at a lone header or behind a scrap |
| Variants.NobodyAsksItselfIff | dsm.c:111-114 | no run sends a request to its own sender, exactly when grants are recorded |
| Variants.ThreadsBalancedIff | dsm.c:203-212 | with daemons counted and misreadings made up for, request accounting holds in all runs, for any N, exactly when ownership is recorded, waited for and seen at once |
| Variants.BalancedIff | dsm.c:203-212 | with giving as one step, for application threads alone it holds in all runs exactly when also the nodes are at most two |
| Variants.ConvergingIff | dsm.c:111-114 | tables converge in all runs in step with one transfer at a time exactly when grants are recorded |
| Variants.RoutingIffWaits | dsm.c:203-212 | with giving as one step and two nodes requests always find their pages exactly when the handler waits for ownership |
| Variants.WaitingTwoRoute | dsm.c:203-212 | with giving as one step, two nodes and handlers that wait, grants recorded or not: requests find their pages, daemons serve and nothing is misread |
| Variants.RoutingIffAtMostTwoNodes | dsm.c:117-136 | with giving as one step and the rest as meant, requests always find their pages exactly for one or two nodes |
| Variants.ServingIffAtMostTwoNodes | dsm.c:104-106 | with giving as one step and the rest as meant, no daemon ever faults exactly for one or two nodes |
| Variants.DaemonAsks | dsm.c:104-106 | a run of three or more nodes in which a daemon faults and asks for a page no thread of its node wants |
| Variants.NobodyStrandedIff | dsm.c:208-211 | with giving as one step, two nodes and the wait for ownership, no thread is ever left waiting with nothing under way exactly when it sees its ownership at once |
| Variants.StrandedForever | dsm.c:208-211 | a thread left waiting so waits in every continuation, misreadings included, for any N |
| Variants.MissedOwnership | dsm.c:208-211 | a run in which the page comes and goes before the spinning handler looks at the table |
| Variants.HintsConvergeIffAtMostTwoNodes | dsm.c:75-115 | with the code as meant and transfers unrestricted, whoever does not name the last grantee has news of the page under way, exactly for one or two nodes |
| Variants.OvertakenNews | dsm.c:112-114 | a run of three or more nodes that leaves a node naming a past owner with no news under way |
| Variants.TwoAskAtOnce | dsm.c:117-136 | a run of three or more nodes in which the slower of two requests finds the page gone |
| Variants.MovesOnceInRuns | dsm.c:91-115 | with giving as one step, two nodes, grants not recorded and the handler waiting, a page moves at most once, from its home to the other node |
| Variants.ForgottenGrant | dsm.c:111-114 | a run that leaves the giver naming itself as owner of a page it no longer maps |
| Variants.AsksItself | dsm.c:111-114 | a run in which a node that gave a page away asks itself for it |
| Variants.AsksTwice | dsm.c:203-212 | a run in which the written handler asks twice and the second request finds the page gone |
| Repeats.FaultsFirst | dsm.c:104-106 | in every reachable state a free daemon asked for a page it lacks faults: a header to the asking node, then one request to the node its table names, and nothing else changes but that it is stuck |
| Repeats.FaultsAgain | dsm.c:203-212 | in every reachable state a stuck daemon can fault again exactly when the handler's test lets it return; it sends one more request, no header, and nothing else changes |
| Repeats.FaultsForEver | dsm.c:203-212 | then it can do so any number of times, and as many requests are on that link |
| Repeats.RepeatsIff | dsm.c:203-212 | some run has a daemon that can fault again exactly when ownership is not both recorded and waited for, and there are three nodes or it is recorded |
| Repeats.RequestsWithoutEnd | dsm.c:203-212 | and then there is, for every k, a run that leaves k requests for one page behind each other on one link |
| Misreading.WriteIsOverwritten | dsm.c:61-73 | two nodes whose handlers do not wait: a run in which a node reads the number of a page where it had written 7 |
| Misreading.TwoTouchOnePage | dsm.c:61-73 | three or more nodes, every variant: a run without writes in which two nodes can touch one page and one of them reads a 2 |
| Misreading.NeverMisreadIff | dsm.c:61-136 | with giving as one step, nothing is ever misread exactly with two nodes whose handlers wait for ownership |
| Misreading.ReadsReturnLastWriteIff | dsm.c:61-136 | with giving as one step, reads of all runs return the last value written exactly with two nodes whose handlers wait for ownership |
| Misreading.InstallReadsIff | dsm.c:61-73 | with the steps of an install, as meant, reads of all runs return the last value written exactly with two nodes |
| Misreading.StaysGone | dsm.c:61-136 | where the daemon of node 0 is stuck and no copy of page 0 that anybody will map holds a value, that stays so and nobody reads the value, until somebody writes it again |
| Misreading.PageLost | dsm.c:104-106 | as meant, three or more nodes, any value that is not the number of a page: a run that ends with it as the last one written, and no continuation reads it there unless it is written again, misreadings included |
| Misreading.PageLostInSteps | dsm.c:61-106 | the same with the steps of an install, in which lone headers are mapped |
| FineMisreading.AtomicRunsAreFine | dsm.c:91-115 | every run with giving as one step is one of the steps of a give, in either order and for every variant |
| FineMisreading.GiveHeadersInRuns | dsm.c:91-136 | with the steps of a give, too, a lone header means a stuck sender that lacks the page, with only requests behind it |
| FineMisreading.AtMostOneLiveCopy | dsm.c:61-115 | two nodes, the page unmapped first, all runs: mapped copies, buffers of givers, and pages on links that anybody still reads are together at most one |
| FineMisreading.SingleCopyIff | dsm.c:91-115 | giving in its steps, all runs: no two nodes can ever touch one page exactly with two nodes and the page unmapped first |
| FineMisreading.NoTwoWritersIff | dsm.c:61-115 | giving as one step, all runs, every variant: no two nodes can ever touch one page exactly with two nodes |
| FineMisreading.PagesMoveOnce | dsm.c:91-136 | two nodes, the page unmapped first, handlers that wait, grants not recorded: every page moves at most once, no daemon faults and nothing is misread, in the steps of a give |
| FineMisreading.WriteIsMisread | dsm.c:61-115 | two nodes, all as meant, the page unmapped first: a run in which a node reads the number of a page where it had written 7 |
| FineMisreading.NeitherOrderWillDo | dsm.c:104-114 | as meant, whichever the order: a run in which two nodes can touch one page, or a daemon has faulted |
| FineMisreading.FlatMemoryIff | dsm.c:61-136 | giving in its steps, all runs: every read returns the last value written exactly with two nodes, the page unmapped first, handlers that wait and grants not recorded |
| FineMisreading.ServingIff | dsm.c:91-136 | giving in its steps, all runs: daemons keep serving and nothing is misread exactly with two nodes whose handlers wait, and not both grants recorded and the page unmapped first |
| WrittenLoops.WrittenInfoLoopIff | dsm.c:112-114 | the written info loop informs exactly the other nodes if and only if no page number from N on falls on a third node and no third node is numbered past the pages; with 100 pages never for 3 to 97 nodes |
| WrittenLoops.WrittenPollIff | dsm.c:147-153 | the written poll set is the other nodes exactly at rank 0; elsewhere the own slot, standard input, is polled too |
| NodeProgram.DsmNode.constructor | dsm.c:346-351 | the round-robin loop leaves page p mapped at node p mod N only, with that owner in every table |
| NodeProgram.DsmNode.ChangeTable | dsm.c:30-40 | updates status and owner where given, and nothing for a page number out of range |
| NodeProgram.DsmNode.SpinOnce | dsm.c:208-211 | one turn of the handler's loop in its own thread: the wait ends exactly when its test on the table holds then |
| NodeProgram.DsmNode.TestWait | dsm.c:208-211 | the same at the end of a daemon's step, where the variant has threads see changes at once, and nothing otherwise |
| NodeProgram.DsmNode.RecvPage | dsm.c:61-73 | the page is mapped with the received body, the own node becomes its owner, and a wait for it ends |
| NodeProgram.DsmNode.RecvInfo | dsm.c:75-83 | the table names the announced owner; a wait ends only if its test now holds |
| NodeProgram.DsmNode.ShipPage | dsm.c:104-109 | the first of its steps: the page is sent to the receiver and nothing else changes, as in FineGive |
| NodeProgram.DsmNode.FinishGive | dsm.c:111-114 | the second: the page is unmapped, the grant recorded where the variant does so, and every third node sent the news, as in FineGive |
| NodeProgram.DsmNode.SendPageTo | dsm.c:91-115 | the giver's call from first line to last: the receiver is sent the body, every third node the news, the page is unmapped and the rest of the node unchanged |
| NodeProgram.DsmNode.FailToSend | dsm.c:104-106 | serving an unmapped page: the header to the receiver, a request to the recorded owner, and the daemon is stuck |
| NodeProgram.DsmNode.FaultAgain | dsm.c:203-212 | where the handler's test lets it return, the copy faults again and only the request is repeated: a step of runs by Repeats.FaultsAgain |
| NodeProgram.DsmNode.Handler | dsm.c:203-212 | exactly one request, to the node the table names (Steps.ThreadFaults), which is the holder by Directed.RequestsGoToTheHolder, and the thread waits |
| NodeProgram.DsmNode.Dispatch | dsm.c:163-186 | one message has the effect the protocol gives it; a request for an unmapped page that of the daemon's own fault |
| NodeProgram.DsmNode.ReadOn | dsm.c:61-73 | behind a lone header the next request is taken for the content: the page is installed from it, and its scrap stays on the socket |
| NodeProgram.DsmNode.DaemonPass | dsm.c:155-199 | a pass over the sockets is the turns at sockets 0 to N-1 in order, whatever fresh buffers hold; DaemonTurns.TurnTakesTheStep and DaemonTurns.PassServesIff say what those are |
| NodeProgram.PassTakesOneEach | dsm.c:155-199 | a pass that gets through takes one message from every other node that had one, or a lone header and the request behind it but for its scrap, and none from itself |
| NodeProgram.TurnIsARun | dsm.c:155-186 | one turn of the daemon at a socket, begun in any reachable state and with any buffers, is a legal step of the system or none |
| NodeProgram.PassIsARun | dsm.c:155-199 | what a pass does while the other nodes pause is a legal run of at most one step of this node for each socket |
| DaemonTurns.TurnTakesTheStep | dsm.c:161-186 | whatever step the protocol lets the daemon make at a socket, a delivery, its fault or a misreading, its turn there makes, and does not starve |
| DaemonTurns.TurnStarvesIff | dsm.c:61-73 | in every reachable state a turn starves exactly when the daemon is free and the socket has a header with nothing behind it, or a scrap |
| DaemonTurns.PassServesIff | dsm.c:155-199 | a pass over messages without headers and scraps never starves, and ends with the daemon in its loop exactly when each request among them finds its page, counting the pages that come and go earlier in the pass |
| DaemonTurns.TwoNodePassGetsThrough | dsm.c:155-199 | between two nodes whose handlers wait every pass begun in a reachable state takes the message that is there and leaves the daemon in its loop |
| NodeProgram.ReachableInRange | dsm.c:30-136 | in every reachable state all owners and page numbers that a daemon of the protocol uses as an index are one; Messages.NothingReadBehindScrap has what is read out of step |
| Addresses.MaskRoundsDown | dsm.c:229 | masking with ~(size-1) rounds an address down to a multiple of the page size, for every word width |
| Addresses.RoundedTestIsRawTest | Archives/Phase2/dsm.c:116-118 | testing the rounded address accepts the same addresses as the earlier test of the raw one |
| Addresses.RegionIs | dsm.h:7-10 | for page size 2^k the region is 0x40000000 - 100 * 2^k to 0x3FFFFFFF, whenever 100 pages fit |
| Addresses.PagesStartAt | dsm.c:16-24 | page 0 starts at the first of these addresses, page 99 at 0x40000000 - 2^k, each page 2^k behind the one before, and page 100 nowhere |
| Addresses.FaultDecoding | dsm.c:229-238 | for every page size for which 100 pages fit below 0x40000000 the handler accepts exactly the addresses of those pages and finds the page, numbered 0 to 99, that contains the address |
| Addresses.PageZeroIff | dsm.c:26-28 | address2num truncates: it gives 0 for the addresses of page 0 and all but the first of the page before it, and for no others |
| Addresses.PageNumbersRoundTrip | dsm.c:16-28 | address2num undoes num2address on page numbers 0 to 99 |
| Addresses.PageStartsRoundTrip | dsm.c:16-28 | num2address undoes address2num on the page starts of the region |
| Addresses.NoPageBeyond | dsm.c:16-24 | num2address has no address for a page exactly from 100 on |
| Framing.SendBytes | common.c:90-97 | whatever writes are short or interrupted, exactly the data is appended to the stream |
| Framing.RecvBytes | common.c:107-114 | whatever reads are short or interrupted, exactly n bytes are taken, in order, into the front of the buffer |
| Framing.IntRoundTrip | common.c:84-117 | every int32_t is decoded to itself |
| Framing.SendInt | common.c:84-98 | appends the four octets of the number |
| Framing.RecvInt | common.c:101-117 | takes four octets and returns the number they stand for |
| Framing.SendLine | common.c:120-135 | appends the length and the characters before the first NUL |
| Framing.RecvLine | common.c:138-151 | takes exactly one line into the front of the buffer and leaves the rest of the buffer alone |
| Framing.LineNeedsZeroedBuffer | common.c:138-151 | a received line reads back as a C string exactly when the byte after it was NUL before |
| Framing.SendInfo | common.c:154-158 | appends rank, hostname line and port |
| Framing.RecvInfo | common.c:161-165 | returns the record that was sent and takes exactly its bytes, for hostnames under 255 characters and a zeroed record |
| Framing.SendItems | common.c:84-158 | any sequence of ints, lines and records is appended as their encodings in order |
| Framing.RecvItems | common.c:101-165 | reading by kind returns the same sequence and takes exactly its bytes |
| Framing.WrittenSendIff | common.c:90-97 | the loop as written, whose first call is made even with nothing to send, sends the data exactly when no call is interrupted |
| Framing.WrittenSendAt | common.c:90-97 | the t-th byte it sends is the one as many places before the t-th of memory as calls were interrupted until then |
| Framing.WrittenBufferIff | common.c:107-114 | the receiving loop as written is sure to fill the buffer with what was sent exactly when no call is interrupted |
| Framing.WrittenRecvIff | common.c:107-114 | the receiving loop as written takes exactly its own bytes when no call is interrupted, and one byte too many for every interruption |
| Messages.MessageRoundTrip | dsm.c:61-136 | type-then-fields reading recovers each message and takes exactly its bytes |
| Messages.StreamRoundTrip | dsm.c:163-186 | any sequence of messages on a link is recovered exactly and in order |
| Messages.StreamsAreUnambiguous | dsm.c:163-186 | different message sequences have different encodings |
| Messages.SendMessage | dsm.c:85-136 | the senders put exactly the encoding on the stream |
| Messages.RecvMessage | dsm.c:163-186 | the switch reads what the parser says, and only the type of a message of no known type |
| Messages.SendOnLink | dsm.c:85-136 | the bytes in transit go on encoding the queue with the message appended, when it is written whole |
| Messages.RecvOnLink | dsm.c:163-186 | the bytes in transit go on encoding the queue with its head removed |
| Messages.LoneHeaderStarves | dsm.c:61-73 | while nothing is behind a SEND_PAGE header its reader blocks |
| Messages.HeaderSwallowsRequest | dsm.c:104-106 | a request sent after a lone header is read as a page of two bytes, and the rest of it stays on the link |
| Messages.MangledIsWhatIsRead | dsm.c:63-69 | for page numbers below 65536 what the protocol installs then is those two bytes and what the fresh buffer held behind them, and two NULs stay on the link |
| Messages.NothingReadBehindScrap | dsm.c:155-186 | whatever requests for pages below 65536 follow those NULs, the reader reads no message at all, or a page numbered 131072 first |
| Messages.WrittenBodyIff | dsm.c:104-108 | as written a page is sure to arrive whole exactly when it contains no NUL |
| WireFormat.IntOnWire | common.c:84-98 | an int is written as the four octets that stand for it in two's complement, least significant first, and no others |
| WireFormat.IntFromWire | common.c:101-117 | any four octets are read as the number they stand for so |
| WireFormat.LineOnWire | common.c:120-135 | a line is its length and then its characters |
| WireFormat.RecordOnWire | common.c:154-158 | a record is rank, hostname line, port; it fits with hostnames of at most 254 characters |
| WireFormat.MessageOnWire | dsm.c:85-136 | the three messages octet by octet: types 0, 1 and 2, then page, then length and body or owner |
| WireFormat.OtherTypesSkipped | dsm.c:163-186 | of a message whose type is not 0, 1 or 2 just the type is taken |
| WireFormat.WrittenBodyIs | dsm.c:104-108 | as written a page with its first NUL at k arrives as its first k bytes, in front of what the buffer held |
| WireFormat.TransferBody | dsm.c:61-108 | sending and receiving a page by send_line and recv_line leaves just that in the buffer |
| WireFormat.AnnouncementOnWire | dsmwrap.c:60-79 | a worker announces itself in twelve octets: rank, pid, port |
| WireFormat.BriefingOnWire | dsmexec.c:397-409 | a briefing is 0, N, the rank, then the records of ranks 0 to N-1 in order without the own one |
| Interleaving.AllReadIsEncoded | dsm.c:163-186 | what is read of a stream is no longer than the stream when encoded, and as long only if the stream is its encoding |
| Interleaving.RecoveredIff | dsm.c:85-136 | a request written among the pieces of a message: both are read exactly when the bytes are the one behind the other |
| Interleaving.RecoveredIffWhole | dsm.c:85-136 | for SEND_INFO, and SEND_PAGE of every length: both are read, for all their values, exactly when the schedule splits neither the message nor the request |
| Interleaving.RequestInNews | dsm.c:85-136 | a request between the first two integers of a SEND_INFO is read as news nobody sent |
| Interleaving.RequestInPage | dsm.c:104-108 | a request between the page number and the length of a SEND_PAGE makes the page arrive as two bytes, with its own length and body out of step; two nodes are enough |
| Mesh.SomeMoveEnabled | dsm.c:305-344 | until the mesh is complete some node can listen, accept or connect |
| Mesh.RankGoesOn | dsm.c:305-344 | in every reachable state each rank has just one step it can make: listen, then accept whoever has arrived, then connect to the next rank, refused exactly while that does not listen; it halts only in an accept without arrivals or when through |
| Mesh.MovesAddUp | dsm.c:305-344 | moves made and moves left add up to N*N in every run; refused connects are no moves |
| Mesh.CompleteIff | dsm.c:305-344 | a run is complete exactly after N*N moves and never makes more |
| Mesh.MeshCompletes | dsm.c:305-344 | every reachable state can be completed, in exactly the moves left |
| Mesh.GoodInRuns | dsm.c:305-344 | a node listens, accepts and connects in that order, a rank has arrived at k exactly when it is lower and its connect loop is past k, and no rank arrives twice |
| Mesh.PendingWithinBacklog | dsm.c:305 | connections waiting at rank k never exceed its backlog k |
| Mesh.CompleteMesh | dsm.c:305-344 | at the end the slots are all other ranks; higher slots lead to their ranks, lower ones to the lower ranks, each once, in order of arrival |
| Mesh.OneConnectionPerPair | dsm.c:307-344 | exactly one connection for every unordered pair of ranks |
| Mesh.LabelsCorrectIff | dsm.c:308-309 | the accepting end is labelled correctly exactly when the lower ranks arrive in descending order; always with two nodes |
| Mesh.MislabelledMesh | dsm.c:308-309 | a run of three nodes in which rank 0 ends up in rank 1's slot |
| Mesh.ConnectMesh | dsm.c:307-344 | the two loops fill the lower slots with the arrivals from the top down and the higher slots with their ranks |
| Barrier.NeverTooHigh | dsmexec.c:338 | the shared counter never exceeds the number of children that have completed their increment |
| Barrier.ReleasedMeansAllFilled | dsmexec.c:302-357 | once released, every entry holds rank and hostname and no child will touch the counter again |
| Barrier.ExactOrLossy | dsmexec.c:338 | while increments do not overlap the counter is the number of completed children; after an overlap it is, or is bound to become, too low |
| Barrier.OpensIffOneAtATime | dsmexec.c:338-357 | with all children through, the barrier opens exactly when no two increments overlapped, and otherwise never |
| Barrier.CanOpenIff | dsmexec.c:302-357 | from every reachable state the barrier can still open exactly when no two increments have overlapped so far |
| Barrier.LostUpdate | dsmexec.c:338 | a run of two children that leaves the counter at one |
| Handshake.Announce | dsmwrap.c:60-79 | a worker sends its rank, its pid, then its port |
| Handshake.CollectOne | dsmexec.c:365-377 | one accepted connection fills the entry of the rank it announces, and no other |
| Handshake.Collect | dsmexec.c:363-387 | in whatever order the workers connect, every entry gets its worker's connection, pid and port, and nothing is left unread |
| Handshake.Brief | dsmexec.c:397-409 | a worker is sent the signal, N, its rank, and the records of exactly the others |
| Handshake.Distribute | dsmexec.c:394-411 | every worker's briefing goes over that worker's own connection |
| Handshake.RecvTable | dsm.c:276-284 | the worker reads one record per other rank, in the slots the launcher meant, and leaves nothing unread |
| Handshake.Initialise | dsm.c:267-284 | the worker learns N, its rank and every other worker's rank, hostname and port |
| Handshake.Exchange | dsmexec.c:363-411 | for every order of connections, with calls interrupted however often, all workers end up knowing exactly the others, and all streams are empty |
| OutputLoop.CounterIsLiveProcesses | dsmexec.c:437-492 | whatever bytes are written and however they are read, the counter is always the number of processes with a tube still polled |
| OutputLoop.CountedOutOnce | dsmexec.c:478-486 | a step lowers the counter by one exactly when it drops the last tube of a process |
| OutputLoop.ExitsWhenAllDropped | dsmexec.c:437 | the loop test fails exactly when all 2N tubes are dropped |
| OutputLoop.OutputTaken | dsmexec.c:445-489 | whatever bytes are written and however they are read, what has been read of a tube is a prefix of what was written to it, and all of it when the loop has ended |
| OutputLoop.PieceShownIff | dsmexec.c:447-471 | a piece read is sure to be printed as it is exactly when it has no NUL, is shorter than the buffer, and its read was not interrupted |
| OutputLoop.FullPieceShown | dsmexec.c:447-468 | a piece of 512 bytes of text is printed, and behind it the C string that the memory behind the buffer starts with |
| OutputLoop.CutPieceShown | dsmexec.c:447-468 | a piece whose first NUL is at k is printed up to it |
| OutputLoop.SlippedPieceShown | dsmexec.c:451-468 | after s interruptions a piece is printed from its byte s to its first NUL from there or its end, and never on behind the buffer |
| OutputLoop.LostPieceShown | dsmexec.c:451-468 | and nothing of it if it has no more bytes than that |
| OutputLoop.OverrunRun | dsmexec.c:447-468 | a process that writes 512 bytes of text at once has a run in which they are printed with what follows them in the launcher's memory |
| OutputLoop.OutputPrintedIff | dsmexec.c:447-471 | what is read of a tube in a run is sure to be printed as it is, whatever lies behind the buffer and whatever reads are interrupted, exactly when every piece of it is such |
| OutputLoop.OutputRelayed | dsmexec.c:445-489 | in such runs what is printed of a tube is a prefix of what was written to it, and all of it when the loop has ended |
| OutputLoop.GarbledRun | dsmexec.c:447-471 | any other bytes up to a buffer, and any bytes whose read is interrupted, have a run in which they are read in one piece and are not sure to be printed as they are |
| OutputLoop.EveryPassLeavesLess | dsmexec.c:437-492 | once all processes have ended, every pass, for every report of poll and every size of each read, leaves fewer bytes to read or tubes to drop |
| OutputLoop.LoopIsBounded | dsmexec.c:437-492 | once all processes have ended, no continuation has more steps than a bound told by the state, nor ends more passes than there were bytes to read and tubes to drop, and one |
| OutputLoop.LoopGoesOn | dsmexec.c:437-492 | until the loop has exited it can always make a step, so with the bound every way of going on ends in the exit |
| OutputLoop.StepsPossible | dsmexec.c:437-492 | in every reachable state: processes write and close while their end is open, poll reports input and hang-ups of the tubes it is given as they are, a read takes any number of bytes from 1 to what there is or 512, interrupted however often |
| OutputLoop.LoopEnds | dsmexec.c:437-492 | once all processes have ended the loop can be carried to its exit from every state |
| OutputLoop.PassIsARun | dsmexec.c:445-489 | a pass of the program in which the processes do nothing is one of the runs the other rows speak of |
| OutputLoop.TurnPrints | dsmexec.c:447-471 | a turn adds to what the run has printed of a tube just what the program's turn prints |
| OutputLoop.Launcher.constructor | dsmexec.c:425-434 | all 2N tubes are polled and the counter is N |
| OutputLoop.Launcher.ReadPiece | dsmexec.c:447-455 | after a read that was interrupted so often the zeroed buffer holds the piece without that many bytes at its front |
| OutputLoop.Launcher.Relay | dsmexec.c:447-471 | what is read of a tube, up to a full buffer, is taken from it, and the C string at the start of the buffer and the memory behind it is printed, which the rows above tell byte by byte |
| OutputLoop.Launcher.HangUp | dsmexec.c:473-487 | the tube is dropped, and the process counted out if the other tube of the pair is gone |
| OutputLoop.Launcher.Pass | dsmexec.c:445-489 | a pass is the turns at all tubes in order, input before hang-up, and prints of each tube what its turn shows |

## Left out

- Sockets, ssh, fork and exec, pipes, name lookup and the kernel's side of mmap, munmap and
  signals: they appear as FIFO streams, sets of mapped pages and a fault step.
- `dsm_finalize` and QUITTING: the state is never read and the daemon never ends, so the code
  decides no shutdown property.
- The daemon's POLLHUP branch (dsm.c:188-196): it resets entries by first home and to a status
  nothing reads.
- Byte order and widths other than int32_t on the wire: both ends are taken to be of one kind,
  little-endian.
- End of file and errors other than interruption in the receive loops: the bytes a receiver
  waits for are taken to arrive.
- Negative page numbers, owners and lengths in messages: no node sends any, and the parser
  treats them like missing bytes.
- A page body containing no NUL makes the written send run past its buffer; the NUL is taken to
  lie just behind it.
- The poll set entry read past its end (dsm.c:161): undefined, so not given a meaning.
- NodeProgram.DsmNode.Handler: the handler's spinning is the `Waiting` state of the thread, ended
  by `SpinOnce` or, for the variant that wakes at once, `TestWait`; the sleep after it is not
  modelled.
- NodeProgram.DsmNode.SendPageTo: is one call of the class; what other threads do between its steps
  is in the protocol (FineGive, FineMisreading), not in the class.
- Splitting the giving and the receiving of pages is done apart: no run has both in pieces, and
  nothing is proved of the two together.
- FineGive: the messages of one info loop are sent in one step.
- Behind a misreading the protocol lets nobody read on that link. The program skips what is there,
  blocks on it, or ends when it copies to the address it has not got for page 131072
  (`Messages.NothingReadBehindScrap`); that a blocked daemon serves no other link either, and that
  a process ends, only takes steps away. Region sizes of 65536 pages and more, and page numbers
  cut to 16 bits, are not considered there; PAGE_NUMBER is 100.
- Misreading.NeverMisreadIff, like the other exact conditions there, in FineMisreading and in Repeats:
  for three pages or more. With fewer there may be no page left whose request could come behind a
  header.
- Two threads write to one socket, one integer at a time. The protocol's messages are written in
  one piece; `Interleaving.RecoveredIffWhole` shows that this is what it takes to read them.
- A fault is one step: the handler's reading of the table and its request are not separated.
- Framing.SendItems: the sequence of calls is made by recursion; the program makes them one by one.
- Handshake.Exchange: launcher and workers take their parts one after the other, with the workers
  connecting in any order; other interleavings of their reads and writes are not considered.
- OutputLoop.Launcher.ReadPiece: what an interrupted read leaves in front of the buffer goes into
  memory that is not part of this model.
- Mesh.ConnectMesh: refused connects change nothing and are only steps of the system, not of the
  loops.
- Three and more nodes: that requests find their pages and that hints converge is refuted above for
  transfers that overlap, and proved in Directed and OwnerHints for those that do not; that chains of
  hints lead to the holder is not claimed.
- Argument copying, the machine file, debug output, colours, usage, path checks, memory
  management and SIGCHLD: input and output, or single-branch facts.
