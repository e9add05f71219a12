# Verified models of the backported kernel algorithms

This project models the self-contained algorithms of the repository, which carries parts of newer Linux
kernels back to older ones, and proves what they are for. Everything is Dafny 4.11;
`dafny verify dfyconfig.toml` checks the whole project. Code that changes objects, buffers and lists in place
is written as classes and methods over fields and arrays; each method is tied to a function of the old state,
and the properties over whole runs are lemmas about those functions.

| files | subject |
|---|---|
| `Words`, `Errno`, `Wrappers` | machine words, error numbers, options |
| `Newton`, `Codel`, `CodelProofs`, `CodelExact`, `CodelQueue` | the CoDel control loop and its fixed-point reciprocal square root |
| `FqCodel`, `FqDeficit`, `Sums`, `FqProofs`, `FqCalls`, `FqRuns`, `FqExact`, `FqFair`, `FqService`, `FqTheorems`, `FqWitness`, `FqSched` | the FQ-CoDel scheduler: invariant, termination, starvation, fairness, conservation |
| `CodelQdisc` | the single-queue CoDel scheduler |
| `Bits`, `Kfifo`, `KfifoRecords`, `KfifoSpsc`, `KfifoRuns` | the ring buffer, its record mode, and its lock-free use by one writer and one reader |
| `TimeConv` | seconds to calendar date |
| `SgTable`, `SgPages` | chained scatterlists, page coalescing and the page iterator |
| `XorLaws`, `Crc8` | the CRC-8 tables and polynomial division |
| `I2cWire`, `I2cBus`, `I2cXfer`, `I2cTheorems`, `I2cExact` | the bit-banging I2C master, from line levels to transfers |
| `DevAddr`, `DevSync`, `DevExact`, `DevRuns` | reference-counted device address lists and their synchronisation |
| `Kstrtox` | parsing of numerals |
| `PmQos` | aggregated power-management requirements, interleaved |

How the models are built:

- FQ-CoDel: `FqCodel.Pass` is one trip from the label `begin:`; `FqCalls.Dequeue` repeats it under the measure
  packets, listed flows, shortage of deficits, new flows. `FqSched.FqCodelQdisc` is the same machine with objects and
  lists updated in place; its ghost field `model` is the value that the functions and lemmas speak about.
  Every queue carries a history (arrivals, judgements, drops, marks, deliveries, frees, refills), which only proofs
  read. A packet that `fq_codel_change` frees was dequeued first: fairness counts it as sent, since the deficit paid
  for it, and delivery and conservation count it as lost.
  `backlogs[i]` is a field of flow i. The deficit is the signed 32-bit `int` and the quantum the `u32` that they
  are in C, and assignments to the deficit wrap around.
- The clock is an unbounded tick count of which the code sees the low 32 bits. The tests on times are exact
  as long as target and interval are at most 2^31 ticks, and not beyond (`CodelProofs.TargetTestExact`,
  `CodelProofs.IntervalTestExact`). One `codel_dequeue` reads the clock once. Between the trips of one
  `fq_codel_dequeue` the clock moves by any amounts: they are a parameter (`ticks`).
- `reciprocal_divide` keeps the upper word of a product, `sg_next`, `sg_chain`, `sg_init_table` and
  `rounddown_pow_of_two` are kernel functions and are modelled by what they do there.
- Allocation failures are parameters: a number of chunks the allocator grants, or a function that says for
  which addresses memory is there.
- The one-writer one-reader claim is a state machine whose steps are the reads, copies and publications of
  either side in program order, scheduled in any order. The power-management calls are steps of any number of
  threads, with the lock held during each step.
- The I2C master drives a trace of line events. The other devices are a function from pulses to levels; they
  leave SDA alone in pulses in which the master does not listen, and SCL always rises in time.

Where code and documentation differ, the models follow the code:

- `fq_codel_change` accepts a quantum of 2^31, with which a deficit of -2^31 is refilled to 0 and back, for ever:
  `fq_codel_dequeue` does not return from the first packet on (`FqCalls.FirstPacketStuck`). It returns from every
  valid state iff the quantum is neither that nor 0 (`FqCalls.DequeueReturns`). Between 2^31 and 2^32 it returns,
  but deficits wrap; fairness is proved below 2^31, where they do not (`FqDeficit.NoWrap`).
- `kstrtoll` refuses "-0", although zero fits every signed type (`Kstrtox.MinusZeroRefused`); the exact
  condition is `Kstrtox.SignedExactly`.
- A reciprocal root of zero, as `codel_vars_init` leaves it, stays zero when the dropping state is entered in what
  looks like the neighbourhood of `drop_next`, and then no gap is put between drops. `FqTheorems.ZeroRootExactly`
  says when, and `FqWitness.ZeroRootReached` leads there by five arrivals and two dequeues.
- Watchers of a power-management class can be left with old news (`PmQos.LastNewsCanBeOld`);
  `PmQos.WatchersEndWithTarget` says in which states that can happen.
- `__kfifo_in_r` stores a record that is too long for its length field, and it is not read back
  (`KfifoRecords.TooLongIsLost`); `__kfifo_skip_r` on an empty fifo moves out past in (`Kfifo.Fifo.SkipR`).
- `sg_alloc_table_from_pages` gives lengths that add up to the size only if the size reaches the last run and
  does not exceed the pages (`SgPages.LengthsExact`). The iterator gives the pages back iff the data fills them
  all or ends strictly inside a page that is the last of its run, and every run has fewer than 2^20 pages
  (`SgPages.PagesRoundTrip`): the byte count of a longer run does not fit its 32 bits, and 2^20 consecutive pages
  that are filled completely give an entry of length 0 (`SgPages.LongRunIsLost`).
- In bit-banging I2C, `msg->len += inval` is a 16-bit sum. After a read without an error the length is the number
  of bytes read iff given and received length together stay below 2^16 (`I2cTheorems.ReadLength`).

## Model

| member | source | states |
|---|---|---|
| `Newton.IdealLandsUnder` | include/net/codel.h:187-203 | In plain arithmetic a Newton step from any r with count r^2 <= 3*2^32 lands at or below 1/sqrt(count): count r'^2 <= 2^32 |
| `Newton.IdealNeverDown` | include/net/codel.h:187-203 | From at or below the root, a step never moves away from it |
| `Newton.IdealIsNewton` | include/net/codel.h:187-203 | A step is Newton's r (3 - count r^2) / 2, with r a fraction of 2^16, short of it by less than one unit and a 2^15-th |
| `Newton.MachineStepIsIdeal` | include/net/codel.h:193-203 | The 64-bit subtraction does not underflow, the shifts lose only what the ideal step rounds off, and the 16-bit store does not truncate |
| `Newton.GapBound` | include/net/codel.h:205-215 | The gap d that the control law adds satisfies d^2 count <= interval^2 |
| `Newton.GapExact` | include/net/codel.h:205-215 | The gap is interval times the 16-bit estimate over 2^16, rounded down |
| `CodelProofs.TargetTestExact` | include/net/codel.h:247-252 | Failing the 32-bit sojourn test means having waited for target, for all times, iff target <= 2^31 |
| `CodelProofs.IntervalTestExact` | include/net/codel.h:254-261 | Passing the test on first_above_time means more than interval has gone by, for all times, iff interval <= 2^31 |
| `CodelProofs.ShouldDropKeeps` | include/net/codel.h:218-263 | Judging a packet keeps the window invariant behind first_above_time, and an affirmative verdict is backed by that window |
| `CodelProofs.CodelDequeueKeeps` | include/net/codel.h:268-361 | Over one codel_dequeue: length, backlog and drop counter move by exactly what left the queue, arrivals and deliveries are accounted for, an empty hand means an empty queue, and packets are only lost this way while more than maxpacket bytes remain elsewhere |
| `CodelProofs.DropSafety` | include/net/codel.h:247-262 | Every packet CoDel dropped or marked was judged right before, more than an interval after the packet that opened the window, and each packet judged in between had waited for target and left more than maxpacket bytes |
| `CodelExact.EmptyHanded` | include/net/codel.h:274-281 | From an empty queue nothing comes back, and the dropping state is left |
| `CodelExact.HeadKept` | include/net/codel.h:247-262 | If the head may not be dropped (too young, too little behind it, or the window not open long enough), or Signed(clock - dropNext) < 0 in the dropping state, it comes back, nothing is dropped or marked, and first_above_time is cleared, set to clock + interval or kept |
| `CodelExact.DropsWhenDue` | include/net/codel.h:284-325 | In the dropping state with a head that may be dropped, packets are dropped from the head exactly as long as each may be dropped, a drop is due by the control law, and ECN does not mark it instead; the next one comes back; every counter and CoDel variable is told; on return still dropping and without a mark, Signed(clock - dropNext) < 0 |
| `CodelExact.StartsDropping` | include/net/codel.h:327-358 | Out of the dropping state such a head is dropped or marked and the next packet comes back whatever its verdict; count restarts from the odd number at or above count - lastcount within sixteen intervals of dropNext, else from 1; the next drop is one gap from now |
| `CodelExact.JudgeAt` | include/net/codel.h:218-263 | The verdict on a packet is affirmative iff it has waited for target, more than the longest packet stays behind it, and first_above_time is set and passed |
| `CodelProofs.EscalateOk` | include/net/codel.h:299-302 | One more drop keeps count r^2 <= 2^32, also when count wraps |
| `CodelProofs.EnterOk` | include/net/codel.h:338-357 | Entering the dropping state keeps it, whether it resumes near the old rate or starts over |
| `CodelQueue.PacketQueue.Judge` | include/net/codel.h:218-263 | codel_should_drop updates vars, backlog and maxpacket in place as ShouldDrop says |
| `CodelQueue.PacketQueue.Refine` | include/net/codel.h:193-203 | codel_Newton_step changes rec_inv_sqrt only |
| `CodelQueue.PacketQueue.DropWhileDue` | include/net/codel.h:297-325 | The inner loop terminates and has the outcome of DropLoop, gotos included |
| `CodelQueue.PacketQueue.EnterDropping` | include/net/codel.h:327-358 | The branch that enters the dropping state |
| `CodelQueue.PacketQueue.Dequeue` | include/net/codel.h:268-361 | codel_dequeue as a whole has the outcome of CodelDequeue |
| `CodelQueue.TurnShrinks` | include/net/codel.h:297-325 | Each turn of the inner loop that does not end it uses up a packet, and the loop goes on with a packet in hand |
| `FqCodel.ClassInRange` | compat/sch_fq_codel_core.c:73-117 | For every hash, priority and classifier outcome the chosen flow exists; without a classifier there always is one |
| `FqExact.ClassExact` | compat/sch_fq_codel_core.c:73-117 | Which flow each priority, classifier outcome and hash leads to: minor numbers count from one, and flow f gets the hashes with f 2^32 <= hash cnt < (f + 1) 2^32 |
| `FqCalls.FatScanFinds` | compat/sch_fq_codel_core.c:155-160 | The scan finds the first flow of largest backlog |
| `FqCalls.EvictSafe` | compat/sch_fq_codel_core.c:143-171 | With packets queued, the flow that the scan picks has one: the head pointer is not null |
| `FqCalls.EvictKeeps` | compat/sch_fq_codel_core.c:161-170 | Dropping its head keeps the invariant and shortens the queue by one |
| `FqCalls.EnqueueEffect` | compat/sch_fq_codel_core.c:173-219 | Below the limit the packet is the last of its flow; otherwise the first flow of largest backlog loses its oldest packet and the length stays. The result is NET_XMIT_CN iff that flow is the packet's own. A flow on neither list becomes the last new flow with all seven CoDel variables zero, a full quantum and no drops; no other variable, deficit or list changes, and every counter is told |
| `FqExact.RefusedEffect` | compat/sch_fq_codel_core.c:181-188 | A packet that is not queued counts as a drop iff the bypass flag is set, and nothing else changes |
| `FqCalls.EnqueueKeeps` | compat/sch_fq_codel_core.c:173-219 | Enqueue keeps the invariant, qlen <= limit and the parent's count, and says by how much qlen changes |
| `FqProofs.PassKeeps` | compat/sch_fq_codel_core.c:248-289 | A trip keeps the invariant with any quantum; one that does not return decreases packets, listed flows, shortage of deficits, new flows unless the quantum is 0 or 2^31; one that returns has a packet iff a flow was listed |
| `FqExact.RefillExact` | compat/sch_fq_codel_core.c:248-261 | A flow without credit gets a quantum and goes to the end of old_flows, and nothing else changes |
| `FqExact.SendExact` | compat/sch_fq_codel_core.c:263-289 | A flow from which CoDel returns a packet keeps its place and pays for it; all unreported drops are reported to the parent if packets are still queued, and none if not |
| `FqExact.IdleExact` | compat/sch_fq_codel_core.c:271-279 | A flow with nothing to send leaves its list, a new one for the end of old_flows if that is not empty |
| `FqDeficit.RefillEnds` | compat/sch_fq_codel_core.c:257-261 | With the deficit as a 32-bit int, refilling reaches a positive one iff the quantum is not 0 (or the deficit is positive already) and it is not 2^31 with a deficit of 0 or -2^31 |
| `FqDeficit.RefillEndsAlways` | compat/sch_fq_codel_core.c:257-261 | It does so from every deficit iff the quantum is neither 0 nor 2^31 |
| `FqDeficit.NoWrap` | compat/sch_fq_codel_core.c:45-60 | Setting and refilling a deficit never wrap iff the quantum is below 2^31, charging a packet never wraps iff it has at most 2^31 + 1 bytes |
| `FqProofs.ToppedDebt` | compat/sch_fq_codel_core.c:257-261 | A refill of a listed flow strictly lowers the summed shortage, with any quantum other than 0 and 2^31 |
| `FqProofs.ServeKeeps` | compat/sch_fq_codel_core.c:263-270 | Running CoDel on the examined flow keeps the invariant and never drops the last packet of the qdisc |
| `FqCalls.DequeueKeeps` | compat/sch_fq_codel_core.c:240-290 | Work conservation, however the clock moves between trips: with a quantum other than 0 and 2^31 a packet comes back exactly when the qdisc holds one, and it is the last that the examined flow delivered. If others are still queued, no drop is unreported and the parent counts exactly those and the packet; otherwise the parent is what it was |
| `FqCalls.DequeueReturns` | compat/sch_fq_codel_core.c:248-289 | fq_codel_dequeue returns from every valid state, however the clock moves between trips, iff the quantum is neither 0 nor 2^31 |
| `FqCalls.FirstPacketStuck` | compat/sch_fq_codel_core.c:255-261 | With such a quantum a fresh qdisc never gives back the first packet it gets, however the clock moves |
| `FqCalls.TrimKeeps` | compat/sch_fq_codel_core.c:357-365 | The loop of fq_codel_change, each dequeue of which reads the clock anew, terminates with qlen <= limit and keeps invariant and books, when dequeues return |
| `FqCalls.ChangeKeeps` | compat/sch_fq_codel_core.c:329-371 | Changing parameters at any time, to any quantum with which dequeues return, keeps the invariant and reports its drops |
| `FqExact.ChangeExact` | compat/sch_fq_codel_core.c:331-367 | The parameters and the limit are those given, the quantum at least 256, no drop stays unreported, and within the limit no queue, list or clock changes |
| `FqCalls.ApplyKeeps` | compat/sch_fq_codel_core.c:173-371 | Every call keeps what is claimed of every reachable state |
| `FqCalls.InitSound` | compat/sch_fq_codel_core.c:405-445 | A fresh qdisc satisfies it |
| `FqExact.InitExact` | compat/sch_fq_codel_core.c:405-445 | Its flows are empty with all CoDel variables zero, nothing is listed or counted, and the largest packet is 256 bytes |
| `FqCalls.RunSound` | compat/sch_fq_codel_core.c:173-371 | So does every run of calls |
| `FqTheorems.Conservation` | compat/sch_fq_codel_core.c:173-371 | After any run of calls: qlen and backlog are the sums over the queues, qlen <= limit, the parent's count is qlen plus unreported drops, and each flow's arrivals are what left it, in order, followed by its queue |
| `FqTheorems.DeliveryInOrder` | compat/sch_fq_codel_core.c:131-141 | What a flow delivers for good, packets freed by fq_codel_change left out, is a subsequence of what came into it |
| `FqTheorems.PacketFates` | compat/sch_fq_codel_core.c:131-371 | After any run of calls each packet that came into a flow is exactly one of delivered for good, lost (dropped by CoDel, evicted, freed by a smaller limit) and still queued |
| `FqExact.DequeueCallHands` | compat/sch_fq_codel_core.c:240-290 | A dequeue hands out for good exactly the packet it returns, from one flow |
| `FqExact.ChangeHands` | compat/sch_fq_codel_core.c:357-367 | A reconfiguration hands out nothing: what it dequeues counts as lost |
| `CodelProofs.LeftIsSplit` | compat/sch_fq_codel_core.c:357-365 | In every history in which only the packet just delivered is freed, what left the queue is what was delivered for good and what was lost |
| `FqTheorems.DropsAreJustified` | include/net/codel.h:247-262 | Drop safety for every flow in every run of calls |
| `FqTheorems.RootNeverOvershoots` | include/net/codel.h:193-215 | In every reachable state count r^2 <= 2^32, every gap d satisfies d^2 count <= interval^2, and the next machine step is the ideal one, for a further drop as for entering the dropping state near the old rate |
| `FqTheorems.ZeroRootExactly` | include/net/codel.h:299-357 | In a reachable state a further drop leaves a zero root iff it was zero; entering the dropping state does iff it was zero and the wrapped comparison with drop_next + 16 intervals succeeds; a gap is zero iff interval times root is below 2^16 |
| `FqWitness.ZeroRootReached` | include/net/codel.h:338-357 | Five arrivals and two dequeues on a fresh fq_codel qdisc lead to the dropping state with root zero and the next drop due at once |
| `FqTheorems.ReachableCredit` | compat/sch_fq_codel_core.c:195-201 | With a fixed quantum below 2^31 and packets up to maxlen, every reachable state meets the premises of the results below on starvation, service and fairness, whatever else is reconfigured |
| `FqRuns.NoStarvation` | compat/sch_fq_codel_core.c:248-279 | From the moment a flow is on old_flows, whatever is enqueued or reconfigured meanwhile except the quantum, at most 2 quantum (flows_cnt - 1) packets are sent before it is examined, and no flow overtakes it |
| `FqService.ServiceBound` | compat/sch_fq_codel_core.c:248-281 | Past every examination that only refills: with a quantum below 2^31 and packets up to maxlen, at most 2 quantum (flows_cnt - 1) (w + 1) packets are sent before the flow sends one or is found empty, w being the least number of refills that makes its deficit positive |
| `FqRuns.TripSpends` | compat/sch_fq_codel_core.c:248-289 | A trip that does not examine the flow uses up what the other flows may still send before it |
| `FqRuns.PutSpends` | compat/sch_fq_codel_core.c:195-201 | An enqueue, even one that lists a new flow with a full quantum, does not raise that amount |
| `FqFair.RunCredit` | compat/sch_fq_codel_core.c:255-261 | 1 - maxlen <= deficit <= quantum for every listed flow, over every run with a quantum below 2^31 |
| `FqFair.BytesArePaid` | compat/sch_fq_codel_core.c:257-281 | Over any run in which a flow stays on old_flows, the bytes it sends (freed ones included) are its refills times the quantum plus what its deficit went down by |
| `FqFair.RefillsInTurn` | compat/sch_fq_codel_core.c:255-261 | Over any run in which two flows stay on old_flows, their refills differ by at most one |
| `FqFair.ByteFairness` | compat/sch_fq_codel_core.c:255-281 | They send amounts that differ by at most 3 quantum + 2 (maxlen - 1) bytes, over any run |
| `FqFair.CallsAreSteps` | compat/sch_fq_codel_core.c:173-371 | Every run of calls, reconfigurations of all but the quantum included and the clock moving between trips, is a run of the steps that the last results speak about |
| `FqSched.FqCodelQdisc.FindFattest` | compat/sch_fq_codel_core.c:155-160 | The loop over the flow table in place |
| `FqSched.FqCodelQdisc.Drop` | compat/sch_fq_codel_core.c:143-171 | fq_codel_drop in place: the fattest flow loses its head, all counters follow |
| `FqSched.FqCodelQdisc.Enqueue` | compat/sch_fq_codel_core.c:173-219 | fq_codel_enqueue in place has result and new state of FqCodel.Enqueue |
| `FqSched.FqCodelQdisc.Trip1` | compat/sch_fq_codel_core.c:248-289 | One trip in place |
| `FqSched.FqCodelQdisc.Dequeue` | compat/sch_fq_codel_core.c:240-290 | The goto loop as a while loop, the clock being read in each trip, terminates and has result and new state of FqCalls.Dequeue |
| `FqSched.FqCodelQdisc.Change` | compat/sch_fq_codel_core.c:329-371 | fq_codel_change in place, trimming loop included |
| `FqSched.FqCodelQdisc.constructor` | compat/sch_fq_codel_core.c:405-445 | A fresh qdisc in place is FqCalls.Init |
| `CodelQdisc.EnqueueKeeps` | compat/sch_codel.c:97-113 | A packet is accepted exactly below the limit, as the last one; a refused one is counted and changes nothing else |
| `CodelQdisc.DequeueKeeps` | compat/sch_codel.c:78-95 | A packet comes back exactly when one is queued; with others still queued all drops are reported and the parent counts exactly those, otherwise none are |
| `CodelQdisc.TrimKeeps` | compat/sch_codel.c:162-170 | The loop drops from the head exactly what does not fit the new limit |
| `CodelQdisc.ChangeKeeps` | compat/sch_codel.c:136-175 | Reconfiguring keeps the newest packets up to the limit, counts the others as drops and reports exactly them; the CoDel variables stay |
| `CodelQdisc.RunSound` | compat/sch_codel.c:78-175 | Every run of calls keeps counters, limit and books |
| `CodelQdisc.Conservation` | compat/sch_codel.c:78-175 | After any run: arrivals are what left, in order, then the queue; qlen, backlog and the parent's count are exact |
| `CodelQdisc.DropsAreJustified` | include/net/codel.h:247-262 | Drop safety in every run of the single queue |
| `CodelQdisc.CodelSched.DequeuePacket` | compat/sch_codel.c:78-95 | codel_qdisc_dequeue in place |
| `CodelQdisc.CodelSched.EnqueuePacket` | compat/sch_codel.c:97-113 | codel_qdisc_enqueue in place |
| `CodelQdisc.CodelSched.ChangeConfig` | compat/sch_codel.c:136-175 | codel_change in place |
| `Kfifo.Fifo.Init` | compat/kfifo.c:81-101 | The capacity is the largest power of two that the buffer holds; below two elements the fifo is refused |
| `Kfifo.SlotAdvance` | compat/kfifo.c:111-119 | Because the size divides 2^32, wrapping an index does not disturb the slot it addresses |
| `Kfifo.UsedAdvance` | compat/kfifo.c:33-36 | The difference of the free-running indices counts the used elements across the wrap |
| `Kfifo.RingPut` | compat/kfifo.c:117-120 | Writing behind the used part, split or not, appends to the ring |
| `Kfifo.RingDrop` | compat/kfifo.c:181-187 | Moving the read position drops a prefix |
| `Kfifo.Fifo.CopyIn` | compat/kfifo.c:104-126 | The two memcpy put the source into the ring at the slot of any index, and touch nothing else |
| `Kfifo.Fifo.CopyOut` | compat/kfifo.c:143-165 | The two memcpy fetch the bytes from the slot of any index |
| `Kfifo.Fifo.In` | compat/kfifo.c:128-140 | Appends exactly the prefix that fits, for any values of the indices |
| `Kfifo.Fifo.OutPeek` | compat/kfifo.c:167-178 | Returns the clamped prefix and changes nothing |
| `Kfifo.Fifo.Out` | compat/kfifo.c:181-187 | Removes exactly that prefix |
| `Kfifo.Fifo.ResetOut` | include/linux/kfifo.h:322-326 | Empties the fifo without moving the write index |
| `Kfifo.LengthFieldExact` | compat/kfifo.c:397-404 | The length field tells the length back iff the length is at most 256^recsize - 1 |
| `Kfifo.HeaderBytes` | compat/kfifo.c:435-444 | The length field holds the lowest eight bits first |
| `Kfifo.EncodeInjective` | compat/kfifo.c:412-463 | The bytes of a queue of records parse in one way only |
| `Kfifo.AvailExact` | include/linux/kfifo.h:362-371 | kfifo_avail admits exactly the records that fit and whose length can be told back |
| `Kfifo.Fifo.InR` | compat/kfifo.c:452-463 | A record goes in whole, behind its length field, or not at all, also across the wrap; it extends the queue of records iff its length fits the field |
| `Kfifo.ReadsBack` | compat/kfifo.c:412-476 | A stored record is read back iff its length is at most 256^recsize - 1 |
| `KfifoRecords.RecordsAreQueued` | compat/kfifo.c:452-510 | Over every run of in_r, out_r and skip_r with such records, the records taken out are the first ones put in, each whole, and the bytes left are those of the others |
| `KfifoRecords.Serve` | compat/kfifo.c:452-510 | Any sequence of these calls on the object does and hands over what that run does |
| `KfifoRecords.TooLongIsLost` | compat/kfifo.c:452-463 | A record put into an empty fifo comes back whole and alone iff its length fits the field |
| `Kfifo.Fifo.Peek` | compat/kfifo.c:412-424 | Reads the length field of the first record, wherever it straddles the end |
| `Kfifo.Fifo.OutR` | compat/kfifo.c:490-501 | Hands over the first record, cut to the caller's buffer, and removes it whole |
| `Kfifo.Fifo.SkipR` | compat/kfifo.c:504-510 | Removes the first record; the fill level stays possible iff there was one |
| `KfifoRuns.SingleProducerSingleConsumer` | include/linux/kfifo.h:47-55 | In every interleaving what was consumed is a prefix of what was produced, the indices tell the fill level, and every unread element is in its cell |
| `KfifoSpsc.WriterNeverOverwrites` | compat/kfifo.c:128-140 | No copy of the writer touches a cell that holds an unread element |
| `KfifoSpsc.ReaderSeesPublished` | compat/kfifo.c:167-187 | Every cell the reader copies holds the published element of its position |
| `KfifoRuns.StepKeeps` | compat/kfifo.c:104-188 | Each single step of either side keeps the invariant |
| `KfifoRuns.WriterStarts` | compat/kfifo.c:33-36 | Whatever the indices, the writer takes as much of what it wants as there is room for |
| `KfifoRuns.ReaderStarts` | compat/kfifo.c:167-178 | The reader takes as many of the elements it asks for as there are |
| `KfifoRuns.WriterFinishes` | compat/kfifo.c:128-140 | From every reachable state a writer's call in progress can finish by its own steps, and publishes all it took |
| `KfifoRuns.ReaderFinishes` | compat/kfifo.c:180-187 | A reader's call can finish by its own steps, and takes exactly the next published elements |
| `KfifoRuns.SkipOutKeeps` | include/linux/kfifo.h:314-326 | kfifo_reset_out in the reader thread is safe while the writer goes on |
| `KfifoRuns.FreshInv` | compat/kfifo.c:89-98 | An empty fifo with both indices at any common value satisfies it |
| `KfifoRuns.StreamsGrow` | compat/kfifo.c:128-187 | What was produced or consumed once stays so |
| `KfifoSpsc.FillLevel` | compat/kfifo.c:33-36 | The 32-bit difference of the indices is the true number of unread elements |
| `TimeConv.MathDivFloors` | compat/compat-2.6.32.c:129-133 | math_div rounds down for negative dividends as well, unlike the division it is built from |
| `TimeConv.LeapRule` | compat/compat-2.6.32.c:124-127 | The C remainder tests are the Gregorian rule also for negative years |
| `TimeConv.YearsAddUp` | compat/compat-2.6.32.c:135-143 | Consecutive years in the closed form of leaps_between are 365 or 366 days apart as the calendar says |
| `TimeConv.GuessConverges` | compat/compat-2.6.32.c:193-200 | From any wrong year the guess comes closer, or stays as far once and then is right: the loop terminates in both directions |
| `TimeConv.TableIsSums` | compat/compat-2.6.32.c:145-151 | The table of days before each month sums the month lengths |
| `TimeConv.Normalise` | compat/compat-2.6.32.c:169-179 | Seconds of the day come into range, whole days absorb the rest, for negative totals too |
| `TimeConv.FindYear` | compat/compat-2.6.32.c:191-204 | The year loop ends in the year that contains the day, with the day of that year |
| `TimeConv.FindMonth` | compat/compat-2.6.32.c:206-212 | The month loop ends in the month that contains the day |
| `TimeConv.TimeToTm` | compat/compat-2.6.32.c:164-213 | All fields are in range, weekday and day of year fit the date, and the fields denote exactly totalsecs + offset |
| `TimeConv.Epoch` | compat/compat-2.6.32.c:189-190 | Zero seconds are the first instant of 1970, a Thursday |
| `TimeConv.FieldsAreDetermined` | compat/compat-2.6.32.c:156-163 | Only one set of valid fields denotes an instant, so the result is the only right one |
| `SgTable.ChunksHoldAll` | compat/compat-2.6.25.c:128-139 | The chunks, links left out, offer exactly nents entries; all but the last are full |
| `SgTable.FailureSizes` | compat/compat-2.6.25.c:142-153 | With the count adjusted after a failure, freeing computes full chunks only |
| `SgTable.Table.Alloc` | compat/compat-2.6.25.c:114-177 | Whenever the allocator fails: which chunks exist with which sizes, how they are linked, and what orig_nents says; on success exactly the last entry is an end |
| `SgTable.Table.Free` | compat/compat-2.6.25.c:47-81 | Frees each chunk of such a table once, with its size |
| `SgTable.AllocThenFree` | compat/compat-2.6.25.c:109-112 | Allocation stopped at any point, then freeing: each chunk allocated is freed once with the size it was allocated with |
| `SgTable.Walk` | compat/compat-2.6.25.c:128-174 | Following the entries of a successful table from the first meets exactly nents of them before the end |
| `SgPages.CountChunks` | compat/compat-3.6.c:83-87 | The first loop counts the places where a run ends |
| `SgPages.CountMatchesBuild` | compat/compat-3.6.c:83-110 | That is the number of entries the second loop fills |
| `SgPages.FromPages` | compat/compat-3.6.c:72-113 | The nested loops store one entry per maximal run, with the shift in unsigned int and a wrapping size |
| `SgPages.LengthsAddUp` | compat/compat-3.6.c:105-109 | For every size and runs shorter than 2^20 pages, whether the entry lengths add up to more than it, to it, or to the room in the pages |
| `SgPages.LengthsExact` | compat/compat-3.6.c:105-109 | They add up to the size iff it reaches the last run and does not exceed the pages |
| `SgPages.PagesRoundTrip` | compat/compat-3.6.c:93-110 | For every array of up to 2^32 - 1 pages and every size the entries cover exactly the given pages iff the data fills them all or ends strictly inside a page that is the last of its run, and every run has fewer than 2^20 pages |
| `SgPages.BytesInPlace` | compat/compat-3.6.c:93-110 | For every size, byte b of the buffer that the table describes has the physical address offset + b bytes into the page array, in page and offset |
| `SgPages.LongRunIsLost` | compat/compat-3.6.c:99-109 | 2^20 consecutive pages filled completely give an entry of length 0, so that no page comes back |
| `SgPages.PageIter.Next` | compat/compat-3.9.c:34-51 | Yields the pages of the entries one by one and stops after the last |
| `SgPages.Collect` | compat/compat-3.9.c:16-51 | Iterating yields all pages of a table in order |
| `SgPages.BuildThenIterate` | compat/compat-3.9.c:16-51 | Building a table from pages and iterating over it gives the same pages, and the lengths sum to the size |
| `Crc8.PopulateMsb` | compat/crc8.c:30-43 | The doubling loops fill the table with the results of eight bit-serial steps, for every polynomial |
| `Crc8.PopulateLsb` | compat/crc8.c:52-64 | The same for the other bit order |
| `Crc8.Crc8` | compat/crc8.c:75-82 | The buffer loop computes the fold of table steps |
| `Crc8.CrcConcat` | include/linux/crc8.h:88-90 | The result of one block is the start value of the next |
| `Crc8.GoodValue` | include/linux/crc8.h:24-30 | A message followed by its complemented CRC yields table[0xFF], for every table and start value |
| `Crc8.CrcLinear` | compat/crc8.c:75-82 | The CRC is linear over exclusive or of messages and start values |
| `Crc8.CrcDivides` | include/linux/crc8.h:58-73 | Message times x^8 is a multiple of x^8 + poly plus the CRC, over the two-element field |
| `Crc8.CrcIsTheRemainder` | include/linux/crc8.h:58-73 | The CRC is the only such remainder |
| `Crc8.CrcMirror` | include/linux/crc8.h:39-56 | The table in the other bit order computes the same CRC with all bytes and the polynomial reversed |
| `DevAddr.AddrList.Add` | compat/compat-2.6.32.c:14-44 | The search loop adds a reference to the matching entry or puts a new entry in front, or fails without memory |
| `DevAddr.AddrList.Delete` | compat/compat-2.6.32.c:46-70 | The search loop gives a reference back, and removes the entry with its last one |
| `DevAddr.AddCounts` | compat/compat-2.6.32.c:14-44 | Unique addresses and positive counts stay; exactly one reference is taken, none when a global add is repeated |
| `DevAddr.DeleteCounts` | compat/compat-2.6.32.c:46-70 | Exactly one reference is given back; -ENOENT iff there is none to give |
| `DevExact.AddOrder` | compat/compat-2.6.32.c:14-44 | A new address comes first; otherwise the order stays |
| `DevExact.DeleteOrder` | compat/compat-2.6.32.c:46-70 | An address leaves with its last reference, and the others keep their order |
| `DevAddr.AddThenDelete` | compat/compat-2.6.32.c:14-70 | A plain add undone by a delete restores the list, order included |
| `DevSync.Sync` | compat/compat-2.6.32.c:72-98 | The walk with its saved next pointer: which entries were visited before an allocation failed, and what both lists are then |
| `DevSync.Unsync` | compat/compat-2.6.32.c:101-117 | The same for the reverse walk |
| `DevExact.SyncExact` | compat/compat-2.6.32.c:72-98 | What syncing does to every address of both lists: marks and references of the visited ones, stale ones gone, all others untouched |
| `DevExact.StopAt` | compat/compat-2.6.32.c:84-87 | It stops at the first entry that is unsynced, absent from the destination and without memory |
| `DevExact.UnsyncExact` | compat/compat-2.6.32.c:101-117 | What unsyncing does to every address of both lists |
| `DevRuns.RoundTrip` | compat/compat-2.6.32.c:72-118 | From a source without synced entries, unsync after sync restores both lists exactly, also after a failed allocation |
| `DevRuns.BooksBalance` | compat/compat-2.6.32.c:14-118 | Over every run of adds, deletes, syncs and unsyncs: each reference belongs to a user, to the global flag or to synchronising; addresses stay unique and counts positive |
| `DevRuns.SyncReaches` | compat/compat-2.6.32.c:72-98 | After any run, an error-free sync leaves every remaining source entry synced and present in the destination |
| `DevRuns.UnsyncLeavesNothing` | compat/compat-2.6.32.c:101-117 | After any run, unsync leaves each list with exactly its users' references |
| `Kstrtox.OverflowTestExact` | compat/kstrtox.c:70-72 | The test before acc * base + val is true exactly when that exceeds ULLONG_MAX |
| `Kstrtox.ParseUll` | compat/kstrtox.c:34-81 | The loop has the outcome of Parse, never reads past the terminator, and leaves *res alone on error |
| `Kstrtox.MagnitudeExact` | compat/kstrtox.c:34-81 | What counts as a numeral: one or more digits of the base, then nothing or one newline at the end |
| `Kstrtox.AcceptsExactly` | compat/kstrtox.c:34-81 | _kstrtoull accepts s with value v < 2^64 iff s is one or more digits of the base denoting v, then nothing or one newline, behind "0x" or "0X" (optional in base 16); for base 0 the base is 16 with that prefix, else 8 with a leading zero, else 10 |
| `Kstrtox.RangeErrorExactly` | compat/kstrtox.c:68-71 | -ERANGE iff, so read, some of the leading digits already denote 2^64 or more, whatever follows |
| `Kstrtox.Kstrtoull` | compat/kstrtox.c:83-88 | One plus sign may precede; accepts exactly 0 to 2^64 - 1 |
| `Kstrtox.Kstrtoll` | compat/kstrtox.c:91-112 | The casts and the unsigned negation have the outcome of SignedOutcome |
| `Kstrtox.SignedExactly` | compat/kstrtox.c:91-112 | kstrtoll accepts s with value v iff s denotes v, v fits 64 signed bits, and s is not zero behind a minus sign |
| `Kstrtox.SignsExact` | compat/kstrtox.c:83-96 | A plus sign changes nothing, a minus sign negates |
| `Kstrtox.SignsOnce` | compat/kstrtox.c:83-96 | A second sign is never accepted |
| `Kstrtox.MinusZeroRefused` | compat/kstrtox.c:96-101 | "-0" denotes 0 and is a range error |
| `Kstrtox.NarrowUnsigned` | compat/kstrtox.c:116-219 | Each unsigned wrapper accepts exactly its type's range |
| `Kstrtox.NarrowSigned` | compat/kstrtox.c:132-235 | Each signed wrapper accepts exactly its type's range, save zero behind a minus sign |
| `Kstrtox.PrintThenParse` | compat/kstrtox.c:34-81 | Every number below 2^64 printed in any base from 2 to 16 is read back, with or without a newline |
| `Kstrtox.PrefixThenParse` | compat/kstrtox.c:39-49 | The same behind "0x" or "0X", with base 16 or with base 0 |
| `Kstrtox.OctalPrefix` | compat/kstrtox.c:39-47 | Behind "0", with base 0, it is read in base 8 |
| `Kstrtox.NoPrefix` | compat/kstrtox.c:39-47 | Without a leading zero, with base 0, in base 10 |
| `Kstrtox.HexPrefix` | compat/kstrtox.c:48-49 | Hexadecimal digits of either case behind the prefix are read as such with base 0 or 16; with every other base the string is invalid |
| `PmQos.QosObject.UpdateTarget` | compat/pm_qos_params.c:155-180 | The loop leaves the aggregate of default and list in target_value, and notifies iff that is a change |
| `PmQos.AggregateUnique` | compat/pm_qos_params.c:144-180 | The aggregate does not depend on the order of the list |
| `PmQos.QosObject.Add` | compat/pm_qos_params.c:226-252 | The new requirement is on the list, holding the default value if -1 was asked and the value asked otherwise, and the target is the aggregate; nothing changes without memory. It is the step of the same name of the interleaved model |
| `PmQos.QosObject.Update` | compat/pm_qos_params.c:267-291 | The first requirement of that name changes, if any, with the same rule for -1; the step of the same name |
| `PmQos.QosObject.Remove` | compat/pm_qos_params.c:302-322 | The first requirement of that name goes, if any; the step of the same name |
| `PmQos.TargetIsAggregate` | compat/pm_qos_params.c:155-322 | In every interleaving, whenever no thread is between its list change and its update, the target is the aggregate of all live requirements |
| `PmQos.CallsFinish` | compat/pm_qos_params.c:155-180 | From every reachable state the calls in progress can finish, with the target the aggregate and all news told |
| `PmQos.EveryChangeTold` | compat/pm_qos_params.c:166-179 | Once no notification is outstanding, every change of the target was told exactly once |
| `PmQos.WatchersEndWithTarget` | compat/pm_qos_params.c:155-180 | In every reachable state without a pending update: however the outstanding news are told, the watchers end up with the target, iff all of them are the target, or there are none and the target was heard last |
| `PmQos.OrderedTelling` | compat/pm_qos_params.c:173-179 | Over every run the watchers hear the changes in order iff each notification tells, in its turn, the first change not told yet |
| `PmQos.OldestFirst` | compat/pm_qos_params.c:173-179 | If the oldest news is always told first, the watchers hear the changes in order |
| `PmQos.LastNewsCanBeOld` | compat/pm_qos_params.c:173-179 | A run that ends with target 7 and watchers told 7, then 5 |
| `I2cBus.Bus.Start` | compat/compat-3.4.c:112-118 | From an idle bus the lines spell one start |
| `I2cBus.Bus.RepStart` | compat/compat-3.4.c:120-128 | Within a transfer the lines spell one more start and nothing else |
| `I2cBus.Bus.Stop` | compat/compat-3.4.c:131-138 | The lines spell a stop and end idle |
| `I2cBus.Bus.OutB` | compat/compat-3.4.c:140-181 | SDA sampled at SCL high spells the byte, most significant bit first, then the answer; SDA does not change while SCL is high |
| `I2cBus.Bus.InB` | compat/compat-3.4.c:184-204 | The byte returned is the one the other side spells |
| `I2cBus.Bus.AckNak` | compat/compat-3.4.c:332-346 | A byte read is answered by a low or high bit |
| `I2cWire.NumberOfLow` | compat/compat-3.4.c:147-169 | The sampled bits determine the byte |
| `I2cExact.BitsExact` | compat/compat-3.4.c:147-160 | A byte goes out highest bit first, a set bit as a high level |
| `I2cExact.ByteExact` | compat/compat-3.4.c:184-204 | A byte read has the levels of eight pulses as its bits, highest first |
| `I2cWire.DecodeEncode` | compat/compat-3.4.c:112-204 | The symbols on the wire determine every start, stop, byte and answer |
| `I2cXfer.TryAddress` | compat/compat-3.4.c:210-233 | The retry loop talks as TryTalk says |
| `I2cTheorems.TryOrder` | compat/compat-3.4.c:210-233 | The address goes out at most retries + 1 times, each time after stop and start, and the result is 1 iff one of the tries is acknowledged |
| `I2cXfer.DoAddress` | compat/compat-3.4.c:235-289 | Seven-bit and ten-bit addressing, direction and error codes |
| `I2cExact.SevenBitExact` | compat/compat-3.4.c:277-286 | The byte sent has the address in its upper seven bits and its lowest bit set iff the message reads, or iff it writes if the direction is reversed; it is repeated, each time after stop and start, until acknowledged or the tries run out; the result is 0 iff acknowledged or refusals are ignored, else -ENXIO |
| `I2cExact.TenBitExact` | compat/compat-3.4.c:249-276 | 11110, the two high address bits and 0, then the low byte; to read, a new start and the head again with bit 0 set; with each refusal's place and error code |
| `I2cXfer.SendBytes` | compat/compat-3.4.c:291-330 | Writes the buffer until it is done or refused |
| `I2cTheorems.SendFrames` | compat/compat-3.4.c:291-330 | The bytes go out in order, and all of them unless there is an error |
| `I2cExact.SendExact` | compat/compat-3.4.c:291-330 | Byte i of the data is frame i; it stops only behind a refused byte, with -EIO, if refusals are not ignored |
| `I2cXfer.ReadBytes` | compat/compat-3.4.c:348-398 | Fills the buffer with the bytes read, as many as the length and a block length from the device together; msg->len is that number stored in 16 bits |
| `I2cTheorems.ReadLength` | compat/compat-3.4.c:381-382 | After a read without an error msg->len is the number of bytes read iff that number is below 2^16 |
| `I2cTheorems.ReadFramesAre` | compat/compat-3.4.c:348-398 | Every byte read but the last is acknowledged, and the buffer holds them in order |
| `I2cExact.ReadExact` | compat/compat-3.4.c:348-398 | How many bytes are read, what is answered, and what buffer and length are then; a block length of 0 or above 32 stops it at once with -EPROTO |
| `I2cXfer.Xfer` | compat/compat-3.4.c:409-475 | A transfer is one start, the talk of its messages, one stop; buffers, lengths and result are those of the talk |
| `I2cExact.MsgExact` | compat/compat-3.4.c:425-458 | A message is a repeated start and its address, unless it goes without or is the first, and then its data if the address was answered |
| `I2cExact.SessionExact` | compat/compat-3.4.c:409-475 | A transfer is a start, the messages in order up to the first that fails, each beginning where the one before ended, and a stop; the result is that message's error or the number of messages; only messages reached change |
| `I2cTheorems.SessionInOrder` | compat/compat-3.4.c:409-475 | Whatever the devices answer: the transfer starts with a start and ends with a stop, each earlier stop is followed by a start, and unless refusals are ignored only a stop follows a refused byte |
| `I2cTheorems.SessionReadable` | compat/compat-3.4.c:409-475 | If reads are answered, an observer of the wire recovers the whole transfer |
| `I2cTheorems.XferResult` | compat/compat-3.4.c:460-475 | The result is the number of messages or an error |

## Left out

- Netlink parsing, dump and statistics, module setup, locks, timers and memory barriers: a lock is an atomic step, a barrier is program order.
- Flow dissection, hashing and external classifiers: any hash and any outcome, see `FqCodel.ClassInRange`.
- Widths of qlen, backlog and drop counters: unbounded here, so a total backlog of 2^32 bytes or more is not modelled. Packets have at least one byte; starvation and fairness are stated for packets up to 2^31 bytes.
- FqSched.FqCodelQdisc.Change: does not take a quantum of 2^31 (nor the constructor 0 or 2^31), after which a dequeue need not return; single trips with such a quantum are covered by `FqProofs.PassKeeps`.
- FqFair.ByteFairness: does not cover a quantum of 2^31 or more, with which deficits wrap.
- `fq_codel_reset` and `codel_reset`, which only repeat dequeues or forget the queue.
- `__kfifo_alloc`, which sets the same fields as `__kfifo_init` on memory of its own; the one-element macros, the user-space and scatterlist copies of kfifo, which repeat the plain copies.
- Kfifo.Fifo.InR: `len + recsize` is a sum of 64-bit `size_t`; where `size_t` has 32 bits it wraps for a length near 2^32 and the room test passes.
- Kfifo.Fifo.Init: does not cover a buffer of less than one element, for which `rounddown_pow_of_two` is undefined.
- Architectures without chained scatterlists, where a table of more than one chunk is refused before it is set up; zero entries, for which chunk sizes are not defined.
- SgPages.LengthsAddUp: does not cover runs of 2^20 pages or more, whose byte count wraps; `SgPages.PagesRoundTrip` says what becomes of their pages.
- SgPages.LengthsExact: the same.
- SgPages.BuildThenIterate: takes arrays that round-trip only; `SgPages.PagesRoundTrip` says which those are.
- An offset beyond the first page of a page array, which the description of `sg_alloc_table_from_pages` does not foresee.
- TimeConv.TimeToTm: does not model a 32-bit or overflowing `long`; the year is unbounded.
- The older `dev_mc_sync` of compat/compat-2.6.23.c, whose search always stops at the first entry; the user-space checks around the device address lists.
- I2C clock stretching beyond the timeout, arbitration, delays, and the hooks `pre_xfer` and `post_xfer`; a message's buffer is a value of its own, so messages that share a buffer are not modelled, and `retries` is not negative.
- Power-management device nodes, notifier registration and the choice among the classes; names are compared as strings.
- The compatibility headers, drivers' glue, firmware loading, cordic, hdmi and identifier allocators of the repository: wrappers over kernel functions not shown, or small.
