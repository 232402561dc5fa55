# OS/161 kernel and library: verified models

Dafny models of the parts of an OS/161 kernel, and of the C library it shares with user programs, where most
of the reasoning is. Each model follows the C code's own statements and proves what the code is for.

* **64-bit arithmetic on 32-bit words.** `AlgorithmD`, `QDivRem` (Knuth's Algorithm D), `MulDi3` (the
  three-product multiplication), over `Digits` and `LongLong`. Digits are naturals below a base; the base and
  the digit counts are parameters, and the entry points use base 2^h and four digits, h = 16 in the kernel.
* **Kernel heap.** `Kmalloc` (the allocator as a class), over `HeapState` (the state and its invariant),
  `HeapSteps` (what each locked section does) and `Geometry` (pages and blocks); `HeapBlocks` (what the
  owner of a block sees), `HeapPages` (what becomes of pages). Page memory is a map from addresses to words;
  pages come from `alloc_kpages` as fresh, disjoint parameters.
* **Threads.** `ThreadList` (the bookended lists), `Semaphore` (P and V, statement by statement), `Threads`
  (the thread system as a step system), `Migration`, `Interrupts` (levels, spinlocks and traps). Any number
  of threads and CPUs. `SemaphoreRuns`, `ThreadRuns` and `InterruptRuns` follow one caller or thread through
  whole runs: what it counts, where it waits, which level it comes back to.
* **Paging.** `Clock` (the two-handed clock), `PageTable` (the state), `Paging` (faults, swapping, and the
  user's view). The physical address of the first frame is a parameter: in addrspace.c the global
  `physical_base_addr` is never set, because line 235 declares a local of the same name.
* **printf and atoi.** `Format` (what is printed), `FormatMeaning` (what formats, modifiers and digits
  mean, in plain terms), `Printf` (the engine and snprintf), `Atoi` (the parser and the round trip). Arguments
  are a function from positions to values.
* **Disk driver.** `Disk` (the semaphore protocol of lhd.c).

A run is a sequence of steps from the boot state. Where the code takes a lock, a step is the locked section or
one round of a loop inside it; where that would hide something, it is a statement. Interference by other CPUs,
the contents of raw memory, interrupts, reference bits and copy errors are parameters or free steps, so each
theorem is about all of them.

Three places where a promise and the code differ, each with the exact condition proved:

* `%d` with left alignment, zero fill and room to fill prints zeros after the number, so `atoi` reads back
  another int unless it is 0 (`Atoi.FieldRoundTrip`, `Atoi.LeftZeroFill`).
* `__divdi3` of the most negative number by -1 gives that number back (`QDivRem.DivDi3`).
* `lhd_io` computes sector numbers in 32 bits, so its range test accepts a request before the disk or far past
  it whose end wraps onto the disk (`Disk.AdmittedIsOnDisk`, `Disk.WrapsAround`, `Disk.WrapsBelow`).

`dafny verify dfyconfig.toml` checks everything.

## Model

| member | source | states |
|---|---|---|
| `AlgorithmD.Shl` | src/common/gcc-millicode/qdivrem.c:270-279 | the digits shifted in place stand for the old number times 2^sh, when nothing falls out; no other digit changes |
| `AlgorithmD.ShiftAllVal` | src/common/gcc-millicode/qdivrem.c:270-279 | shifting any digit string left multiplies its value, less exactly what the first digit loses |
| `AlgorithmD.EstimateDigit` | src/common/gcc-millicode/qdivrem.c:193-210 | the guess is the largest digit that the three leading dividend digits and two leading divisor digits allow, found with at most two corrections |
| `AlgorithmD.CorrectDigit` | src/common/gcc-millicode/qdivrem.c:205-210 | the same of the correction loop, entered at its test or in its middle (the goto), with every product below a word |
| `AlgorithmD.EstimateOffByOne` | src/common/gcc-millicode/qdivrem.c:196-210 | Knuth's theorem: against numbers of any length the guess is the true quotient digit or one more |
| `AlgorithmD.GuessOffByOne` | src/common/gcc-millicode/qdivrem.c:186-210 | the same for digit strings of any length, in any base |
| `AlgorithmD.DiffVal` | src/common/gcc-millicode/qdivrem.c:217-223 | digits subtracted with wrapped borrows stand for the difference, modulo a power of the base |
| `AlgorithmD.SubtractDigits` | src/common/gcc-millicode/qdivrem.c:217-221 | the borrow and all digits but the first of the multiply-and-subtract, in place |
| `AlgorithmD.MultiplySubtract` | src/common/gcc-millicode/qdivrem.c:217-230 | u[j..j+n] becomes u - qhat*v modulo B^(n+1), and the high half of the last difference is nonzero exactly when it borrowed |
| `AlgorithmD.FinalBorrow` | src/common/gcc-millicode/qdivrem.c:222-230 | the last word subtraction sets its high half exactly on a borrow, and the borrow is one |
| `AlgorithmD.ResolveBorrow` | src/common/gcc-millicode/qdivrem.c:224-231 | the borrow is out exactly when the guess was one too large, and then one add-back gives the true remainder |
| `AlgorithmD.AddBack` | src/common/gcc-millicode/qdivrem.c:232-237 | u[j..j+n] becomes u + v modulo B^(n+1), in place |
| `AlgorithmD.DivideDigit` | src/common/gcc-millicode/qdivrem.c:182-240 | one round: quotient digit and remainder, 0 <= remainder < v; the guess was the digit or one more |
| `AlgorithmD.NextDigit` | src/common/gcc-millicode/qdivrem.c:182-240 | bringing down a digit extends a division of the digits so far |
| `AlgorithmD.DivideNext` | src/common/gcc-millicode/qdivrem.c:182-240 | one round seen from all digits divided so far |
| `AlgorithmD.DivideLoop` | src/common/gcc-millicode/qdivrem.c:176-240 | for any m and n >= 2 and any base: the quotient digits and the remainder of the normalised division |
| `AlgorithmD.ShiftRemainder` | src/common/gcc-millicode/qdivrem.c:247-254 | the remainder in place is divided by 2^d |
| `AlgorithmD.ShiftOutDiv` | src/common/gcc-millicode/qdivrem.c:249-252 | shifting right digit by digit is division by the power of two |
| `QDivRem.SplitVal` | src/common/gcc-millicode/qdivrem.c:112-122 | the four digits of a double word have its value |
| `QDivRem.LoadDigits` | src/common/gcc-millicode/qdivrem.c:112-122 | the digit space holds the number, behind a zero digit |
| `QDivRem.ShortDivide` | src/common/gcc-millicode/qdivrem.c:124-149 | one-digit division, unrolled: u = q*t + r with r < t |
| `QDivRem.SkipZeros` | src/common/gcc-millicode/qdivrem.c:157-158 | leading zeros skipped: the number is unchanged and has m+n digits |
| `QDivRem.ZeroLeading` | src/common/gcc-millicode/qdivrem.c:159-160 | the quotient digits before the first computed one are zero |
| `QDivRem.Normalise` | src/common/gcc-millicode/qdivrem.c:169-171 | the shift brings the leading digit to B/2 or more without overflow |
| `QDivRem.NormaliseBoth` | src/common/gcc-millicode/qdivrem.c:169-175 | dividend and divisor are multiplied by the same power of two |
| `QDivRem.QuotientRemainder` | src/common/gcc-millicode/qdivrem.c:164-258 | quotient and shifted-back remainder of the normalised division are those of the original numbers |
| `QDivRem.LongDivide` | src/common/gcc-millicode/qdivrem.c:152-262 | quotient, and remainder when wanted, for divisors of two to four digits |
| `QDivRem.TakeRemainder` | src/common/gcc-millicode/qdivrem.c:247-258 | the remainder is shifted back and collected |
| `QDivRem.AssembleArray` | src/common/gcc-millicode/qdivrem.c:260-262 | the digits in the array, joined into a double word |
| `QDivRem.QuotRem` | src/common/gcc-millicode/qdivrem.c:67-263 | for every u and v: division by zero is reported; otherwise floor(u/v), and u mod v when wanted |
| `QDivRem.TruncLaw` | src/common/gcc-millicode/divdi3.c:40-43 | the reference division truncates toward zero: (a/b)*b + a%b = a, the remainder smaller than the divisor and with the sign of the dividend (section 6.5.5 of C99) |
| `QDivRem.DivDi3` | src/common/gcc-millicode/divdi3.c:44-62 | the truncated quotient for every a and b != 0 except the most negative number over -1, which gives itself |
| `QDivRem.ModDi3` | src/common/gcc-millicode/moddi3.c:45-62 | the remainder with the sign of the dividend, for every a and b != 0 |
| `MulDi3.ThreeProducts` | src/common/gcc-millicode/muldi3.c:40-96 | the three-product identity of Knuth section 4.3.3 |
| `MulDi3.AddCarry` | src/common/gcc-millicode/muldi3.c:224-235 | a double-word addition whose carry is found by comparing low words is exact modulo the range |
| `MulDi3.SubBorrow` | src/common/gcc-millicode/muldi3.c:219-222 | the same for subtraction and borrow |
| `MulDi3.AddParts` | src/common/gcc-millicode/muldi3.c:214-236 | the products are added at their places modulo the double word |
| `MulDi3.LMulQ` | src/common/gcc-millicode/muldi3.c:183-241 | the exact double-word product of any two words |
| `MulDi3.MultiplyUnsigned` | src/common/gcc-millicode/muldi3.c:124-158 | the product of two double words modulo their range |
| `MulDi3.Multiply` | src/common/gcc-millicode/muldi3.c:99-164 | a*b modulo 2^64, as a signed number, for all signed a and b including the most negative one |
| `Kmalloc.Heap.constructor` | src/kern/vm/kmalloc.c:138-142 | the zero-filled tables satisfy the heap invariant |
| `Kmalloc.Heap.AllocPageRef` | src/kern/vm/kmalloc.c:144-167 | the first descriptor not in use, marked; none exactly when all are in use |
| `Kmalloc.Heap.FreePageRef` | src/kern/vm/kmalloc.c:169-182 | clears the one bit |
| `Kmalloc.Heap.RemoveFrom` | src/kern/vm/kmalloc.c:360-366 | the pointer walk cuts one element out of a singly linked list |
| `Kmalloc.Heap.RemoveLists` | src/kern/vm/kmalloc.c:352-375 | the descriptor is off the list of its size and off the list of all |
| `HeapSteps.TypeFor` | src/kern/vm/kmalloc.c:377-393 | the first block size that is enough |
| `Kmalloc.Heap.BlockTypeOf` | src/kern/vm/kmalloc.c:377-393 | computes it; the panic is reached exactly above the largest size |
| `Kmalloc.Heap.FindPage` | src/kern/vm/kmalloc.c:416-422 | the first page on the list of the size that has a free block, or none has |
| `Kmalloc.Heap.TakeFrom` | src/kern/vm/kmalloc.c:424-449 | the head of the in-page free list is handed out, and the asserts on the way hold |
| `Kmalloc.Heap.SubpageFirst` | src/kern/vm/kmalloc.c:409-451 | the first locked section: a block of the first page that has one, or nothing changed and no page of the type has one |
| `Kmalloc.Heap.ThreadPage` | src/kern/vm/kmalloc.c:480-499 | the free list is threaded through a fresh page, last block first |
| `Kmalloc.Heap.InstallPage` | src/kern/vm/kmalloc.c:480-505 | the descriptor describes the page and heads both lists |
| `Kmalloc.Heap.SubpageSecond` | src/kern/vm/kmalloc.c:469-508 | the second locked section, whatever happened while the lock was dropped: install and take, or give the page back when no descriptor is left |
| `Kmalloc.Heap.FindOwner` | src/kern/vm/kmalloc.c:529-546 | the descriptor whose page holds the pointer, or none |
| `Kmalloc.OwnerIs` | src/kern/vm/kmalloc.c:529-546 | for a live pointer the search finds its own descriptor exactly when it is a subpage block |
| `Kmalloc.Heap.FillDeadbeef` | src/kern/vm/kmalloc.c:40-50 | the block is filled, and nothing else |
| `Kmalloc.Heap.PutBack` | src/kern/vm/kmalloc.c:548-576 | the block heads the free list of its page |
| `Kmalloc.Heap.DropPage` | src/kern/vm/kmalloc.c:577-584 | a page that is all free leaves both lists and its descriptor |
| `Kmalloc.Heap.SubpageKfree` | src/kern/vm/kmalloc.c:511-596 | 0 and the block put back for a subpage block, -1 and nothing changed for a page block; the panic on bad addresses is not reached |
| `Kmalloc.Heap.Kfree` | src/kern/vm/kmalloc.c:621-633 | every live pointer goes back down the path it came from and is live no more; NULL is ignored |
| `Kmalloc.Heap.KmallocPages` | src/kern/vm/kmalloc.c:604-616 | whole pages, rounded up, recorded as one live block |
| `HeapSteps.TakeKeeps` | src/kern/vm/kmalloc.c:424-449 | taking a block keeps the heap invariant |
| `HeapSteps.ReleaseKeeps` | src/kern/vm/kmalloc.c:559-576 | putting a block back keeps it |
| `HeapSteps.InstallKeeps` | src/kern/vm/kmalloc.c:480-505 | installing a page keeps it |
| `HeapSteps.DropKeeps` | src/kern/vm/kmalloc.c:577-584 | dropping a page keeps it |
| `HeapSteps.FlyKeeps` | src/kern/vm/kmalloc.c:462-469 | a page in flight, between the two locked sections, keeps it |
| `HeapSteps.LandKeeps` | src/kern/vm/kmalloc.c:472-478 | a page given back unused keeps it |
| `HeapSteps.TakenFresh` | src/kern/vm/kmalloc.c:424-433 | the block handed out was not live |
| `HeapSteps.StoreKeeps` | src/kern/vm/kmalloc.c:209-278 | a user's store into a live block disturbs no list and no free chain |
| `HeapSteps.ReleaseUntouched` | src/kern/vm/kmalloc.c:559-574 | freeing one block writes to no other live block |
| `HeapSteps.InstallUntouched` | src/kern/vm/kmalloc.c:489-498 | threading a fresh page writes to no live block |
| `HeapBlocks.StepSpares` | src/kern/vm/kmalloc.c:395-633 | whatever section of whatever call runs, and wherever others store, a live block stays live and keeps its size and all its words, unless its owner frees it or stores into it |
| `HeapBlocks.BlockKept` | src/kern/vm/kmalloc.c:395-633 | the same over any run |
| `HeapSteps.LiveGood` | src/kern/vm/kmalloc.c:395-509 | every live block is at least as large as asked for, and aligned to its size |
| `HeapSteps.LiveDisjoint` | src/kern/vm/kmalloc.c:395-633 | any two live blocks are disjoint |
| `Kmalloc.StepKeeps` | src/kern/vm/kmalloc.c:395-633 | every section of every call keeps the invariant: each used descriptor once on the list of all and on the list of its type alone; free chains acyclic, on block boundaries, disjoint from live blocks and of length nfree; no page all free |
| `Kmalloc.EveryRun` | src/kern/vm/kmalloc.c:209-278 | over every interleaving of the sections: the invariant, and live blocks disjoint, large enough and 16-aligned |
| `HeapPages.FreshIffUnused` | src/kern/vm/kmalloc.c:577-633 | in every reachable state a page can be allocated exactly when no live block lies on it and no call is about to install it: no page leaks, none is given twice |
| `HeapPages.EveryPageOwned` | src/kern/vm/kmalloc.c:395-633 | every page held has a descriptor in use, a live big block or a call in flight that holds it |
| `HeapPages.FreedIsFresh` | src/kern/vm/kmalloc.c:621-633 | all pages of a freed big block can be allocated again |
| `HeapPages.DroppedIsFresh` | src/kern/vm/kmalloc.c:577-584 | so can the page of a descriptor taken out of use |
| `HeapPages.EveryBlockFits` | src/kern/vm/kmalloc.c:377-393 | in every reachable state a live block is of the smallest size, or the fewest pages, that hold what was asked for |
| `ThreadList.List.constructor` | src/kern/thread/threadlist.c:60-72 | an empty list between its two bookends |
| `ThreadList.List.InsertAfterNode` | src/kern/thread/threadlist.c:105-120 | the thread is behind the given node, links in both directions agree |
| `ThreadList.List.InsertBeforeNode` | src/kern/thread/threadlist.c:125-140 | the thread is before the given node |
| `ThreadList.List.RemoveNode` | src/kern/thread/threadlist.c:145-157 | the node is out and its links are null |
| `ThreadList.List.IsEmpty` | src/kern/thread/threadlist.c:91-97 | empty by the count exactly when empty by the links |
| `ThreadList.List.AddHead` | src/kern/thread/threadlist.c:162-170 | the sequence with the thread in front |
| `ThreadList.List.AddTail` | src/kern/thread/threadlist.c:172-180 | the sequence with the thread at the end |
| `ThreadList.List.RemHead` | src/kern/thread/threadlist.c:182-198 | the first thread, with null links, or null of an empty list |
| `ThreadList.List.RemTail` | src/kern/thread/threadlist.c:200-216 | the last thread, or null of an empty list |
| `ThreadList.List.InsertAfter` | src/kern/thread/threadlist.c:218-224 | the sequence with the thread behind a member |
| `ThreadList.List.InsertBefore` | src/kern/thread/threadlist.c:226-232 | the sequence with the thread before a member |
| `ThreadList.List.Remove` | src/kern/thread/threadlist.c:234-240 | the sequence without a member, whose links are null |
| `ThreadList.List.WalkForward` | src/kern/thread/threadlist.c:60-240 | following next visits the sequence |
| `ThreadList.List.WalkBackward` | src/kern/thread/threadlist.c:60-240 | following prev visits its reverse |
| `ThreadList.OnOneChain` | src/kern/thread/threadlist.c:105-157 | a node on one list is on no other |
| `ThreadList.OnOneList` | src/kern/thread/threadlist.c:105-157 | a thread on one list is on no other |
| `ThreadList.MoveHead` | src/kern/thread/thread.c:1186-1188 | the head of one list becomes the tail of another |
| `ThreadList.MoveAll` | src/kern/thread/thread.c:1186-1188 | all threads move to the private list, in order |
| `Semaphore.EveryRun` | src/kern/thread/synch.c:90-144 | in every interleaving of any number of Ps and Vs, statement by statement: locks exclude; if a thread sleeps, sem_count is at most the woken waiters that have not rechecked plus the V that has not yet woken; decrements never exceed the initial count plus increments |
| `Semaphore.Kept` | src/kern/thread/synch.c:90-144 | each statement keeps the invariant behind it, the sem-lock to wchan-lock bridge included |
| `Semaphore.WokenOne` | src/kern/thread/thread.c:1148-1168 | each statement changes the set of woken waiters by the one thread it should |
| `Semaphore.QuietSleepers` | src/kern/thread/synch.c:104-126 | with no wakeup under way, threads sleep only if the count is 0 |
| `Semaphore.Progress` | src/kern/thread/synch.c:90-144 | no deadlock: unless all are idle or asleep, some thread that is neither can go on |
| `SemaphoreRuns.ReturnedPs` | src/kern/thread/synch.c:90-144 | counted from the turns of any run: the Ps that returned are at most the initial count plus the times a V raised it; the Vs that returned are those raises, but for one V still inside |
| `SemaphoreRuns.EachCallCounts` | src/kern/thread/synch.c:103-143 | every P that returned lowered the count exactly once and every V that returned raised it exactly once, agent by agent |
| `SemaphoreRuns.AllBooks` | src/kern/thread/synch.c:103-143 | the count is the initial one plus all raises less all decrements; one call at most has changed it and not returned |
| `SemaphoreRuns.FirstInFirstOut` | src/kern/thread/thread.c:1148-1168 | sleepers are taken off the channel in the order they went to sleep, each once |
| `SemaphoreRuns.AnyNumber` | src/kern/thread/synch.c:90-103 | any number of agents can be inside P at once |
| `Threads.StepKeeps` | src/kern/thread/thread.c:439-761 | every step of forking, switching, waking, migrating and exiting keeps the invariant: one place per thread, ownership, states, stacks |
| `Threads.EveryRun` | src/kern/thread/thread.c:439-761 | it holds in every reachable state, for any number of CPUs and threads |
| `Threads.OnePlace` | src/kern/thread/thread.c:624-692 | each undestroyed thread is in exactly one place, once: current on one CPU that is not idle, one run queue, one wait channel, one zombie list, one victim list or in transit |
| `Threads.NoneDestroyed` | src/kern/thread/thread.c:241-290 | no list holds a destroyed thread |
| `Threads.StacksApart` | src/kern/thread/thread.c:1011-1041 | no two CPUs stand on one stack, even when one idles on a thread already woken; no CPU stands on the stack of a thread queued on another |
| `Threads.QueuedIsOwn` | src/kern/thread/thread.c:439-470 | a queued thread belongs to the CPU it is queued on |
| `Threads.CurrentIsOwn` | src/kern/thread/thread.c:593-594 | the asserts on entry to thread_switch |
| `Threads.StatesAgree` | src/kern/thread/thread.c:624-653 | zombies are exactly the threads on zombie lists, threads on channels are asleep, running threads are current; between a thread's queueing (its channel unlocked) and the store to t_state, this holds of the state about to be stored |
| `Threads.UnstoredIsSafe` | src/kern/thread/thread.c:645-653 | a thread whose state is not stored yet can be queued to run only on the CPU that is on its stack and holds its run queue lock |
| `Threads.ReapIsSafe` | src/kern/thread/thread.c:279-290 | the asserts of exorcise and thread_destroy: a zombie is destroyed off its stack, by a CPU running another thread |
| `Threads.MigPlaceKeeps` | src/kern/thread/thread.c:1040-1045 | giving a victim to another CPU keeps the invariant, because it is nobody's current thread |
| `Threads.MigSkipKeeps` | src/kern/thread/thread.c:1034-1038 | shuffling the current thread to the end keeps it |
| `Threads.ParkKeeps` | src/kern/thread/thread.c:614-652 | putting the current thread on a list, in all three ways, keeps it; which list, and until when, is ThreadRuns.ParkedUntilTaken |
| `Threads.StoreKeeps` | src/kern/thread/thread.c:653-673 | storing its state and going idle keeps it, whatever happened to it on the list meanwhile |
| `Threads.PickKeeps` | src/kern/thread/thread.c:674-692 | taking the next thread keeps it |
| `Threads.MakeRunnableKeeps` | src/kern/thread/thread.c:439-470 | thread_make_runnable keeps it |
| `Threads.WakeTakeKeeps` | src/kern/thread/thread.c:1148-1205 | taking a sleeper off its channel keeps it |
| `Threads.ForkKeeps` | src/kern/thread/thread.c:514-562 | a new thread keeps it |
| `Threads.ReapKeeps` | src/kern/thread/thread.c:279-290 | destroying a zombie keeps it |
| `ThreadRuns.ParkedUntilTaken` | src/kern/thread/thread.c:624-653 | over any run after the call: a thread that sleeps on w stays on the channel w, one that yields on its CPU's run queue, one that exits among its CPU's zombies, behind those already there and in the right state, until it is taken; the step that takes it is the wake-up of that same w that follows as many as were ahead, that CPU's own scheduler in turn (or migration), or the reaping there |
| `ThreadRuns.InLine` | src/kern/thread/thread.c:624-692 | in every line a thread moves up by one when the first is taken and by nothing else |
| `ThreadRuns.LeavesLine` | src/kern/thread/thread.c:439-470 | what leaves a line left as its first, and went where that step sends it: to the waker's hands, its own CPU's run queue, the CPU, or destruction |
| `ThreadRuns.KeepsState` | src/kern/thread/thread.c:653 | a thread that stays in line keeps its state, whatever else runs |
| `ThreadRuns.HeadRuns` | src/kern/thread/thread.c:674-746 | after a switch the thread that was first on the run queue is current until the next switch there, and its state is S_RUN from the tail of thread_switch on |
| `ThreadRuns.Created` | src/kern/thread/thread.c:514-562 | a new thread is READY, belongs to the CPU that made it, and is current there (a CPU's first) or last in its maker's hands |
| `ThreadRuns.IdleWakes` | src/kern/thread/thread.c:674-681 | a CPU that finds nothing to run goes idle with its run queue unlocked |
| `ThreadRuns.IdleSwitches` | src/kern/thread/thread.c:674-692 | an idle CPU with something to run switches to the first of it in two steps |
| `ThreadRuns.VictimsInOrder` | src/kern/thread/thread.c:998-1001 | taking victims off the tail keeps the order of queue and victims together |
| `ThreadRuns.SendsOne` | src/kern/thread/thread.c:995-1072 | deciding, taking, placing and ending move the last thread to the end of the other CPU's queue, change its owner, and nothing else |
| `ThreadRuns.CpuGoesOn` | src/kern/thread/thread.c:586-761 | in every reachable state every CPU has a next step |
| `ThreadRuns.HandGoesOn` | src/kern/thread/thread.c:1148-1205 | a sleeper can always be taken, and a thread in hand made runnable once the run queue of its CPU is unlocked |
| `ThreadRuns.AnyNumber` | src/kern/thread/thread.c:197-235 | any number of CPUs can come up |
| `Migration.CountAll` | src/kern/thread/thread.c:978-988 | one turn per CPU, whatever the others do in between: the k-th count is the length of queue k as found under its lock; the own count never exceeds the own queue later |
| `Migration.TakeVictims` | src/kern/thread/thread.c:998-1001 | the tail of the queue moves over in order, never from an empty list |
| `Migration.Fill` | src/kern/thread/thread.c:1010-1053 | one CPU is filled up to the share from the head of the victims; the current thread is skipped to the end; no victim is taken from an empty list |
| `Migration.PlaceAll` | src/kern/thread/thread.c:1004-1055 | under any interference: each visit finds the queue as the others left it, appends the next victims to it when it is below the share, and never takes it above; victims are left only when every CPU was filled; without interference everything is placed when there is room |
| `Migration.PutBack` | src/kern/thread/thread.c:1062-1068 | the leftovers go behind what arrived on the own queue meanwhile |
| `Migration.SendAway` | src/kern/thread/thread.c:995-1072 | the call after the decision to send |
| `Migration.RoomEnough` | src/kern/thread/thread.c:990-996 | the other CPUs always have room for what is above the share: a sum and ceiling argument over any number of CPUs |
| `Migration.ConsiderMigration` | src/kern/thread/thread.c:969-1072 | the whole call under any interference, turn by turn: the queues at the end follow from the initial ones by what the others did before each turn and what this CPU did in it (count, take from the own tail, append to others, put the rest back) |
| `Migration.OwnConserved` | src/kern/thread/thread.c:969-1072 | what the own queue held and gained is what it holds and what was given away; the current thread is never given away |
| `Migration.AllConserved` | src/kern/thread/thread.c:969-1072 | under any interference every thread is queued on the machine as often as before, plus what the other CPUs brought and less what they took |
| `Migration.NoneLost` | src/kern/thread/thread.c:969-1072 | so no queued thread is lost while the others only add, and nothing changes when nobody interferes |
| `Migration.NeverOverfilled` | src/kern/thread/thread.c:1010-1041 | a CPU that was given threads had a queue below the share when its lock was held, holds them, and is not above the share |
| `Migration.Balanced` | src/kern/thread/thread.c:978-1068 | undisturbed, a queue at or above its share ends with exactly the share (plus a skipped current thread); one below it is left alone; no other queue is raised above the share |
| `Interrupts.Core.SplRaise` | src/kern/thread/spl.c:86-104 | interrupts go off on the first raise |
| `Interrupts.Core.SplLower` | src/kern/thread/spl.c:106-124 | interrupts go on only at the last lower |
| `Interrupts.Core.SplX` | src/kern/thread/spl.c:131-155 | the level is set, the count follows, the old level is returned |
| `Interrupts.StepKeeps` | src/kern/thread/thread.c:586-761 | every step keeps the accounting: lock, unlock and spl in any order, interrupts, context switches, forks |
| `Interrupts.EveryRun` | src/kern/thread/spinlock.c:72-127 | it holds in every reachable state |
| `Interrupts.Accounting` | src/kern/thread/spl.c:60-85 | the running thread's count is the spinlocks its CPU holds, plus one for level HIGH, plus one while it spins; interrupts are on exactly at zero |
| `Interrupts.SwitchedOut` | src/kern/thread/thread.c:551-556 | every new or switched-out thread has count 2 and level HIGH |
| `Interrupts.ResumeKeeps` | src/kern/thread/thread.c:691-695 | the run queue lock changes hands across the context switch without touching a count |
| `Interrupts.HandedOver` | src/kern/thread/thread.c:674-681 | in the loop of thread_switch and on arrival on the next stack, the one spinlock held is the CPU's own run queue lock and no other CPU holds it, so the releases at lines 677, 749 and 784 find the holder they assert |
| `Interrupts.Exclusive` | src/kern/thread/spinlock.c:72-127 | no spinlock is held by two CPUs |
| `Interrupts.InterruptsAreSafe` | src/kern/arch/mips/locore/trap.c:176-194 | no interrupt comes to a CPU that holds or wants a spinlock; the asserts on entry and exit of the handler hold |
| `Interrupts.EntryAsserts` | src/kern/arch/mips/locore/trap.c:162-186 | an interrupt at recorded level 0 finds count 0; one at HIGH comes out of cpu_idle |
| `Interrupts.ExitAsserts` | src/kern/arch/mips/locore/trap.c:189-194 | at the end of the handler the count is 1 |
| `Interrupts.LeavesAsItCame` | src/kern/thread/thread.c:757-761 | the end of thread_switch goes to the level its frame on the stack holds, with that level's count and interrupt state; that this is the level it came in with is InterruptRuns.SwitchRestores |
| `Interrupts.EarlyReturns` | src/kern/thread/thread.c:597-621 | the two early returns of thread_switch restore level, count and interrupt state |
| `InterruptRuns.SwitchRestores` | src/kern/thread/thread.c:597-760 | over any run after it called thread_switch at level h: when a thread is first back at its stack depth, on whichever CPU, its level is h, its count and the interrupt enable are those of h, no spinlock is held, and its stack is as it was |
| `InterruptRuns.StartupEnds` | src/kern/thread/thread.c:768-795 | a forked thread, when its stack is first empty, is at level 0 with count 0 and interrupts on |
| `InterruptRuns.InterruptRestores` | src/kern/arch/mips/locore/trap.c:162-194 | over any run: when an interrupted thread is first back, level, count, stack, interrupt enable and being in cpu_idle are what they were |
| `InterruptRuns.SplxUndoes` | src/kern/thread/spl.c:131-155 | splx reaches the level asked for, and setting the old level again restores the whole state |
| `InterruptRuns.LockUndoes` | src/kern/thread/spinlock.c:72-127 | acquiring a free spinlock and releasing it restores the whole state; in between interrupts are off and this CPU alone holds that lock |
| `InterruptRuns.SwitchGoesOn` | src/kern/thread/thread.c:674-749 | no CPU is stuck inside thread_switch |
| `InterruptRuns.LeavesSwitch` | src/kern/thread/thread.c:757-761 | nor at its end, where the frame that splx needs is on top of the stack |
| `InterruptRuns.ThreadGoesOn` | src/kern/thread/thread.c:586-612 | a running thread can set its level, take interrupts when they are on, and switch |
| `InterruptRuns.LockGoesOn` | src/kern/thread/spinlock.c:72-127 | a free lock can be got, a held one released |
| `InterruptRuns.HandlerReturns` | src/kern/arch/mips/locore/trap.c:189-194 | a handler that interrupted cpu_idle finds its own frame on top |
| `InterruptRuns.ForkUndoes` | src/kern/thread/thread.c:241-290 | destroying a thread that never ran leaves no trace of it |
| `InterruptRuns.AnyNumber` | src/kern/thread/thread.c:197-235 | any number of CPUs can come up and of threads be forked |
| `Clock.TwoHands.constructor` | src/kern/vm/addrspace.c:228-230 | the hands start at their angle |
| `Clock.TwoHands.Replace` | src/kern/vm/addrspace.c:765-790 | for any frames and angle and any reference bits: stops by its test within `angle` advances on a frame whose bit is clear, having passed only referenced frames and cleared exactly the bits under the reference hand; keeps the angle |
| `Clock.NoEarlyReuse` | src/kern/vm/addrspace.c:765-790 | a frame is not picked again in fewer than ceil(frames/(angle+1)) calls |
| `Clock.KernelReuse` | src/kern/include/addrspace.h:39-45 | with the kernel's 30 frames and angle 8: not in fewer than 4 calls |
| `Clock.Run` | src/kern/vm/addrspace.c:765-790 | the same over any run, with the reference bits set to anything between calls |
| `PageTable.SetAt` | src/kern/vm/addrspace.c:62-63 | the two-level table is a map from pages to entries: the two indices determine the page |
| `PageTable.NoSharing` | src/kern/vm/addrspace.c:85-122 | no two valid entries share a frame |
| `PageTable.ClaimKeeps` | src/kern/vm/addrspace.c:299-314 | taking a free frame changes no page's content |
| `PageTable.EvictKeeps` | src/kern/vm/addrspace.c:318-331 | putting a page out changes no page's content |
| `PageTable.FillKeeps` | src/kern/vm/addrspace.c:168-181 | entering a page and reading it in restores the invariant and changes no page's content |
| `PageTable.MarkKeeps` | src/kern/vm/addrspace.c:184-209 | the bits change nothing else |
| `PageTable.StoreKeeps` | src/kern/vm/addrspace.c:149-211 | a store through the table changes the one byte of the one page |
| `Paging.Pager.constructor` | src/kern/vm/addrspace.c:226-248 | frames free at consecutive addresses, slots at consecutive offsets |
| `Paging.Pager.SwapspaceInsert` | src/kern/vm/swapspace.c:87-106 | the first unused slot, and no other, becomes the page's |
| `Paging.Pager.LoadRun` | src/kern/vm/swapspace.c:108-122 | each page of a run has a slot |
| `Paging.Pager.LoadAs` | src/kern/vm/swapspace.c:108-122 | every page of the address space has a slot, and the paging invariant holds |
| `Paging.PageInRun` | src/kern/vm/swapspace.c:108-122 | the three loops reach every page vm_fault accepts |
| `Paging.RunInPages` | src/kern/vm/swapspace.c:108-122 | and no others |
| `Paging.Pager.FindSlot` | src/kern/vm/swapspace.c:149-155 | the first slot with the address |
| `Paging.Pager.SwapOut` | src/kern/vm/swapspace.c:168-191 | the frame's bytes are in the page's slot |
| `Paging.Pager.SwapInTo` | src/kern/vm/swapspace.c:143-166 | the slot's bytes are in the frame |
| `Paging.Pager.AddPageEntry` | src/kern/vm/addrspace.c:85-122 | entry and frame record point at each other; a missing level 2 table is made; the one reference bit is cleared |
| `Paging.Pager.FirstFree` | src/kern/vm/addrspace.c:299-314 | the first free frame, or all are in use |
| `Paging.Pager.AllocFrame` | src/kern/vm/addrspace.c:292-340 | the first free frame, with its one reference bit cleared, or, when all are in use, the frame the clock stops at, its page put out; no valid entry points to it and every page keeps its content |
| `Paging.Pager.BringIn` | src/kern/vm/addrspace.c:168-181 | a missing page gets a frame, an entry and its bytes; every page keeps its content |
| `Paging.Pager.GetPhysicalAddress` | src/kern/vm/addrspace.c:149-211 | the page is in a frame with its content and its bits set, and the address there is returned; a present page is not moved and its frame's reference bit is the only one that changes; every page keeps its content; it panics exactly for an address inside a missing page |
| `Paging.Pager.Touch` | src/kern/vm/addrspace.c:183-211 | the translation and the bits of a page that is present, no other reference bit |
| `Paging.Pager.SetRef` | src/kern/vm/addrspace.c:193-204 | the reference bit of the frame, and no other |
| `Paging.Pager.VmFault` | src/kern/vm/addrspace.c:643-723 | exactly when it panics, returns EINVAL, EFAULT or succeeds; the address it ends with is page-aligned, as line 721 asserts; no page's content changes |
| `Paging.Pager.Access` | src/kern/vm/addrspace.c:643-723 | one user load or store does to the user's memory what it does to a flat memory |
| `Paging.Pager.Run` | src/kern/vm/addrspace.c:149-340 | any run of loads and stores, with faults, evictions and TLB misses anywhere, answers as a flat memory |
| `Paging.LastSave` | src/kern/vm/addrspace.c:149-340 | in a flat memory a load returns the last value saved at its address |
| `Format.StuffLength` | src/common/libc/printf/__printf.c:352-391 | every conversion prints max(width, natural length) characters |
| `Format.DigitCount` | src/common/libc/printf/__printf.c:400-443 | a number below 8^k has at most k digits in base 8 or more |
| `Format.BufferHolds` | src/common/libc/printf/__printf.c:84 | any 64-bit number in base 8 to 16 fits the digit buffer with its NUL |
| `Printf.Convert` | src/common/libc/printf/__printf.c:404-450 | the digit loop fills the buffer from the right, never below its start; the text is the numeral of the number, read back digit by digit in its base |
| `Printf.PF.Print` | src/common/libc/printf/__printf.c:143-149 | the text is sent and counted |
| `Printf.PF.Modifier` | src/common/libc/printf/__printf.c:178-228 | the field after one modifier character |
| `Printf.PF.GetNum` | src/common/libc/printf/__printf.c:235-298 | magnitude and sign of the argument by size and conversion, the most negative number included |
| `Printf.PF.SetBase` | src/common/libc/printf/__printf.c:310-330 | base and prefix flag |
| `Printf.PF.Fill` | src/common/libc/printf/__printf.c:335-344 | the fill character, so many times |
| `Printf.PF.PrintStuff` | src/common/libc/printf/__printf.c:352-391 | padding before the prefixes, between them and the digits, or after |
| `Printf.PF.PrintNum` | src/common/libc/printf/__printf.c:400-478 | the padded number with its prefixes |
| `Printf.PF.SendChar` | src/common/libc/printf/__printf.c:483-550 | one format character: what is printed, the next field state, the arguments used |
| `Printf.PF.Vprintf` | src/common/libc/printf/__printf.c:557-575 | the whole output is sent and its length returned; what the output is for every format is FormatMeaning |
| `Printf.Snp.Send` | src/common/libc/printf/snprintf.c:73-93 | the buffer holds the first buflen characters sent, the rest of it is untouched |
| `Printf.Vsnprintf` | src/common/libc/printf/snprintf.c:98-142 | exactly the first min(len-1, total) characters of the output and a NUL, nothing beyond, nothing at all when len is 0; total is returned (section 7.19.6.5 of C99); the output itself is given by FormatMeaning |
| `FormatMeaning.DigitsRead` | src/common/libc/printf/__printf.c:405-436 | in every base from 2 to 16 the printed digits, 0 to 9 and a to f at their values, read back as the number, with no leading zero |
| `FormatMeaning.NumbersMean` | src/common/libc/printf/__printf.c:235-478 | %d, %u, %o, %x and %p with any modifiers: sign, prefix (0x or 0 as # asks, always for %p) and a numeral that reads back as the argument in its 32- or 64-bit type, laid out in the field; without a width nothing else |
| `FormatMeaning.TextsMean` | src/common/libc/printf/__printf.c:518-549 | %s prints the string or (null), %c the low byte's character (nothing for NUL), any other character itself, laid out in the field; without a width nothing else |
| `FormatMeaning.ModifiersMean` | src/common/libc/printf/__printf.c:178-228 | any string of modifiers in any order: the width is its digits as a decimal number, zero fill a leading 0 among them, left alignment and alternate format any - and #, the type by the number of l's |
| `FormatMeaning.FirstField` | src/common/libc/printf/__printf.c:483-575 | every format: its text up to the first field, then the field, then the rest of the format with the arguments that are left |
| `FormatMeaning.Unfinished` | src/common/libc/printf/__printf.c:487-507 | a format without fields prints itself, and an unfinished field prints nothing |
| `FormatMeaning.OneField` | src/common/libc/printf/__printf.c:483-550 | a format that is one field prints that field |
| `Atoi.Convert` | src/common/libc/stdlib/atoi.c:49-101 | the number the text stands for, reduced to a 32-bit int |
| `Atoi.ParsesTo` | src/common/libc/stdlib/atoi.c:49-101 | any text split into blanks and tabs, a sign -, + or none, digits, and an end that continues none of these: the number of the digits with the sign, 0 without digits |
| `Atoi.AccDigits` | src/common/libc/printf/__printf.c:406-446 | the printed digits read back as the number |
| `Atoi.ZerosShow` | src/common/libc/printf/__printf.c:386-390 | zeros printed after a number change the int it reads back as, unless it is 0 |
| `Atoi.FieldRoundTrip` | src/common/libc/printf/__printf.c:352-391 | for every int and every field: the text reads back as the int exactly when it is not left-aligned, zero-filled, wider than the number and nonzero; its length is max(width, natural length) |
| `Atoi.RoundTrip` | src/common/libc/printf/__printf.c:178-228 | the same for every modifier string between % and d, through the whole format machine, with width, zero fill and alignment read off the modifiers |
| `Atoi.LeftZeroFill` | src/common/libc/printf/__printf.c:386-390 | the failing case: 7 with %-05d does not read back |
| `Disk.AdmittedIsOnDisk` | src/kern/dev/lamebus/lhd.c:205-221 | for every signed offset the range test is right exactly unless the sectors asked for, before sector 0 or past what a word can number, wrap to an end on the disk |
| `Disk.WrapsAround` | src/kern/dev/lamebus/lhd.c:205-221 | a request past the end for which it is not |
| `Disk.WrapsBelow` | src/kern/dev/lamebus/lhd.c:205-221 | a request before the disk for which it is not |
| `Disk.StepKeeps` | src/kern/dev/lamebus/lhd.c:229-273 | every statement of a call, of the device and of the interrupt handler keeps the invariant |
| `Disk.EveryRun` | src/kern/dev/lamebus/lhd.c:229-273 | it holds in every interleaving of any number of calls |
| `Disk.MutualExclusion` | src/kern/dev/lamebus/lhd.c:232-267 | at most one thread is between P(lh_clear) and V(lh_clear); lh_clear and lh_done never exceed 1 |
| `Disk.ResultIsOwn` | src/kern/dev/lamebus/lhd.c:253-264 | when a thread has read the result, the last completed operation is its own: its direction, sector offset/512 + i modulo 2^32, its data; the result is that operation's code and the buffer its data |
| `Disk.CallIsRight` | src/kern/dev/lamebus/lhd.c:228-275 | a call that returned 0 had each sector, offset/512 + j modulo 2^32, done during the call by its own operation, in order; reads deliver what the disk held after all earlier operations |
| `Disk.DiskIsRight` | src/kern/dev/lamebus/lhd.c:205-275 | for a request within the disk: a read that returned 0 delivered as its j-th sector what the disk held at sector offset/512 + j just before its own operation; after a write's, the disk holds data[j] there |
| `Disk.ErrorIsOwn` | src/kern/dev/lamebus/lhd.c:215-271 | EINVAL without any operation exactly when the test on entry fails; any other error is that of uiomove or of the last operation the call itself started |
| `Disk.CopyErrors` | src/kern/dev/lamebus/lhd.c:238-267 | an error of uiomove ends the call with that error and lets the next thread in |
| `Disk.NeverStuck` | src/kern/dev/lamebus/lhd.c:103-275 | while a call has not returned, some call, the device or the interrupt handler has a next step: no completion is lost |
| `Disk.AnyNumber` | src/kern/dev/lamebus/lhd.c:205-229 | any number of calls can be under way |
| `Disk.OneOwner` | src/kern/dev/lamebus/lhd.c:101-133 | no operation belongs to two calls; the disk holds the result of all operations in order |

## Left out

- TLB contents: `tlb_invalidate` skips slot 0, so the code does not keep the TLB coherent; accesses go through the page table, and a TLB miss may happen at any access.
- Multi-page `virtual_alloc_kpages`: its replacement loop does not advance `j`; one page at a time is modelled.
- `as_prepare_load`, `as_copy`, several address spaces: slots are looked up by address alone, so two address spaces share them; one address space is modelled.
- `one_handed_replace`, `lru_replace`, `random_replace`: `replace_page` does not use them.
- Paging.Pager.GetPhysicalAddress: an address inside a page that uninitialised slot memory happens to hold; vm_fault passes page addresses only.
- QDivRem.QuotRem: division by zero is reported as such; what the machine's division by zero leaves in the result is not modelled.
- Semaphore.Progress: sem_count below INT_MAX; at INT_MAX the assert in V panics.
- Printf.PF.Vprintf: the character count and the field width do not wrap at 2^31.
- Migration.ConsiderMigration: the unsigned thread counts do not wrap.
- Threads: IPIs, the stack guard band, address space activation, ENOMEM in thread_fork, and the student scheduler `schedule`, which returns at once.
- Interrupts: acquiring a spinlock the CPU already holds, releasing one it does not hold, and sleeping with another spinlock held panic or break the protocol; callers are taken not to.
- Kmalloc: double frees and frees of pointers that are not live are the caller's error; the size and address arithmetic does not wrap.
- ThreadList: the THREADLIST_FORALL macros of threadlist.h, which step onto the tail bookend's null thread.
- Locks and condition variables: unimplemented stubs in synch.c.
- Disk: `uiomove` is a copy that may fail; the bus, the device registers other than sector and status, and `lhd_code_to_errno` of unknown codes.
- The file system, ELF loading, system calls, consoles, and the other library functions: plumbing or easy members.
