# Verified core of an OS/161 kernel

This project models the parts of an OS/161 1.99 kernel whose correctness is hard to see, and proves
them correct in Dafny. `dafny verify dfyconfig.toml` checks all of it.

| files | what they model |
|---|---|
| `Words`, `Digits`, `DivRem`, `Mul` | 64-bit division and multiplication on 32-bit words, with all wrap-around explicit |
| `Places`, `Threads`, `ThreadProofs`, `ThreadMoves` | the multi-CPU thread system as a step system: run queues, wait channels, zombies, idle CPUs, wakeups, forks, migration |
| `Interrupts`, `InterruptPairs` | spl counting, spinlocks, context switches, idling, interrupts and exceptions as a step system |
| `Semaphore`, `LockCv` | semaphores, sleep locks and condition variables, one step per spinlock or list operation |
| `PageRefs`, `KmallocState`, `KmallocSteps`, `KmallocLive`, `KmallocLists`, `KmallocRuns`, `Kmalloc` | the subpage allocator and `kmalloc`/`kfree` |
| `Migration` | `thread_consider_migration` while other CPUs keep running |
| `RingQueue`, `ThreadList` | the growable ring buffer and the bookended thread list |
| `Text`, `Printf`, `Atoi`, `Reading` | the printf engine, the truncating sink of `snprintf`, `atoi`, and reading back what was printed |
| `Uio` | scatter/gather transfers |
| `Basics` | what several of them use |

How to read the models:

- Step systems (`Threads`, `Interrupts`, `Semaphore`, `LockCv`) have any number of CPUs or threads. A
  step is one critical section or one memory access that others can see. A run is any sequence of
  enabled steps from the initial state, so a statement about every run covers every interleaving.
- In `Interrupts` a CPU does not acquire a spinlock it holds, and switches context only with its
  run-queue lock as the one spinlock held; `Interrupts.SwitchExact` shows that the second is needed.
  A CPU with nothing to run opens a window in which interrupts are on although spl is high. A trap
  that is not an interrupt brings the recorded state into step with splhigh and splx.
- `Kmalloc` takes the page allocator as a supplier that fails or gives out any aligned range
  overlapping nothing given out before; `pick` is its choice. A supplier asked for no pages, which a
  wrapped page count does, still names a page of its own. `view` records who holds what; the
  allocator's own code never reads it. `Others` performs arbitrary atomic steps of other threads at each point
  where `kmalloc_spinlock` is not held. Clients free only live blocks, once.
- `Migration` takes what the other CPUs do before each lock acquisition as a parameter. `log` is what
  happened during a call, in order, and the state is what the log makes of the one at the start.
- In `RingQueue` the success of `kmalloc` is a parameter, and a block has the room `Kmalloc` gives it.
  An assertion that stops the kernel, and a write past the end of the block, are outcomes of their own.
- In `Printf` an argument that is missing or of the wrong kind reads as 0 or NULL, where C leaves the
  behaviour undefined. `long` has 32 bits, as on the MIPS processor this kernel is for, and an int
  that overflows wraps round.
- In `Uio` a failing `copyin` or `copyout` is a parameter: the turn it happens in, and the bytes it
  has copied by then.

Where the code and its comments disagree, the model follows the code:

- `__printf.c` says the number buffer has one character to spare. It has none: 64 / 3 is 21, but 64
  bits need 22 octal digits, so digits and terminator fill all 23 (`Text.NumbersFit`).
- `kmalloc` sends requests of exactly 2048 bytes to the page allocator although a 2048-byte block
  size exists.
- `lock_acquire` by the thread that holds the lock returns at once and needs only one release.

These properties hold only under a condition, which is exact in each case, and each has an instance
where it fails:

- `kmalloc` gives a block at least as large as asked if and only if the request is at most
  2^32 - 4096 (`KmallocState.RoomEnough`; `KmallocRuns.NoRoomAtAll`).
- `atoi` reads back what `%d` printed, and a reader in the right base any numeric field, if and only if
  the field is not padded with zeros on the right, or the number is 0 (`Atoi.PrintThenRead`,
  `Reading.FieldReads`; `Atoi.SevenIsLost`).
- A context switch keeps the interrupt count right if and only if the run-queue lock is the only
  spinlock held, or the thread stays the same (`Interrupts.SwitchExact`;
  `Interrupts.SwitchWithTwoLocks`).
- Interrupts are off while the count is positive and on while it is zero, except in the idle loop's
  window and around exceptions (`Interrupts.CountExact`; `Interrupts.WindowReached`).
- A growing queue has the room its size promises if and only if that is at most 2^30 - 1024
  (`RingQueue.SlotsExact`, `RingQueue.AddExact`, `RingQueue.ReserveExact`; `RingQueue.TooSmall`).
- `uiomove` respects a uio_resid that is not the size of the buffers only as `Uio.GoEnough` and
  `Uio.GoShort` say (`Uio.WrongResid`).
- Two calls of `uiomove` leave the memory one does, for every memory, if and only if they bring the same
  addresses to the same places (`Uio.SplitAddresses`): when they stop between two copies or the target of
  the copy they split does not start inside its source (`Uio.TransferredTwice`), and within the first
  buffer only then (`Uio.SplitExact`; `Uio.SplitShows`).
- A field is as wide as its digits say if and only if they spell an int (`Text.WidthExact`;
  `Text.WidthLost`).

## Model

| member | source | states |
|---|---|---|
| Words.Combine | os161-1.99/common/gcc-millicode/qdivrem.c:48 | shifting one digit up and OR-ing in the other is the sum a * 2^16 + b whenever a is a digit: the OR never meets an occupied bit |
| DivRem.EstimateDigit | os161-1.99/common/gcc-millicode/qdivrem.c:186-210 | the corrected qhat is the true quotient digit of the window or exactly one more |
| DivRem.TestMeaning | os161-1.99/common/gcc-millicode/qdivrem.c:205 | the 32-bit comparison is exact, no product or combination in it wraps, and it holds if and only if qhat times the divisor's leading two digits exceeds the window's leading three |
| DivRem.TestDigit | os161-1.99/common/gcc-millicode/qdivrem.c:205-210 | an estimate the test rejects is above the true digit, and one it accepts is at most one above it |
| DivRem.MulSub | os161-1.99/common/gcc-millicode/qdivrem.c:217-221 | the wrapping multiply-subtract leaves u - qhat * v modulo the window's power of the base, with the borrow that is missing at the top |
| DivRem.SubtractProduct | os161-1.99/common/gcc-millicode/qdivrem.c:217-230 | the window becomes window - qhat * v, one power of the base more exactly when a borrow is reported, that is when the product exceeds the window |
| DivRem.AddBack | os161-1.99/common/gcc-millicode/qdivrem.c:232-236 | the add-back loop adds v to the low digits exactly, with the carry returned |
| DivRem.RestoreDivisor | os161-1.99/common/gcc-millicode/qdivrem.c:232-237 | adding v back to a window that went negative undoes one subtraction of v |
| DivRem.DigitFound | os161-1.99/common/gcc-millicode/qdivrem.c:225-239 | a borrow occurs if and only if qhat was one more than the true digit; in either case the digit stored is window / v and what is left is window mod v |
| DivRem.DivideStep | os161-1.99/common/gcc-millicode/qdivrem.c:183-239 | one turn stores the true digit and replaces the window by its remainder, which is below v and so has top digit 0 |
| DivRem.LoopBody | os161-1.99/common/gcc-millicode/qdivrem.c:182-240 | each turn keeps dividend = quotient so far * v + what is left, with the remainder below v |
| DivRem.LongDivide | os161-1.99/common/gcc-millicode/qdivrem.c:177-240 | the whole loop leaves u / v in the quotient digits and u mod v in the dividend's last n, with zeros before them |
| DivRem.Shl | os161-1.99/common/gcc-millicode/qdivrem.c:265-279 | in place, each digit becomes its own lower bits moved up plus the upper bits of the next, and nothing outside the range changes |
| Digits.ShiftedUpValue | os161-1.99/common/gcc-millicode/qdivrem.c:265-279 | that multiplies the value by 2^sh when nothing falls out at the top |
| DivRem.ShiftCount | os161-1.99/common/gcc-millicode/qdivrem.c:169-171 | the shift chosen is the one that brings the leading digit to at least half the base |
| DivRem.Normalise | os161-1.99/common/gcc-millicode/qdivrem.c:167-175 | both operands are multiplied by the same power of two, after which the divisor is normalised and the window condition of the loop holds |
| DivRem.Rescale | os161-1.99/common/gcc-millicode/qdivrem.c:242-258 | scaling both operands leaves the quotient as it is and scales the remainder |
| DivRem.Unnormalise | os161-1.99/common/gcc-millicode/qdivrem.c:248-254 | in place, each digit becomes its own upper bits moved down plus the lower bits of the one before |
| Digits.ShiftedDownValue | os161-1.99/common/gcc-millicode/qdivrem.c:248-254 | that divides the value by 2^d |
| DivRem.ShortDivide | os161-1.99/common/gcc-millicode/qdivrem.c:123-149 | the unrolled one-digit division gives the exact quotient and remainder |
| DivRem.QDivRem | os161-1.99/common/gcc-millicode/qdivrem.c:67-263 | for every u and every v > 0 the result is u / v, and u mod v is stored exactly when the caller asked for it |
| DivRem.TruncDivMeaning | os161-1.99/common/gcc-millicode/divdi3.c:45-62 | the truncating quotient is the one of section 6.5.5 of C99: a = q * b + r with abs(r) < abs(b) and r zero or of a's sign |
| DivRem.DivDi3 | os161-1.99/common/gcc-millicode/divdi3.c:45-62 | the signed quotient is the truncating one, except for the most negative number over -1, where it wraps to that number |
| DivRem.ModDi3 | os161-1.99/common/gcc-millicode/moddi3.c:46-62 | the signed remainder is a minus the truncating quotient times b, for all a and all b != 0 |
| Mul.ThreeProducts | os161-1.99/common/gcc-millicode/muldi3.c:54-97 | the product of two two-digit numbers from three half-size products, with the middle term's sign |
| Mul.MiddleTerm | os161-1.99/common/gcc-millicode/muldi3.c:202-210 | the two absolute differences and the sign bit stand for (u1 - u0) * (v0 - v1) |
| Mul.SumProducts | os161-1.99/common/gcc-millicode/muldi3.c:214-236 | the hand-propagated carries and borrows add up the three products modulo 2^64, although each word wraps |
| Mul.LMulQ | os161-1.99/common/gcc-millicode/muldi3.c:183-241 | the result is exactly u * v for all 32-bit u and v |
| Mul.MulDi3 | os161-1.99/common/gcc-millicode/muldi3.c:99-164 | the result is a * b modulo 2^64, read as signed, for all 64-bit a and b |
| ThreadProofs.StepKeeps | os161-1.99/kern/thread/thread.c:437-722 | every step of any CPU, waker, forker or migrator keeps the invariant: all threads counted once, each list's threads at home on its CPU, zombies marked, targets of wakeups current |
| ThreadProofs.RunKeeps | os161-1.99/kern/thread/thread.c:549-722 | the invariant holds in every state of every run from boot |
| ThreadProofs.NoSharedStack | os161-1.99/kern/thread/thread.c:584-712 | in every reachable state no two CPUs share a current thread or a kernel stack, idle CPUs with a sleeping, re-woken or exited current thread included |
| ThreadProofs.ExactlyOnePlace | os161-1.99/kern/thread/thread.c:583-656 | in every reachable state a thread that has not been destroyed is in exactly one place, once, and a destroyed one in none; run queues, zombie and victim lists hold only threads whose t_cpu is that CPU |
| ThreadProofs.ExorciseSafe | os161-1.99/kern/thread/thread.c:274-285 | what exorcise destroys has state S_ZOMBIE and is neither the current thread nor the stack of any CPU |
| ThreadMoves.StepMoves | os161-1.99/kern/thread/thread.c:549-722 | each step takes each thread where the source says: a yielding thread to the tail of its CPU's run queue, a sleeping one to its channel, an exiting one to the zombie list, a picked one to the CPU, a woken one to its waker's hand and from there to a run queue, and leaves every other thread where it is |
| ThreadMoves.StepMakes | os161-1.99/kern/thread/thread.c:481-533 | a thread comes into being by thread_fork only, in the forker's hand |
| ThreadMoves.ExitIsFinal | os161-1.99/kern/thread/thread.c:784-805 | over every run, a thread that has exited is at every later moment on its CPU's zombie list and nowhere else, or destroyed: it is never queued, picked, chosen or run again |
| ThreadMoves.ZombieExited | os161-1.99/kern/thread/thread.c:598-614 | the converse: whatever is on a zombie list got there by an exit on that CPU |
| ThreadMoves.SleepsUntilWoken | os161-1.99/kern/thread/thread.c:1020-1030 | over every run, a thread that went to sleep on a wait channel is on it until a wakeone or wakeall of that channel |
| ThreadMoves.SleepsOnAChannel | os161-1.99/kern/thread/thread.c:598-614 | a CPU in any reachable state only goes to sleep on a channel that exists |
| ThreadMoves.WakeAllEmpties | os161-1.99/kern/thread/thread.c:1057-1085 | wchan_wakeall leaves the channel empty, every thread that was on it in the waker's hands, in order |
| ThreadMoves.HandKept | os161-1.99/kern/thread/thread.c:439-470 | a thread in a waker's or forker's hand stays in a hand until it is put on a run queue or its fork fails |
| ThreadMoves.QueueOrder | os161-1.99/kern/thread/thread.c:549-722 | run queues are served in order: the threads on one keep their order, new ones join at the end, only picking takes the first and only migration the last |
| ThreadMoves.ChannelOrder | os161-1.99/kern/thread/thread.c:1020-1085 | so are wait channels: wakeone takes the thread that has slept longest, wakeall takes them all, and nothing else takes any |
| ThreadMoves.VictimOrder | os161-1.99/kern/thread/thread.c:873-955 | the victims of a migration are dealt with in turn, the current thread going to the end each time, and a CPU is migrating from collecting them until none is left |
| ThreadMoves.StepStates | os161-1.99/kern/thread/thread.c:598-620 | t_state follows: S_READY, S_SLEEP or S_ZOMBIE as the switch was asked for, S_RUN once the thread is back, S_READY for a new one |
| ThreadMoves.SwitchProgress | os161-1.99/kern/thread/thread.c:549-722 | a CPU inside thread_switch can always take its next step, and each brings it nearer to running a thread or being idle |
| ThreadMoves.CpuProgress | os161-1.99/kern/thread/thread.c:812-830 | outside thread_switch a CPU running a thread can switch, an idle one can look for a thread, and a migration can go on and end |
| ThreadMoves.HandProgress | os161-1.99/kern/thread/thread.c:439-470 | in every state that keeps the invariant, a thread being woken or forked gets its CPU and, unless that CPU's run queue is locked, its place there |
| ThreadProofs.WakeupHitsHome | os161-1.99/kern/thread/thread.c:437-468 | when a woken or forked thread joins a run queue it is that of its t_cpu, however long ago the waker read the field |
| ThreadProofs.SendStep | os161-1.99/kern/thread/thread.c:894-926 | re-homing a victim that is not the current thread keeps the invariant |
| ThreadProofs.SendingCurrentSharesStack | os161-1.99/kern/thread/thread.c:896-921 | without the test for the current thread, sending it to an idle CPU ends with two CPUs on one stack after four ordinary steps |
| ThreadProofs.TwoIdlePossible | os161-1.99/kern/thread/thread.c:861-921 | a run from boot reaches a state in which that can happen, by a migration that takes exactly the threads above its share, so the test is needed |
| Interrupts.StepKeeps | os161-1.99/kern/thread/spl.c:86-155 | every step of acquiring and releasing spinlocks, splhigh, splx and spl0, interrupts, exceptions, idling, thread creation and context switch keeps the counting invariant; what the calls have done when they return is stated in InterruptPairs |
| Interrupts.CountExact | os161-1.99/kern/thread/spl.c:86-155 | in every reachable state t_iplhigh_count of a running thread is its spl contribution plus the spinlock releases it still owes; interrupts are off exactly while it is positive, except, and only, in cpu_idle's window, where they are on with spl high and count one, and on entry to and return from an exception, where the processor has them off; a CPU that holds a spinlock has them off |
| Interrupts.SwitchedOutCount | os161-1.99/kern/thread/thread.c:522-533 | a thread that is not running has spl high and owes one release, for whichever CPU's run-queue lock it will find held |
| Interrupts.SwitchExact | os161-1.99/kern/thread/thread.c:652-710 | a context switch by a CPU that holds its run-queue lock keeps the invariant if and only if that is the only spinlock it holds, or the thread stays the same |
| Interrupts.SwitchWithTwoLocks | os161-1.99/kern/thread/thread.c:652-710 | a run reaches a switch with a second spinlock held, which breaks the invariant |
| Interrupts.SpinlockExclusive | os161-1.99/kern/thread/spinlock.c:76-131 | at most one CPU is between winning the test-and-set and clearing the lock word, and the word is set all that time |
| Interrupts.TrapAssertions | os161-1.99/kern/arch/mips/locore/trap.c:158-203 | an interrupt is taken with spl and count zero, or in cpu_idle's window with spl high and count one, where the recorded state is left alone; on either path spl is high and interrupts stay off until the handler returns, and count is then one exactly when it holds no spinlock, so all the assertions hold |
| InterruptPairs.Spl0Lowers | os161-1.99/kern/include/spl.h:94-100 | over every run, after spl0 t_curspl is IPL_NONE, the count is the number of spinlocks held, and interrupts are on if and only if that is none |
| InterruptPairs.SplhighRaises | os161-1.99/kern/include/spl.h:102-107 | after splhigh t_curspl is IPL_HIGH and interrupts are off, with one more call for splx to undo |
| InterruptPairs.SplxRestores | os161-1.99/kern/thread/spl.c:130-155 | the splx that matches a splhigh, wherever the thread runs by then and whatever happened in between, gives back the level and the count less the spinlocks acquired in between; with as many held as before, interrupts are on if and only if they were |
| InterruptPairs.LevelRestored | os161-1.99/kern/thread/spl.c:40-83 | the same for every kind of call: over any run between a splhigh, an interrupt or an exception and its matching end, the thread comes back to the level it entered at |
| InterruptPairs.InterruptReturns | os161-1.99/kern/arch/mips/locore/trap.c:158-203 | when mips_trap returns from an interrupt, level, count and stack are those it was taken with, interrupts are on, no spinlock is held, and a CPU that was in cpu_idle's window is in it again |
| InterruptPairs.ExceptionReturns | os161-1.99/kern/arch/mips/locore/trap.c:205-335 | when mips_trap returns from any other exception, level, count and stack are those it was taken with, and interrupts are on if and only if they were |
| InterruptPairs.ExceptionInSync | os161-1.99/kern/arch/mips/locore/trap.c:205-219 | while it handles the exception, after its splhigh and splx, interrupts are on if and only if they were on where it was taken |
| InterruptPairs.InterruptTaken | os161-1.99/kern/arch/mips/locore/trap.c:158-203 | a run from boot reaches a state with interrupts on, count zero and the idle window shut, takes an interrupt there that is adjusted for, returns, raises and restores the level, and takes and leaves an exception |
| InterruptPairs.WindowLeft | os161-1.99/kern/arch/mips/thread/cpu.c:164-224 | a run from boot goes into the idle loop's window, takes and leaves an interrupt there, shuts the window and leaves the idle loop by a switch |
| InterruptPairs.AcquireReturns | os161-1.99/kern/thread/spinlock.c:76-116 | spinlock_acquire returns with exactly that spinlock more, interrupts off, the count one more and level, thread and stack unchanged |
| InterruptPairs.ReleaseReturns | os161-1.99/kern/thread/spinlock.c:120-131 | spinlock_release returns with exactly that spinlock less and the count one less |
| InterruptPairs.CallGoesOn | os161-1.99/kern/thread/spinlock.c:76-131 | a CPU inside one of these calls can take its next step unless that is to win a spinlock whose word is set |
| InterruptPairs.CallProgress | os161-1.99/kern/thread/spinlock.c:76-131 | it takes no other step, and each brings the call nearer its end |
| InterruptPairs.StepHeld | os161-1.99/kern/thread/spinlock.c:76-131 | a spinlock comes to a CPU and leaves it by that CPU's own steps only |
| InterruptPairs.StepOthers | os161-1.99/kern/thread/spl.c:86-155 | a step of another CPU leaves a CPU's record, its current thread and its spinlocks alone |
| InterruptPairs.StepRoles | os161-1.99/kern/thread/thread.c:616-700 | which thread a CPU runs, c_isidle and cpu_idle's window change at the switch, at the start of the search for a thread and at the window's two ends only |
| Interrupts.WindowReached | os161-1.99/kern/arch/mips/thread/cpu.c:164-224 | a run reaches the window, with interrupts on, spl high and count one, and takes an interrupt in it |
| Semaphore.StepKeeps | os161-1.99/kern/thread/synch.c:94-148 | every step of P and V at spinlock granularity keeps the invariant; what the calls have done when they return is stated by PTakesOne and VAddsOne |
| Semaphore.CountConserved | os161-1.99/kern/thread/synch.c:94-148 | in every interleaving sem_count is the initial count plus the increments minus the decrements that the acts of the run are, counted thread by thread from what each act does at the program point it is taken at, and never negative |
| Semaphore.PTakesOne | os161-1.99/kern/thread/synch.c:94-134 | a call of P is either still pending, without a decrement, or has decremented once; it comes back only then, and never increments |
| Semaphore.VAddsOne | os161-1.99/kern/thread/synch.c:136-148 | a call of V comes back with exactly one increment and no decrement |
| Semaphore.CallsExact | os161-1.99/kern/thread/synch.c:94-148 | for every thread, calls of P are decrements done or pending and calls of V increments done or to come |
| Semaphore.CountAtRest | os161-1.99/kern/thread/synch.c:94-148 | when no call is in progress sem_count is the initial count plus the calls of V minus the calls of P |
| Semaphore.NoLostWakeup | os161-1.99/kern/thread/synch.c:108-126 | while any thread is asleep or committed to sleeping, sem_count does not exceed the threads woken but not yet rechecking plus the wakeups still to come |
| Semaphore.AsleepOnlyAtZero | os161-1.99/kern/thread/thread.c:1020-1051 | when nothing is in flight a thread is asleep only if the count is zero |
| Semaphore.Progress | os161-1.99/kern/thread/synch.c:94-148 | the hand-over-hand locking cannot deadlock: somebody inside P or V can always take a step, unless V's overflow assertion has fired |
| Semaphore.RestsInTime | os161-1.99/kern/thread/synch.c:94-148 | however the threads are scheduled, without new calls a run has at most seventeen steps for each thread: no livelock, however often threads are woken and go back to sleep |
| Semaphore.AtRest | os161-1.99/kern/thread/synch.c:94-148 | when no thread can go on, every thread is outside or asleep with sem_count zero, unless V's overflow assertion has fired |
| Semaphore.AgainAfterWakeup | os161-1.99/kern/thread/synch.c:108-130 | a thread tests sem_count again after a wakeup and only then |
| LockCv.StepKeeps | os161-1.99/kern/thread/synch.c:206-250 | every step of lock_acquire, lock_release, cv_wait, cv_signal and cv_broadcast keeps the invariant; what the calls have done when they return is stated by AcquireReturns, ReleaseReturns, WaitReturns and SignalReturns |
| LockCv.MutualExclusion | os161-1.99/kern/thread/synch.c:206-250 | in every reachable state at most one thread is between acquire and release, and lock_holder names it |
| LockCv.AcquireReturns | os161-1.99/kern/thread/synch.c:206-235 | over every run, lock_acquire comes back only as the holder |
| LockCv.ReleaseReturns | os161-1.99/kern/thread/synch.c:237-250 | lock_release comes back only outside, without the lock |
| LockCv.WaitReturns | os161-1.99/kern/thread/synch.c:310-323 | cv_wait comes back only as the holder, and only after it gave up the lock, waited without it, and was then taken off the channel by a signal or broadcast |
| LockCv.SignalReturns | os161-1.99/kern/thread/synch.c:325-347 | cv_signal and cv_broadcast come back as they were called, with the lock or without |
| LockCv.FreeLockHasHelper | os161-1.99/kern/thread/synch.c:216-221 | a free lock that somebody sleeps on, or is committed to sleeping on, has a woken thread or a wakeone still to come |
| LockCv.WaitingUntilWoken | os161-1.99/kern/thread/synch.c:310-323 | a thread that has given up the lock in cv_wait stays a waiter until a signal or broadcast takes it off the channel |
| LockCv.BroadcastFinds | os161-1.99/kern/thread/synch.c:337-347 | at the moment cv_broadcast empties the channel every waiter is on it, also one whose lock_release has only just happened, and becomes grabbed |
| LockCv.BroadcastReachesWaiter | os161-1.99/kern/thread/synch.c:310-347 | over a whole run, a thread that gave up the lock in cv_wait has been woken by the time any later broadcast is done |
| LockCv.SignalFinds | os161-1.99/kern/thread/synch.c:325-335 | cv_signal with any waiter about wakes the one queued longest |
| LockCv.Quiet | os161-1.99/kern/thread/synch.c:206-250 | when nobody inside an operation can move, every thread is outside, holds the lock, sleeps on a lock that some thread holds, or waits on the condition variable |
| LockCv.RestsInTime | os161-1.99/kern/thread/synch.c:206-347 | however the threads are scheduled, without new calls a run has at most thirty-two steps for each thread, after which Quiet says where they are |
| LockCv.AgainAfterWakeup | os161-1.99/kern/thread/synch.c:213-227 | a thread tests the holder again after a wakeup by a release and only then |
| PageRefs.ClearBit | os161-1.99/kern/vm/kmalloc.c:156-161 | the shifting mask finds the lowest clear bit of any word that is not full, so the assertion after the loop is not reached |
| PageRefs.AllocPageRef | os161-1.99/kern/vm/kmalloc.c:144-167 | returns the lowest unmarked descriptor and marks it and no other; NULL exactly when all 256 are in use |
| PageRefs.FreePageRef | os161-1.99/kern/vm/kmalloc.c:169-182 | clears the mark of that descriptor and no other |
| KmallocState.LiveApart | os161-1.99/kern/vm/kmalloc.c:395-509 | live blocks, subpage or whole-page, never overlap |
| KmallocState.RoomEnough | os161-1.99/kern/vm/kmalloc.c:601-619 | a live block has at least the size asked for if and only if that is at most 2^32 - 4096; above it the 32-bit page count wraps and the block has no room at all |
| KmallocRuns.NoRoomAtAll | os161-1.99/kern/vm/kmalloc.c:601-619 | on the empty heap a request for 2^32 - 1 bytes succeeds and gets a live block with no room |
| KmallocLists.FreelistIsFreeBlocks | os161-1.99/kern/vm/kmalloc.c:210-244 | following page j's freelist from freelist_offset ends after nfree blocks, which are distinct, aligned, inside the page and exactly the blocks that are not live; freelist_offset is INVALID_OFFSET if and only if nfree is 0 |
| KmallocLists.ListsAreTheMarks | os161-1.99/kern/vm/kmalloc.c:250-277 | following allbase ends and visits exactly the descriptors marked in pagerefs_inuse, each once; following a sizebases entry visits exactly those of its own block type |
| KmallocSteps.PopKeeps | os161-1.99/kern/vm/kmalloc.c:426-444 | taking the first block of a freelist keeps the heap invariant |
| KmallocSteps.PushKeeps | os161-1.99/kern/vm/kmalloc.c:562-575 | overwriting a freed block and linking it in front of its page's freelist keeps the heap invariant |
| KmallocSteps.InstallKeeps | os161-1.99/kern/vm/kmalloc.c:479-505 | putting a fresh page to use, with its freelist threaded, keeps the heap invariant |
| KmallocSteps.DropKeeps | os161-1.99/kern/vm/kmalloc.c:577-583 | taking a page off both lists and clearing its mark keeps the heap invariant |
| KmallocLive.WriteKeeps | os161-1.99/kern/vm/kmalloc.c:395-509 | a client writing anywhere inside its own live block keeps the heap invariant |
| KmallocLive.FoundPage | os161-1.99/kern/vm/kmalloc.c:534-556 | a live pointer that lies in a managed page is one of that page's live blocks, properly aligned: a whole-page allocation is never taken for a subpage one, and the alignment panic is not reached |
| KmallocLive.LastBlockFreed | os161-1.99/kern/vm/kmalloc.c:571-577 | nfree reaches the number of blocks per page exactly when the last live block of the page is freed, and never exceeds it |
| Kmalloc.FindBlockType | os161-1.99/kern/vm/kmalloc.c:377-393 | the first block size that is large enough |
| Kmalloc.Allocator.constructor | os161-1.99/kern/vm/kmalloc.c:141-188 | the all-zero tables are a valid heap with nothing live |
| Kmalloc.Allocator.DoAlloc | os161-1.99/kern/vm/kmalloc.c:424-449 | a block that was not live becomes live with the size asked for, no other block is affected, and the assertions on freelist_offset, nfree and the next link hold |
| Kmalloc.Allocator.TryAlloc | os161-1.99/kern/vm/kmalloc.c:411-452 | a block from a page of the right type that has room; 0, with nothing changed, only if every such page is full |
| Kmalloc.Allocator.ThreadFreelist | os161-1.99/kern/vm/kmalloc.c:487-499 | the loop threads all blocks of the page, last first, ending in NULL, and writes nowhere else |
| Kmalloc.Allocator.AddPage | os161-1.99/kern/vm/kmalloc.c:471-505 | the page joins both lists under its own type with all blocks free; with no descriptor left nothing changes |
| Kmalloc.Allocator.RemoveSame | os161-1.99/kern/vm/kmalloc.c:352-366 | the descriptor leaves the list of its type, the other lists and all other fields stay |
| Kmalloc.Allocator.RemoveAll | os161-1.99/kern/vm/kmalloc.c:368-374 | the descriptor leaves allbase, the sizebases links and all other fields stay |
| Kmalloc.Allocator.FillDeadbeef | os161-1.99/kern/vm/kmalloc.c:40-50 | every word of the block becomes 0xdeadbeef and nothing outside it changes |
| Kmalloc.Allocator.PutBack | os161-1.99/kern/vm/kmalloc.c:558-576 | the block goes from live to free and is overwritten with 0xdeadbeef behind its freelist link; contents of all other live blocks are untouched |
| Kmalloc.Allocator.FreeSection | os161-1.99/kern/vm/kmalloc.c:511-589 | finds the block if and only if it is a subpage block, frees it and no other, and empties the page out of the lists exactly when it was the only live block there |
| Kmalloc.Allocator.Others | os161-1.99/kern/vm/kmalloc.c:454-468 | any steps of other threads while the spinlock is not held make a run: each is a step of KmallocRuns.Did with its result, and the page or block this thread is working on keeps its role |
| KmallocRuns.StepSpares | os161-1.99/kern/vm/kmalloc.c:395-634 | an atomic step leaves every live block that its thread does not free or write live, with its size and contents |
| KmallocRuns.RunSpares | os161-1.99/kern/vm/kmalloc.c:395-634 | over any run of steps of any threads, a live block that none of them frees or writes stays live, with its size and contents, up to every state on the way |
| KmallocRuns.RunNothingNew | os161-1.99/kern/vm/kmalloc.c:395-634 | over any run, a block that is live later was live before or is the result of one of the steps between |
| KmallocRuns.RunKeepsRole | os161-1.99/kern/vm/kmalloc.c:454-468 | over any steps of other threads, the page or block a waiting thread is working on stays its own |
| Kmalloc.Allocator.SubpageKmalloc | os161-1.99/kern/vm/kmalloc.c:395-509 | the call is a run of its own steps and the others' between them, stopping at the first that settles it; the result is NULL or a live block of the size asked for; undisturbed, exactly one block is gained or none, live contents are untouched and no page is leaked |
| Kmalloc.Allocator.Kmalloc | os161-1.99/kern/vm/kmalloc.c:601-619 | the same for kmalloc, with one step for whole-page allocations from 2048 bytes up; the block has exactly the room of the first block size that is large enough, or of the page count |
| KmallocRuns.KmallocSpares | os161-1.99/kern/vm/kmalloc.c:395-619 | whatever others do meanwhile, a call of kmalloc leaves every live block that they do not free or write live, with its size and contents |
| Kmalloc.Allocator.Kfree | os161-1.99/kern/vm/kmalloc.c:511-634 | the call is a run: its critical section, then any steps of others, then the return of the page exactly when it held no other live block; for a whole-page block the others' steps and then its return; undisturbed, the block and no other is no longer live and other contents are untouched; NULL changes nothing |
| KmallocRuns.KfreeSpares | os161-1.99/kern/vm/kmalloc.c:511-634 | whatever others do meanwhile, a call of kfree leaves every other live block that they do not free or write live, with its size and contents |
| KmallocRuns.KfreeFreesSub | os161-1.99/kern/vm/kmalloc.c:511-589 | afterwards a subpage block is not live, unless another thread has been given it meanwhile, and a page it left without live blocks is back with the page allocator |
| KmallocRuns.KfreeFreesBig | os161-1.99/kern/vm/kmalloc.c:621-634 | afterwards a whole-page block is not live and its pages are back with the page allocator |
| Kmalloc.Session | os161-1.99/kern/vm/kmalloc.c:395-634 | any sequence of steps of any threads from the empty heap is a run that does exactly those steps; at its end live blocks are pairwise disjoint, each came out of one of the steps, and each has at least the size asked for, up to 2^32 - 4096 |
| Migration.Cpus.Acquire | os161-1.99/kern/thread/thread.c:863-893 | before a lock is taken the other CPUs do exactly the steps given for it that are possible then: threads join any queue and leave the other queues at either end; the own queue only grows |
| Migration.Cpus.CountAll | os161-1.99/kern/thread/thread.c:861-871 | every CPU's lock is taken once, in order, and its queue looked at under it; the sums are the lengths seen, and the own count never exceeds the own queue's length afterwards |
| Migration.Cpus.TakeVictims | os161-1.99/kern/thread/thread.c:878-885 | the last to_send threads leave the own queue in order; the queue is never empty when popped |
| Migration.Cpus.SendTo | os161-1.99/kern/thread/thread.c:887-937 | under one queue's lock the next victims, other than the current thread, go to its end in order with t_cpu set, up to the share; the victims are never empty when popped |
| Migration.Cpus.SendAll | os161-1.99/kern/thread/thread.c:887-938 | for each other CPU in order its lock is taken, until nothing is left to send; undisturbed, all victims but the current thread are placed, since n shares are at least the total |
| Migration.Cpus.PutBack | os161-1.99/kern/thread/thread.c:945-951 | the leftovers return to the own queue in order, with t_cpu unchanged |
| Migration.AllSent | os161-1.99/kern/thread/thread.c:873-887 | if every queue has its share and the total is at most n shares, nothing is left over |
| Migration.Cpus.ConsiderMigration | os161-1.99/kern/thread/thread.c:852-955 | the locks taken are those for counting, then, if the own count is not below the share, the own one, those of the queues visited, and the own one again if threads are put back; before each of them the others do exactly what is given for it, and every access to a queue is under the lock taken for it; threads queued at the end plus those that left are those at the start plus those that joined, each once and with t_cpu naming its queue; the share is that of the lengths seen and as many threads are taken as were seen above it; no queue at or above the share is added to, threads are put back only when every other queue has been found with its share or only the current thread is left, and the current thread, if queued here, still is; undisturbed, a CPU below its share changes nothing, one above keeps exactly ceil(total / numcpus) threads, the front of its queue, plus its current thread if that was among the rest, the rest go to the others in order, and no queue is raised above the share |
| Migration.OthersOnTime | os161-1.99/kern/thread/thread.c:861-951 | over any such call the others' steps are those given for the locks taken, in order, and no more |
| Migration.Conserved | os161-1.99/kern/thread/thread.c:852-955 | over any sequence of the migrating CPU's moves and the others' steps, threads queued or in its hands, plus those that left, are those at the start plus those that joined |
| Migration.RunKeeps | os161-1.99/kern/thread/thread.c:852-955 | over any such sequence no thread is in two places and t_cpu names the queue a thread is on |
| Migration.CurrentStays | os161-1.99/kern/thread/thread.c:896-921 | while threads go only to queues below the share and never the current one, the current thread stays on its own CPU |
| RingQueue.RingPush | os161-1.99/kern/lib/queue.c:97-106 | writing at nextwrite and advancing it round the buffer appends to the sequence it holds |
| RingQueue.GrownSize | os161-1.99/kern/lib/queue.c:31-36 | the doubling loop ends at the first doubling that reaches the target, or stops at the assertion exactly when that overflows an int |
| RingQueue.Queue.Grow | os161-1.99/kern/lib/queue.c:17-51 | a growth that succeeds keeps contents and order in the block kmalloc gives for the byte count in 32-bit arithmetic; a failed one changes nothing; copying overruns the new block exactly when it has fewer slots than there are elements |
| RingQueue.Queue.AddTail | os161-1.99/kern/lib/queue.c:90-108 | appends, or changes nothing when a growth that is needed fails, and reports a write past the end of the block; the outcome is that of RingQueue.Act |
| RingQueue.AddExact | os161-1.99/kern/lib/queue.c:90-108 | for every queue, appending overruns the block if and only if the queue is full, there is memory and the doubled size is above 2^30 - 1024, or the queue is already larger than that and its write position is at the end of the block |
| RingQueue.Queue.RemHead | os161-1.99/kern/lib/queue.c:110-121 | removes and returns the first element |
| RingQueue.Queue.Preallocate | os161-1.99/kern/lib/queue.c:70-81 | keeps the contents unless the new block is overrun; on success the size is at least the one asked for |
| RingQueue.ReserveExact | os161-1.99/kern/lib/queue.c:70-81 | a preallocation that had to grow and reports success has the room asked for if and only if the new size is at most 2^30 - 1024 |
| RingQueue.SlotsExact | os161-1.99/kern/lib/queue.c:37 | the block kmalloc gives for n pointers, with the byte count and the page count in 32 bits, has room for them if and only if n is at most 2^30 - 1024 |
| RingQueue.TooSmall | os161-1.99/kern/lib/queue.c:53-67 | a queue of 2^30 - 1 elements is created with no room at all and the first addition overruns it; one of 2^30 asks for 0 bytes, gets 16, and the fifth addition overruns it |
| RingQueue.NeverOverruns | os161-1.99/kern/lib/queue.c:70-121 | over any sequence of operations that holds at most 2^29 - 512 elements and preallocates no more, no operation overruns |
| RingQueue.Queue.constructor | os161-1.99/kern/lib/queue.c:53-67 | for every int, the size asked for and the block kmalloc gives for it; for a positive one an empty queue |
| RingQueue.Queue.Peek | os161-1.99/kern/lib/queue.c:160-174 | the first element, or nothing for an empty queue |
| RingQueue.Queue.Len | os161-1.99/kern/lib/queue.c:176-186 | the counting loop ends with the length of the sequence |
| RingQueue.Run | os161-1.99/kern/lib/queue.c:70-121 | any sequence of operations has exactly the outcomes, additions, removals and final contents of RingQueue.RunOf, where a failed assertion or an overrun ends the run |
| RingQueue.Fifo | os161-1.99/kern/lib/queue.c:70-121 | over any sequence of operations, what was in the queue followed by what was added is what was removed followed by what is left |
| ThreadList.InsertAfterNode | os161-1.99/kern/thread/threadlist.c:105-120 | the pointer writes insert the node after a given one; prev and next stay inverse along the whole row |
| ThreadList.InsertBeforeNode | os161-1.99/kern/thread/threadlist.c:125-140 | the same before a given node |
| ThreadList.RemoveNode | os161-1.99/kern/thread/threadlist.c:145-157 | the node is taken out of the row and left unlinked |
| ThreadList.List.constructor | os161-1.99/kern/thread/threadlist.c:60-72 | two bookends and nothing between them |
| ThreadList.List.IsEmpty | os161-1.99/kern/thread/threadlist.c:91-97 | tl_count is 0 exactly when the sequence is empty |
| ThreadList.List.AddHead | os161-1.99/kern/thread/threadlist.c:162-170 | the sequence gains the thread at its front |
| ThreadList.List.AddTail | os161-1.99/kern/thread/threadlist.c:172-180 | the sequence gains the thread at its end |
| ThreadList.List.RemHead | os161-1.99/kern/thread/threadlist.c:182-198 | the first thread leaves the sequence and is unlinked; NULL exactly when the list was empty, which the bookends reveal |
| ThreadList.List.RemTail | os161-1.99/kern/thread/threadlist.c:200-216 | the same at the end |
| ThreadList.List.InsertAfter | os161-1.99/kern/thread/threadlist.c:218-224 | insertion behind a thread on the list |
| ThreadList.List.InsertBefore | os161-1.99/kern/thread/threadlist.c:226-232 | insertion in front of a thread on the list |
| ThreadList.List.Remove | os161-1.99/kern/thread/threadlist.c:234-240 | removal from the middle |
| ThreadList.MoveOne | os161-1.99/kern/thread/threadlist.c:172-198 | one thread goes from the front of one list to the end of another; a list that shares no node with them is untouched |
| ThreadList.MoveAll | os161-1.99/kern/thread/thread.c:1068-1076 | draining one list into another appends all its threads in order; a third list is untouched |
| Text.NumeralDecimal | os161-1.99/common/libc/printf/__printf.c:426-446 | the digits produced for a number in base 10 stand for that number |
| Text.NumbersFit | os161-1.99/common/libc/printf/__printf.c:76-84 | every 64-bit number in base 8 to 16 fits NUMBER_BUF_SIZE with its terminator, and the largest one in octal fills it completely |
| Text.FieldLength | os161-1.99/common/libc/printf/__printf.c:352-391 | the printed length of a field is its width or its natural length, whichever is larger |
| Text.WidthExact | os161-1.99/common/libc/printf/__printf.c:199-226 | the field width is the number its digits spell if and only if that is an int; beyond that the int wraps |
| Text.WidthFits | os161-1.99/common/libc/printf/__printf.c:199-226 | while the digits spell an int, they are the width and zero padding is asked for exactly by a leading 0 |
| Text.WidthLost | os161-1.99/common/libc/printf/__printf.c:199-226 | a width of 4294967296 pads nothing |
| Printf.FlagsStep | os161-1.99/common/libc/printf/__printf.c:178-228 | reading the modifiers one at a time gives what they ask for as a whole; every second l asks for 64 bits |
| Printf.NumberText | os161-1.99/common/libc/printf/__printf.c:402-454 | the right-to-left loop leaves exactly the numeral of the number, which Reading.NumeralReads pins to the number, and never leaves the buffer |
| Printf.Pf.GetNum | os161-1.99/common/libc/printf/__printf.c:235-298 | the magnitude and sign of the next argument at the size asked for, the most negative number included |
| Printf.Pf.PrintStuff | os161-1.99/common/libc/printf/__printf.c:352-391 | prefixes, padding and text come out in the order the flags ask for |
| Printf.Pf.PrintNum | os161-1.99/common/libc/printf/__printf.c:400-478 | a numeric field prints sign, base prefix, padding and numeral as its modifiers ask |
| Printf.Pf.Convert | os161-1.99/common/libc/printf/__printf.c:511-549 | each conversion prints its field, uses up its argument and resets the state |
| Printf.Pf.SendChar | os161-1.99/common/libc/printf/__printf.c:483-550 | one format character prints its share of what the whole format means |
| Printf.Pf.Vprintf | os161-1.99/common/libc/printf/__printf.c:557-575 | the text sent is what the format means for these arguments, and the result is its length as an int holds it |
| Printf.Snp.Send | os161-1.99/common/libc/printf/snprintf.c:73-93 | the buffer holds the first buflen characters of everything sent, however it is cut into pieces, and is untouched beyond |
| Printf.Vsnprintf | os161-1.99/common/libc/printf/snprintf.c:98-142 | the buffer gets exactly the first min(len - 1, total) characters of the untruncated text and a NUL, nothing if len is 0, and the result is the untruncated total, as an int; section 7.19.6.5 of C99 |
| Reading.NumeralReads | os161-1.99/common/libc/printf/__printf.c:405-446 | in every base from 2 to 16 a numeral, read positionally with the value of each digit taken from its character alone, is the number; its characters are digits below the base, and only 0 starts with a 0 |
| Reading.NumeralOnly | os161-1.99/common/libc/printf/__printf.c:405-446 | a numeral in digits below the base without a leading zero is the one printed for its value |
| Reading.FieldShape | os161-1.99/common/libc/printf/__printf.c:352-478 | a numeric field is its number with a minus if it is negative, 0x for %p and %#x, 0 for %#o, padded on the side and with the character its modifiers ask for |
| Reading.FieldReads | os161-1.99/common/libc/printf/__printf.c:235-478 | what stands in a %d, %u, %o, %x or %p field after padding, sign and prefix reads, in base 10, 8 or 16, as the argument modulo 2^32 or 2^64, signed for %d, if and only if it is not the case that the field is left-aligned with zeros, wider than the number, and the number is not 0 |
| Reading.PrintAndScan | os161-1.99/common/libc/printf/snprintf.c:98-142 | the same through a buffer: what snprintf left in one with room for the field |
| Reading.TextField | os161-1.99/common/libc/printf/__printf.c:511-549 | %s prints its string or (null), %c its character, any other conversion itself, at the left or right end of the field |
| Reading.FieldFirst | os161-1.99/common/libc/printf/__printf.c:483-550 | a format prints its first field, from the first argument, and then what the rest prints from the other arguments |
| Reading.OtherFirst | os161-1.99/common/libc/printf/__printf.c:483-550 | a conversion that is not numeric, a string or a character takes no argument |
| Reading.PlainFirst | os161-1.99/common/libc/printf/__printf.c:483-500 | text outside fields prints itself |
| Atoi.Atoi | os161-1.99/common/libc/stdlib/atoi.c:49-101 | blanks, sign and the longest run of digits read as a number modulo 2^32; the rest is ignored |
| Atoi.ReadText | os161-1.99/common/libc/stdlib/atoi.c:49-101 | a text of blanks and tabs, a minus, a plus or no sign, digits and anything else reads as the number the digits spell, negated after a minus, modulo 2^32; without digits it reads as 0 |
| Atoi.EveryText | os161-1.99/common/libc/stdlib/atoi.c:49-101 | every text has these parts, so that covers all inputs |
| Atoi.OddFactor | os161-1.99/common/libc/stdlib/atoi.c:88-96 | an odd factor does not help divisibility by a power of two, so appending zeros to a nonzero number changes it even modulo 2^32 |
| Atoi.PrintThenRead | os161-1.99/common/libc/stdlib/atoi.c:49-101 | for every int x and all modifiers, atoi of what %d prints is x if and only if it is not the case that the field is left-aligned, padded with zeros, wider than the number, and x is not 0 |
| Atoi.PrintAndRead | os161-1.99/common/libc/printf/snprintf.c:98-142 | the same through a buffer: atoi of what snprintf left there reads the part of the field that fits, and when all of it fits the condition is exact |
| Atoi.SevenIsLost | os161-1.99/common/libc/printf/__printf.c:387-390 | %-05d of 7 does not read back as 7 |
| Uio.AdvanceTwice | os161-1.99/kern/lib/uio.c:58-117 | using up a bytes of the buffers and then b leaves the same iovecs as using up a + b |
| Uio.MovedTwice | os161-1.99/kern/lib/uio.c:83-116 | where buffers and bytes do not overlap, one transfer followed by the next is one transfer of both |
| Uio.MovedOnce | os161-1.99/kern/lib/uio.c:83-116 | memory after a transfer is determined by memory before |
| Uio.Transfer.Kinit | os161-1.99/kern/lib/uio.c:152-165 | one buffer whose length is uio_resid |
| Uio.Transfer.MoveChunk | os161-1.99/kern/lib/uio.c:83-116 | one turn moves a chunk between ptr and the front of the first buffer, the way uio_rw says |
| Uio.Transfer.DropEmpty | os161-1.99/kern/lib/uio.c:67-81 | an empty buffer met while uio_resid is positive is not the last one, so the panic is not reached |
| Uio.Transfer.Uiomove | os161-1.99/kern/lib/uio.c:41-120 | exactly min(n, uio_resid) bytes move, in order, across any number of possibly empty iovecs; uio_offset + uio_resid stays the same and the iovec lengths again sum to uio_resid; memory is that after one memmove for each buffer, also where buffers overlap, and where they do not, each byte is the one it was copied from; a copy of user memory that fails ends the call, if it is reached, with exactly the bytes of the copies before it counted |
| Uio.GoEnough | os161-1.99/kern/lib/uio.c:58-117 | with uio_resid at least the size of the buffers, what there is of them is used, and the call panics if and only if more is asked for and uio_resid is larger than they are |
| Uio.GoShort | os161-1.99/kern/lib/uio.c:58-117 | with uio_resid below the size of the buffers, it is respected if and only if no more is asked for or it falls between two buffers; otherwise it wraps round below zero and the rest of the buffers is used, with a panic exactly if more is asked for than all of them hold |
| Uio.WrongResid | os161-1.99/kern/lib/uio.c:58-117 | two bytes asked of one byte said to be two panic, and of two bytes said to be one leave uio_resid at 2^32 - 1 |
| Uio.GoRight | os161-1.99/kern/lib/uio.c:58-117 | with uio_resid the size of the buffers, neither happens: that bookkeeping is uiomove's own |
| Uio.Transfer.Uiomovezeros | os161-1.99/kern/lib/uio.c:122-146 | the next min(n, uio_resid) bytes of the buffers, which may overlap each other, become zero and nothing else changes |
| Uio.MoveInTwo | os161-1.99/kern/lib/uio.c:41-120 | moving a bytes and then b leaves the same uio as moving a + b at once, and the same memory if the stop is between two copies or within one whose target does not start inside its source, and where nothing overlaps |
| Uio.TransferredTwice | os161-1.99/kern/lib/uio.c:58-117 | for any overlap, two calls leave the memory one does if the stop is between two copies or within one whose target does not start inside its source |
| Uio.BoundarySplit | os161-1.99/kern/lib/uio.c:58-117 | a stop between two buffers is always such |
| Uio.SplitExact | os161-1.99/kern/lib/uio.c:83-95 | within the first buffer two calls leave the memory one does, whatever it was, if and only if the target does not start inside the source |
| Uio.SplitAddresses | os161-1.99/kern/lib/uio.c:58-117 | for any buffers and any overlap, two calls leave the memory one does, whatever it was, if and only if they bring the bytes of the same addresses to the same places |
| Uio.SplitShows | os161-1.99/kern/lib/uio.c:83-95 | two bytes moved up by one place, at once and byte by byte, differ |

## Left out

- DivRem.QDivRem: the divide-by-zero trap is left to the caller, who must pass v > 0; the half-word size is fixed at 16 bits.
- ThreadProofs.NoSharedStack: stack switching itself is one step, without registers and stack contents.
- Migration.Cpus.CountAll: thread counts are unbounded integers; they would wrap only with 2^32 queued threads.
- Uio.Transfer.Uiomove: when a copy fails, memory is stated only for buffers that overlap neither each other nor the bytes at ptr.
- Uio.Transfer.Uiomovezeros: only when no copy fails.
- LockCv.BroadcastReachesWaiter: one lock and one condition variable; several of them share nothing.
- ThreadProofs.ExactlyOnePlace: fork's stack allocation, process attachment and names are not modelled, nor are IPIs beyond the fact that an idle CPU may wake at any time.
- Liveness of a single thread under a fair scheduler is not stated; that semaphores, locks and condition variables come to rest without lost wakeups, deadlock or livelock is.
- Creation and destruction of semaphores, locks and condition variables, which only allocate and free.
- The debugging printouts of kmalloc.c, queue.c and the assertion code that is compiled out there; what it would assert is part of what is proved.
- Virtual memory, the file system, processes, system calls and the console.
- One-line arithmetic helpers (shifts, comparisons, negation), bitmaps, arrays, string and memory functions, which would only add easy members.
