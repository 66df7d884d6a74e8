# NURL runtime and kernels: a verification model

This project models six cores of the NURL repository and proves what each of them is for.

* **The cooperative runtime** (`unikernel/runtime_bare.c`). Coroutines on one execution context: a run
  queue, a sorted timer list, park and unpark with a banked permit, mutexes, condition variables, joins,
  detaches, the drain of `runtime_run`, and a first-come reader-writer lock. `SchedCore` holds the states,
  queues and timers and their moves; `RwLock` is one reader-writer lock on its own; `Runtime` puts them
  together as a machine whose steps are the stretches between switch points, and `RuntimeSteps` and
  `RuntimeRuns` prove what every step keeps and what follows for every run. `SchedMoves` and `RuntimeMoves`
  take every step apart into moves of the scheduler, so that they can say who is woken by what and when a
  deadline can end a park; `RuntimeLocks` says what each blocking call has when it returns, mutual exclusion
  over runs first; `RuntimeEnds` how coroutines end and that none is leaked. A scheduler step may pick any
  queued coroutine, so the proofs cover the FIFO build and the seeded one. `SchedLinks` (class `Sched`) has
  the pointers the C code has, one `next` link for every queue and a separate one for timers; `RuntimeCalls`
  (class `Bare`), `RwCalls` (class `RwBare`) and `HolderRecord` (class `Record`) are the API calls on those
  fields, each proved to take the step the machine takes.
* **The locked heap** (`stdlib/runtime_wasm_alloc.c`). `WaFreeList` is the address-ordered list as a value,
  `WaTiling` who owns which byte, `WaLinks` and `WaStates` the list as links in memory, `WaHeap` (class
  `Heap`) the code. `FutexLock` is the three-state lock under any number of threads.
* **X25519** (`bench/x25519.c`). `Field25519`, `Encode25519` and `X25519`: radix 2^51 limbs in one shared
  array, with lazy carries, up to section 5 of RFC 7748. `Montgomery` says what that ladder computes: the curve's
  own doubling and differential addition, added up to the multiple the clamped scalar names.
* **The Montgomery kernels** (`tools/gen_rsa_kernels.py`, `tools/gen_rsa_adx16.py`). Both files are small
  compilers. `MontKernels` and the `Adx*` modules have the emission loops, the emitted instructions with an
  interpreter, and the proof of the emitted program for every width.
* **Poly1305** (`bench/poly1305.c`), up to section 2.5 of RFC 8439.
* **Two smaller ones**: the IR normaliser of `tools/sweep_classify.py` (`SweepDead` drops dead code,
  `SweepMeaning` shows that nothing observable goes, `SweepNormal` numbers the registers, `SweepText` has the
  lines as text, cut and rewritten) and the Bloom-filtered join of `bench/hash_join.c` (`HashJoin`).

`Words`, `Columns` and `Options` are helpers: machine words, little-endian numbers and column sums. Words
are naturals; every place where C wraps or truncates says so (`U64`, `U128`, `% M`), so a proof that the
number stays small is a proof that nothing overflows.

Where the code falls short of what it promises, the model keeps the code and says exactly when the promise
holds:

* `aligned_alloc` computes in 32 bits. When size, alignment and header add up past 2^32, malloc is asked for too
  little; and a request of no bytes at the very end of a full memory computes the address 0. `WaHeap.Heap.AlignedAlloc`
  and `WaStates.AlignedFits` say that the result is an aligned block of the size asked for if and only if neither
  happens; `WaStates.AlignedWraps`, `WaStates.AlignedNull` and `WaStates.AlignedNullReached` are requests where one does.
* `nurl_rwlock_rdunlock` and `nurl_rwlock_wrunlock` trust their caller. `RwLock.RdUnlockExact` and
  `RwLock.WrUnlockExact` say exactly which calls leave the lock sound and everybody else's hold in place;
  `RwLock.RdUnlockTwice`, `RwLock.WrUnlockForeign` and `RwLock.WrUnlockGranted` are calls that do not.
* `nurl_fiber_unpark` on a coroutine that waits in a mutex, condition or lock queue puts it on two lists through
  one link. `SchedCore.UnparkExact` says that this is the only way for it to break the partition, and
  `RuntimeRuns.UnparkQueued` is a run from boot to a state where it does.
* `same` compares text, and a body may already have text like `%v0` in it. `SweepText.NormaliseExact` says that
  without such text in either body the answer is right; `SweepText.RenamingExact` says for any bodies what is
  missing from it; `SweepText.SwappedOperands` and `SweepText.SwappedStore` are pairs it takes for the same that are
  not, and `SweepText.NormaliseTwice` says that every body with a register left has such a partner.

What the model takes from callers and surroundings, as preconditions or in `Runtime.Asked`:

* unpark and wake handles name coroutines parked through the park calls; each joinable handle is joined or
  detached once, and not by itself; a reader-writer lock is released by who holds it, and a coroutine releases
  its locks before it ends;
* `nurl_panic` does not return; the clock does not go back and `nanosleep` sleeps at least as long as asked
  (`SchedCore.Slept`);
* `memory.grow` is a parameter: it fails, or answers a page number past everything given out before;
* blocks handed to realloc are live, and those handed to free are live or still say in their header that they are
  free; kernels have 2n < 2^64 limbs; for the ADX kernels n is a positive
  multiple of 8, and all kernels get n0 = -1/m mod 2^64.

## Model

| member | source | states |
|---|---|---|
| Poly1305.PolyBlock | bench/poly1305.c:39-59 | one block: h becomes (h + block + pad 2^128) r modulo 2^130 - 5, with h2 back below its bound; no 64- or 128-bit sum overflows |
| Poly1305.Multiply | bench/poly1305.c:47-49 | the three column sums are exact: none leaves its 128 bits, nor the top one its 64 |
| Poly1305.FoldColumns | bench/poly1305.c:51-58 | carrying and folding 2^130 to 5 changes the number by a multiple of p and leaves h2 at most 4 |
| Poly1305.Clamp | bench/poly1305.c:63-65 | the two masked words are the clamped r of RFC 8439, with the bounds and the divisibility by 4 that the multiply relies on |
| Poly1305.ClampIs | bench/poly1305.c:63-65 | the mask clears the top four bits of bytes 3, 7, 11, 15 and the low two of bytes 4, 8, 12 of r, and nothing else |
| Poly1305.TailWords | bench/poly1305.c:74-86 | the tail loop builds the short block's number, bytes then marker, for every length from 1 to 15 |
| Poly1305.AbsorbMessage | bench/poly1305.c:68-88 | after the message loop and the tail, h is the RFC accumulator of the whole message modulo p, whatever its length |
| Poly1305.FinalSubtract | bench/poly1305.c:91-98 | the one masked subtraction is a full reduction: the residue modulo p, of which the low 128 bits are kept |
| Poly1305.AddKey | bench/poly1305.c:101-107 | the tag bytes are the sum with s modulo 2^128 |
| Poly1305.Poly1305Mac | bench/poly1305.c:62-108 | for every key and every message the tag is the MAC of section 2.5 of RFC 8439 |
| Poly1305.AccumulateIsPolynomial | bench/poly1305.c:70-88 | the Horner loop evaluates the polynomial whose coefficients are the padded blocks, at r modulo p |
| Poly1305.MacIsPolynomial | bench/poly1305.c:61-108 | the tag is (sum of padded blocks times powers of r, modulo 2^130 - 5) + s, modulo 2^128 |
| Words.LoadLe64 | bench/poly1305.c:32-36 | the or-and-shift loop reads a little-endian number |
| Field25519.CarryOut | bench/x25519.c:80-103 | column sums within the multiply's bounds become 51-bit limbs of the same residue, without overflow, other limbs untouched |
| Field25519.MulSums | bench/x25519.c:107-114 | the five columns, with 19-fold wrap-around, are the product modulo p and stay inside 128 bits |
| Field25519.SqSums | bench/x25519.c:120-127 | the columns with cross terms doubled once are the square modulo p and stay inside 128 bits |
| Field25519.FMul | bench/x25519.c:106-116 | for all loose inputs, aliased or not, o is the product modulo p in tight limbs |
| Field25519.FSq | bench/x25519.c:119-129 | the same for the square |
| Field25519.FAdd | bench/x25519.c:66-68 | the sum modulo p of tight inputs, in limbs the next multiply can absorb, also in place |
| Field25519.FSub | bench/x25519.c:71-77 | the difference modulo p of tight inputs: adding 2p first, no limb underflows, also in place |
| Encode25519.Unpack25519 | bench/x25519.c:180-186 | the overlapping windows decode the 32 bytes modulo 2^255 |
| Encode25519.TwoPasses | bench/x25519.c:191-202 | two carry passes bring limbs below 2^63 to 51 bits, same residue |
| Encode25519.Canonical | bench/x25519.c:203-227 | the offset by 19 and the dropped bit 255 leave the unique representative below p |
| Encode25519.Pack25519 | bench/x25519.c:189-238 | the bytes are the canonical little-endian encoding of the element modulo p |
| Encode25519.PackUnpack | bench/x25519.c:180-238 | pack after unpack reduces modulo p, and is the identity exactly on strings below p |
| Encode25519.DecodeScalarIs | bench/x25519.c:243-245 | the decoded scalar is the string's number with its low three bits and its bits from 254 on replaced: 2^254 + n mod 2^254 - n mod 8 |
| Encode25519.ScalarRange | bench/x25519.c:243-245 | it is a multiple of 8 from 2^254 up and below 2^255, for every string |
| Encode25519.ScalarBits | bench/x25519.c:243-245 | and its bits 3 to 253 are those of the string |
| X25519.Sel25519 | bench/x25519.c:56-63 | the xor-and-mask loop swaps two elements when the bit is 1, and nothing otherwise |
| X25519.FSqN | bench/x25519.c:136-138 | n squarings raise to the power 2^n |
| X25519.Inv25519 | bench/x25519.c:141-171 | the addition chain's exponent is exactly p - 2 = 2^255 - 21; only scratch elements and io change |
| X25519.LadderStep | bench/x25519.c:256-278 | the in-place loop body is the step of RFC 7748 between two swaps; every limb bound it needs it leaves again |
| X25519.EagerIsLazy | bench/x25519.c:255-279 | for every scalar, the ladder that swaps back at once agrees with the RFC's, which carries its swap over |
| X25519.Ladder | bench/x25519.c:255-279 | over all 255 steps the four points in the array are those of the ladder, and no limb over- or underflows |
| X25519.Clamp | bench/x25519.c:243-245 | the three byte operations leave the bytes of decodeScalar25519, whose number, range and bits the three `Encode25519` lemmas above give |
| X25519.X25519 | bench/x25519.c:242-283 | for every scalar and u-coordinate the bytes are X25519 of RFC 7748: x2 z2^(p-2), packed; the scratch may hold anything |
| Montgomery.StepOnCurve | bench/x25519.c:256-278 | the loop body doubles the first point, x' = (x^2 - z^2)^2 and z' = 4xz(x^2 + 486662xz + z^2), and adds the second to it by differential addition, modulo p |
| Montgomery.LadderMultiplies | bench/x25519.c:255-279 | after bits 254 down to t of a clamped scalar the two points are the multiples its top bits name and the one after, by halving |
| Montgomery.X25519Multiplies | bench/x25519.c:242-283 | so for every scalar string and coordinate the result is the coordinate of the multiple the clamped scalar names |
| MontKernels.MulKernel | tools/gen_rsa_kernels.py:15-43 | the emission loops produce the column program, for every n |
| MontKernels.SqrKernel | tools/gen_rsa_kernels.py:45-81 | the same for the square, whose columns have each cross product once |
| MontKernels.ColumnFits | tools/gen_rsa_kernels.py:27-34 | a column with what was carried into it, and the digit's product, fits three words |
| MontKernels.LowColumn | tools/gen_rsa_kernels.py:35-40 | a low column's digit clears its lowest word and leaves the columns below as they are |
| MontKernels.RunMulColumn | tools/gen_rsa_kernels.py:23-40 | the emitted instructions of one column are one step of the Montgomery product, accumulators intact |
| MontKernels.RunSqrColumn | tools/gen_rsa_kernels.py:56-78 | the doubled cross products and the diagonal give the same step at b = a |
| MontKernels.RunColumns | tools/gen_rsa_kernels.py:23-40 | after any number of columns the machine holds the Montgomery product so far |
| MontKernels.KernelProduct | tools/gen_rsa_kernels.py:15-81 | for every n and all inputs, rp and the returned bit are (a b + Q m) / R, Q the digits the kernel chose |
| MontKernels.RunBound | tools/gen_rsa_kernels.py:17-18 | a run of either kernel on factors below m leaves less than 2m, top bit included, so one subtraction finishes |
| MontKernels.SquareIsMultiply | tools/gen_rsa_kernels.py:45-81 | the square kernel returns the same words, the same bit and the same digits as the multiply kernel at b = a |
| AdxRows.EmitRow | tools/gen_rsa_adx16.py:57-66 | the row emitter appends the row program |
| AdxRows.RunRowCode | tools/gen_rsa_adx16.py:57-66 | a row adds multiplier times eight words to the nine-word window through two carry chains, losing no carry |
| AdxRows.RunSlide | tools/gen_rsa_adx16.py:68-75 | the slide takes the next column in and leaves a carry of at most one |
| AdxReduce.DigitClears | tools/gen_rsa_adx16.py:85-91 | the register a low row gives up is zero: its digit was chosen to clear it |
| AdxReduce.RunLowRow | tools/gen_rsa_adx16.py:83-92 | a low row adds digit times m[0..8), moves one word up and parks the digit in t[k], changing nothing else there |
| AdxReduce.RunHighRow | tools/gen_rsa_adx16.py:93-103 | a later row adds the parked digit times another eight words of m and stores the word it is done with |
| AdxBlocks.RunRows | tools/gen_rsa_adx16.py:83-103 | any number of a block's rows: the number under way is the block's start plus the digits times the words of m used so far |
| AdxBlocks.CarryFits | tools/gen_rsa_adx16.py:107-113 | what a block leaves above its window cannot overflow the top word |
| AdxEmit.EmitBlock | tools/gen_rsa_adx16.py:78-114 | the rotating registers of the emitter come out as the ring turned once per row |
| AdxEmit.EmitRedc | tools/gen_rsa_adx16.py:49-114 | redc appends exactly the blocks' programs, for every block count |
| AdxRedc.RunBlock | tools/gen_rsa_adx16.py:78-114 | a block adds its eight digits times the whole modulus, keeps the digits below it, and its carry chain ends inside t |
| AdxRedc.RunRedc | tools/gen_rsa_adx16.py:49-114 | for every n = 8B, t[n..2n] ends as (t + Q m) / 2^(64 n) with Q in t[0..n), no carry lost |
| AdxProducts.EmitProductRow | tools/gen_rsa_adx16.py:183-198 | the product loop appends the row program |
| AdxProducts.RunProductRow | tools/gen_rsa_adx16.py:182-198 | a product row adds one word times the factor at its column, carry word included |
| AdxMultiply.RunMultiply | tools/gen_rsa_adx16.py:177-198 | before reduction t holds exactly a b, for every n |
| AdxSquare.SquareIs | tools/gen_rsa_adx16.py:122-168 | the square is twice the cross products plus the diagonal |
| AdxSquare.EmitSquare | tools/gen_rsa_adx16.py:121-168 | the emission loops of the square append its program |
| AdxSquare.RunSquare | tools/gen_rsa_adx16.py:121-168 | before reduction t holds exactly a^2: rows, doubling by shld with the bit between pairs, and the carry between pairs |
| AdxKernels.Square | tools/gen_rsa_adx16.py:117-170 | square(n) emits the square followed by redc |
| AdxKernels.Multiply | tools/gen_rsa_adx16.py:173-200 | multiply(n) emits the product followed by redc |
| AdxKernels.AdxProduct | tools/gen_rsa_adx16.py:49-200 | both kernels, every n = 8B: t[n..2n] is (a b + Q m) / R and t[0..n) the digits of Q |
| AdxKernels.DigitsUnique | tools/gen_rsa_adx16.py:83-91 | only one string of n digits makes x + Q m a multiple of R |
| AdxKernels.AdxIsRowByRow | tools/gen_rsa_adx16.py:77-114 | eight rows at a time computes the quotient words and the result of row-by-row Montgomery reduction |
| AdxKernels.AdxIsKernel | tools/gen_rsa_adx16.py:49-200 | the kernels of both generators leave the same words, digits and top bit |
| AdxKernels.AdxBound | tools/gen_rsa_adx16.py:50-51 | factors below m leave less than 2m: one conditional subtraction finishes |
| WaFreeList.InsertCovers | stdlib/runtime_wasm_alloc.c:85-106 | inserting with one forward and one backward merge is set union on bytes |
| WaFreeList.InsertCanonical | stdlib/runtime_wasm_alloc.c:85-106 | the list stays sorted with no two entries touching |
| WaFreeList.CanonicalUnique | stdlib/runtime_wasm_alloc.c:83-84 | the free bytes determine the list |
| WaFreeList.FreeOrder | stdlib/runtime_wasm_alloc.c:85-106 | the same blocks freed in any order leave the same list |
| WaFreeList.FirstFit | stdlib/runtime_wasm_alloc.c:126-131 | the first entry that fits: every earlier one is too small |
| WaFreeList.WithoutForm | stdlib/runtime_wasm_alloc.c:129 | taking an entry leaves a canonical list of exactly the other bytes |
| WaFreeList.LowestFit | stdlib/runtime_wasm_alloc.c:121-131 | a request the list can serve takes the lowest address that fits |
| WaTiling.CarveTiled | stdlib/runtime_wasm_alloc.c:136-147 | taking and splitting an entry keeps free, live and skipped bytes an exact tiling |
| WaTiling.ReleaseTiled | stdlib/runtime_wasm_alloc.c:157-163 | so does freeing, and the bytes owned stay the same |
| WaTiling.ShimTiled | stdlib/runtime_wasm_alloc.c:201-213 | an aligned block is a suffix of its parent; the prefix becomes a third class |
| WaTiling.LiveDisjoint | stdlib/runtime_wasm_alloc.c:121-148 | two live blocks never overlap |
| WaTiling.RunTiled | stdlib/runtime_wasm_alloc.c:85-213 | after any sequence of operations the grown arenas are tiled exactly: nothing lost, nothing twice |
| WaTiling.DeadStays | stdlib/runtime_wasm_alloc.c:198-213 | a skipped prefix is never handed out again |
| WaLinks.LinkPlaced | stdlib/runtime_wasm_alloc.c:86-90 | writing a header and the link before it puts the block in the linked list at its address |
| WaLinks.LinkJoined | stdlib/runtime_wasm_alloc.c:92-104 | a merge in memory joins the two entries |
| WaLinks.LinkWithout | stdlib/runtime_wasm_alloc.c:126-131 | `*link = b->next` takes exactly that entry out |
| WaStates.CarveValid | stdlib/runtime_wasm_alloc.c:136-147 | taking from an entry leaves a valid heap and every live block's contents and header as they were |
| WaStates.ReleaseValid | stdlib/runtime_wasm_alloc.c:157-163 | freeing leaves a valid heap and every other block's contents as they were |
| WaStates.WriteValid | stdlib/runtime_wasm_alloc.c:147 | what an owner writes in its payload touches no header the heap goes by |
| WaStates.AlignedFits | stdlib/runtime_wasm_alloc.c:201-213 | for every block malloc may serve with, the 32-bit address has the payload inside it if and only if the request does not wrap nor, for no bytes, the address |
| WaStates.AlignedWraps | stdlib/runtime_wasm_alloc.c:203-206 | a request that wraps: in every block that serves it the payload would end past the block |
| WaStates.AlignedNull | stdlib/runtime_wasm_alloc.c:206 | a request of no bytes whose sum does not wrap, and whose address comes out as null |
| WaStates.AlignedNullReached | stdlib/runtime_wasm_alloc.c:109-148 | two requests from an empty heap lead to the block that serves it |
| WaStates.ServedSize | stdlib/runtime_wasm_alloc.c:136-147 | a block handed out is less than 48 bytes longer than asked for; it is the whole entry, or the entry without a tail that has room for a header and 16 bytes |
| WaStates.EnoughPages | stdlib/runtime_wasm_alloc.c:109-112 | an arena is the fewest whole pages that hold the request and a chunk; the rounding does not wrap |
| WaHeap.OverflowCheck | stdlib/runtime_wasm_alloc.c:172-173 | the divide-back test is true exactly when the 32-bit product did not wrap |
| WaHeap.NullExactly | stdlib/runtime_wasm_alloc.c:121-134 | malloc answers null exactly when the request is above the limit, or no list entry has the bytes it needs and memory.grow fails |
| WaHeap.ResizedNull | stdlib/runtime_wasm_alloc.c:179-190 | a realloc to some bytes answers null exactly when there is no block or it is too small, and malloc of them would answer null |
| WaHeap.Heap.Insert | stdlib/runtime_wasm_alloc.c:85-106 | the pointer code leaves the linked list of the value-level insert and writes only headers of free entries |
| WaHeap.Heap.TakeFit | stdlib/runtime_wasm_alloc.c:126-131 | the search takes the first fit off the list, or nothing |
| WaHeap.Heap.Arena | stdlib/runtime_wasm_alloc.c:109-119 | fresh pages from memory.grow become one block, or the failure is reported |
| WaHeap.Heap.Split | stdlib/runtime_wasm_alloc.c:136-146 | a tail worth keeping goes back to the list, and the block keeps the need |
| WaHeap.Heap.Alloc | stdlib/runtime_wasm_alloc.c:121-148 | a 16-aligned block of at least n bytes, carved from the lowest fit or else from a fresh arena; null changes nothing; every live block keeps its contents |
| WaHeap.Heap.Free | stdlib/runtime_wasm_alloc.c:157-163 | the block's bytes join the list and its header says free; null, and a block whose header says so already, change nothing |
| WaHeap.Heap.Move | stdlib/runtime_wasm_alloc.c:185-189 | a larger block with the old bytes, the old block freed; null exactly when malloc has nothing to give, and then nothing changes |
| WaHeap.Heap.Realloc | stdlib/runtime_wasm_alloc.c:179-190 | the old prefix is kept and the block holds n bytes; null exactly when it does not fit and malloc has nothing to give, and then the old block stays as it was; a block that is large enough stays; no bytes free the block and answer null |
| WaHeap.Heap.Calloc | stdlib/runtime_wasm_alloc.c:171-177 | zeroed bytes for the true product; null exactly when it would wrap or malloc of it has nothing to give |
| WaHeap.Heap.ReallocArray | stdlib/runtime_wasm_alloc.c:192-196 | realloc to the true product, with realloc's null exactly, every other block's contents kept; null and no change when the product would wrap |
| WaHeap.Heap.AlignedAlloc | stdlib/runtime_wasm_alloc.c:201-213 | when malloc serves the request, the result is an aligned live suffix of at least n bytes if and only if nothing wraps, and then every other block's contents are kept; a failed malloc changes nothing |
| FutexLock.ExclusiveStep | stdlib/runtime_wasm_alloc.c:60-77 | every atomic step of every thread keeps at most one holder, and the word 0 exactly when there is none |
| FutexLock.WatchedStep | stdlib/runtime_wasm_alloc.c:60-77 | every step keeps: a sleeper means the word is 2, or a notify is due, or a contender is awake |
| FutexLock.RunSafe | stdlib/runtime_wasm_alloc.c:60-77 | both hold in every reachable state, for any number of threads and any interleaving |
| FutexLock.MutualExclusion | stdlib/runtime_wasm_alloc.c:60-77 | two threads are never both inside |
| FutexLock.NobodyStranded | stdlib/runtime_wasm_alloc.c:60-77 | when every thread is idle or asleep, none is asleep and the lock is free |
| FutexLock.ReleaseNotifies | stdlib/runtime_wasm_alloc.c:72-77 | a release at 2 goes through a store and a notify |
| FutexLock.FreeIsTaken | stdlib/runtime_wasm_alloc.c:60-71 | a contender that moves alone has a free lock after at most three steps of its own |
| FutexLock.HolderFrees | stdlib/runtime_wasm_alloc.c:72-77 | a holder that moves alone frees it in at most two |
| FutexLock.SomebodyGetsIt | stdlib/runtime_wasm_alloc.c:60-77 | from every reachable state with no holder and somebody inside acquire, three steps lead to a holder |
| RwLock.StepInv | unikernel/runtime_bare.c:979-1080 | every operation keeps: readers counts the recorded readers and those granted and not yet resumed, writing likewise, never both, no waiter holds, the head is blocked |
| RwLock.RunInv | unikernel/runtime_bare.c:883-1080 | hence over every run, in whatever order waiters resume |
| RwLock.RdLockExact | unikernel/runtime_bare.c:1020-1042 | rdlock panics for the writer alone, is granted at once exactly to a reader again or when nobody writes or waits, and else queues last; rdunlock undoes a granted one |
| RwLock.WrLockExact | unikernel/runtime_bare.c:1044-1059 | wrlock panics for a holder alone, is granted at once exactly when nobody holds or waits, and else queues last; wrunlock undoes a granted one |
| RwLock.TryExact | unikernel/runtime_bare.c:1061-1081 | the try calls take what the blocking calls would take at once, and else are refused and change nothing |
| RwLock.RdUnlockExact | unikernel/runtime_bare.c:1033-1042 | rdunlock leaves a sound lock, and everybody else's hold, if and only if its caller reads the lock or nobody does |
| RwLock.WrUnlockExact | unikernel/runtime_bare.c:1054-1059 | wrunlock leaves a sound lock, and everybody else's hold, if and only if its caller is the recorded writer or nobody writes |
| RwLock.WrUnlockForeign | unikernel/runtime_bare.c:1054-1059 | somebody else's unlock evicts the writer, and the lock can be taken a second time |
| RwLock.WrUnlockGranted | unikernel/runtime_bare.c:1054-1059 | an unlock while a granted writer has not run leaves a lock that counts nobody while it is held |
| RwLock.RdUnlockTwice | unikernel/runtime_bare.c:1033-1042 | an unlock by a holder without an entry takes away another reader's count |
| RwLock.GrantPrefix | unikernel/runtime_bare.c:979-992 | grants go to a prefix of the queue, each adding one holder |
| RwLock.FirstCome | unikernel/runtime_bare.c:883-890 | while anyone queues, a step lets in a prefix of the queue, counted re-reads, and nobody else, by a blocking or a try request |
| RwLock.StepAhead | unikernel/runtime_bare.c:979-1059 | waiters ahead plus current holders drop by one at each full release and never grow |
| RwLock.NoStarvation | unikernel/runtime_bare.c:883-890 | while a waiter waits, full releases are bounded by what stood ahead of it, whatever the schedule |
| SchedCore.TimerAddSorted | unikernel/runtime_bare.c:338-344 | the coroutine has the deadline asked for, the timer list stays sorted, and a new deadline goes after its equals |
| SchedCore.UnparkExact | unikernel/runtime_bare.c:1360-1381 | unpark keeps the partition if and only if the coroutine, when parked, is on no wait queue |
| SchedCore.UnparkBanks | unikernel/runtime_bare.c:1375 | an unpark before the park is banked and moves nothing; wake banks nothing |
| SchedCore.UnparkTwice | unikernel/runtime_bare.c:1375-1380 | two unparks queue a parked coroutine once and bank one permit |
| SchedCore.StepExact | unikernel/runtime_bare.c:548-617 | the unbounded step answers 0 exactly when run queue and timer list are empty |
| SchedCore.SleepExact | unikernel/runtime_bare.c:572-584 | the idle sleep passes no armed deadline and no budget, and ends at one of them |
| SchedCore.StuckStays | unikernel/runtime_bare.c:34-38 | from there the scheduler changes nothing, whatever the clock says |
| SchedCore.WakeHeadPart | unikernel/runtime_bare.c:665-682 | popping a waiter and making it runnable keeps the partition |
| SchedCore.WakeAllPart | unikernel/runtime_bare.c:501-523 | waking a whole list keeps the partition and empties the list |
| SchedCore.ExpirePart | unikernel/runtime_bare.c:361-373 | expiring timers keeps the partition: no coroutine is queued twice |
| SchedCore.MovePart | unikernel/runtime_bare.c:176-212 | every move of the scheduler keeps the partition of the coroutines over run queue, wait queues, timers and the runner |
| SchedCore.RunPart | unikernel/runtime_bare.c:289-373 | so over every sequence of moves |
| SchedCore.PermitStays | unikernel/runtime_bare.c:1370-1375 | a banked permit stays until its coroutine's own park takes it |
| SchedCore.WokenHow | unikernel/runtime_bare.c:1394-1414 | a coroutine parked by a park call is woken by an unpark, with result 1, or by its deadline passing, with result 0, and by no other move |
| SchedCore.LastStays | unikernel/runtime_bare.c:1406-1414 | the result of a park stays as it is until the coroutine runs on |
| SchedMoves.RunOrder | unikernel/runtime_bare.c:289-335 | the run queue is first in first out: only a pick takes from it, only an admitting unpark goes ahead |
| SchedMoves.WakesInOrder | unikernel/runtime_bare.c:501-523 | waking a whole queue puts its coroutines behind the run queue, in their order |
| SchedMoves.ExpiresInOrder | unikernel/runtime_bare.c:361-373 | expiry puts the timers that are due behind the run queue, soonest first, and leaves exactly the others |
| SchedMoves.LeavesBy | unikernel/runtime_bare.c:491-523 | a wait queue is left by its head when it is woken or by all together, and in no other way |
| SchedMoves.ExpireExact | unikernel/runtime_bare.c:361-373 | expiry ends exactly the parks whose deadlines have come, answers them 0 and leaves every other timer as it is |
| SchedMoves.ArmedMove | unikernel/runtime_bare.c:1394-1414 | an armed park is ended by an unpark with 1 or by its own deadline with 0, and no other move touches it |
| SchedMoves.ParkTimedArms | unikernel/runtime_bare.c:1410-1412 | a timed park is armed with the deadline asked for, and nobody else's timer is touched |
| SchedMoves.AliveMove | unikernel/runtime_bare.c:598-603 | a coroutine ends by its own end and is gone only once freed; no other move ends, frees or revives one |
| SchedLinks.Sched.constructor | unikernel/runtime_bare.c:230-236 | empty lists, linked |
| SchedLinks.Sched.Push | unikernel/runtime_bare.c:289-294 | a push at the tail appends to that queue, and every other queue reads as before through the shared links |
| SchedLinks.Sched.PushFront | unikernel/runtime_bare.c:297-301 | the same at the head, with or without a tail pointer |
| SchedLinks.Sched.Pop | unikernel/runtime_bare.c:328-335 | the head comes off, tail pointer and link cleared as needed |
| SchedLinks.Sched.PopAt | unikernel/runtime_bare.c:313-326 | any entry can be unlinked, the rest keeps its order and the tail is right |
| SchedLinks.Sched.TimerAdd | unikernel/runtime_bare.c:338-344 | the pointer walk inserts after every entry due no later |
| SchedLinks.Sched.TimerRemove | unikernel/runtime_bare.c:353-359 | the coroutine leaves the list if it is on it |
| SchedLinks.Sched.TimersExpire | unikernel/runtime_bare.c:361-373 | every due coroutine moves to the run queue in order, and the count is how many |
| SchedLinks.Sched.WakeOne | unikernel/runtime_bare.c:665-682 | the head waiter becomes runnable, main's node only leaves the queue |
| SchedLinks.Sched.WakeEvery | unikernel/runtime_bare.c:819-826 | the popping loop wakes the whole queue in order |
| SchedLinks.Sched.WakeList | unikernel/runtime_bare.c:501-523 | taking the list first and walking it while its links are rewritten wakes the same coroutines in the same order |
| SchedLinks.Sched.Unpark | unikernel/runtime_bare.c:1360-1381 | the pointer code takes the machine's unpark step: off the timer list, result 1, at the tail or the head |
| SchedLinks.Sched.ParkOn | unikernel/runtime_bare.c:403-407 | the runner goes on a queue and is switched out |
| SchedLinks.Sched.ParkTimer | unikernel/runtime_bare.c:1410-1412 | the runner parks on no queue, with its timer at the deadline asked for when there is one (`SchedMoves.ParkTimedArms`) |
| SchedLinks.Sched.StepBounded | unikernel/runtime_bare.c:548-596 | the step on pointers is the machine's step at the clock's last reading, the machine slept exactly as `SchedCore.SleepFor` says, and an unbounded step makes progress exactly when it is not stuck |
| RuntimeRuns.StepInv | unikernel/runtime_bare.c:548-1445 | every step of the whole runtime keeps: partition, waiters on their call's queue, no lost mutex wakeup, every rwlock sound and linked, joiners asleep exactly until the end |
| RuntimeRuns.RunInv | unikernel/runtime_bare.c:548-1445 | hence in every reachable state, from boot, under any schedule |
| RuntimeRuns.RunPartition | unikernel/runtime_bare.c:176-212 | the partition in every reachable state |
| RuntimeRuns.NoLostWakeup | unikernel/runtime_bare.c:676-710 | a free mutex with waiters always has a contender runnable or running inside lock |
| RuntimeRuns.RunRwLocks | unikernel/runtime_bare.c:883-1080 | every rwlock of every reachable state is sound and its queue is the list in the links |
| RuntimeRuns.UnparkQueued | unikernel/runtime_bare.c:1360-1381 | a run from boot to a coroutine asleep on a held mutex; unparking it puts it on two lists |
| RuntimeRuns.VerdictExact | unikernel/runtime_bare.c:613-634 | the drive loop's step answers 0 exactly in a deadlock |
| RuntimeRuns.DeadlockStays | unikernel/runtime_bare.c:34-38 | no step leaves a deadlock |
| RuntimeRuns.DeadlockForever | unikernel/runtime_bare.c:280-285 | when the verdict falls, the awaited predicate stays false on every continuation |
| RuntimeRuns.DeadlockAsleep | unikernel/runtime_bare.c:34-38 | in a deadlock every coroutine has ended or is parked with no deadline |
| RuntimeRuns.CondWaitHandsOff | unikernel/runtime_bare.c:784-804 | the mutex is released with the waiter already queued last and switched out, and a mutex waiter wakes |
| RuntimeRuns.SignalReaches | unikernel/runtime_bare.c:806-817 | a signal makes the longest waiter runnable |
| RuntimeRuns.ParkHandsOff | unikernel/runtime_bare.c:1420-1434 | the park's mutex is released with the caller already asleep, its timer armed |
| RuntimeRuns.PermitSpent | unikernel/runtime_bare.c:1346-1355 | with a permit banked the park returns at once, spends it, and still releases the mutex |
| RuntimeRuns.PermitKept | unikernel/runtime_bare.c:1370-1375 | no other step of anyone spends a banked permit |
| RuntimeRuns.UnparkNotLost | unikernel/runtime_bare.c:1370-1375 | however long the coroutine takes to park, the permit is there |
| RuntimeMoves.StepMakes | unikernel/runtime_bare.c:548-1445 | every step of the runtime is a row of scheduler moves, each one that this step may make: who parks where, who wakes whom, who frees what |
| RuntimeMoves.WaitsOn | unikernel/runtime_bare.c:501-523 | nobody leaves a mutex, condition, lock, join or drain queue but by the calls that wake from it |
| RuntimeMoves.SleepsOn | unikernel/runtime_bare.c:665-829 | so over runs: without such a call a waiter sleeps on, whatever else happens |
| RuntimeMoves.ParkArms | unikernel/runtime_bare.c:1394-1434 | a timed park without a permit is armed with the deadline asked for, no answer yet, its mutex released or not |
| RuntimeMoves.SleepArms | unikernel/runtime_bare.c:1476-1490 | a sleep is armed with the time it is to last until |
| RuntimeMoves.ArmedStep | unikernel/runtime_bare.c:548-596 | a timed park ends with 1 by an unpark of its coroutine, with 0 by a step whose clock has reached the deadline, by nothing else, and the first step that starts at or after the deadline does end it |
| RuntimeMoves.ArmedRun | unikernel/runtime_bare.c:548-596 | over runs: while no clock reading has reached its deadline and nobody unparks it, a timed park goes on, its deadline unchanged |
| RuntimeLocks.AcquireExact | unikernel/runtime_bare.c:695-710 | however it is entered, pthread_mutex_lock returns exactly when the mutex was free, and then holds it; else its caller sleeps last in the queue, or main drives |
| RuntimeLocks.TryLockExact | unikernel/runtime_bare.c:712-718 | trylock holds the mutex if it was free, and returns either way |
| RuntimeLocks.ReleaseExact | unikernel/runtime_bare.c:676-682 | a releasing call frees that mutex alone and wakes who has waited for it longest |
| RuntimeLocks.LocksChange | unikernel/runtime_bare.c:676-718 | no other step takes a mutex, and only unlock, a condition's wait and a park with it free it |
| RuntimeLocks.HeldThrough | unikernel/runtime_bare.c:676-718 | over runs, a held mutex stays held until a releasing call |
| RuntimeLocks.MutexExcludes | unikernel/runtime_bare.c:676-718 | mutual exclusion: in every run, between two steps that take a mutex there is one that releases it |
| RuntimeLocks.HeldByTaker | unikernel/runtime_bare.c:676-718 | from boot, a held mutex was taken by some step and has been held ever since |
| RuntimeLocks.JoinExact | unikernel/runtime_bare.c:1122-1138 | a join returns at once exactly when the coroutine has ended, and has freed it; else its caller waits on the coroutine |
| RuntimeLocks.JoinReturns | unikernel/runtime_bare.c:1122-1138 | a joiner that runs again finds the coroutine ended, frees it and returns |
| RuntimeLocks.DrainExact | unikernel/runtime_bare.c:1215-1225 | runtime_run returns to a coroutine exactly when no fiber is left |
| RuntimeLocks.RwReturns | unikernel/runtime_bare.c:998-1008 | a coroutine that runs again inside a lock's wait returns, as a recorded holder |
| RuntimeLocks.WatchMoves | unikernel/runtime_bare.c:806-829 | what main watches in a condition's wait moves only by a signal or a broadcast on it |
| RuntimeLocks.SignalMain | unikernel/runtime_bare.c:806-829 | a signal nobody is queued for reaches a main that waits, and a broadcast always does |
| RuntimeLocks.MainDrives | unikernel/runtime_bare.c:784-804 | main inside a condition's wait or a drain has not returned: it drives until a signal has come or every coroutine has ended |
| RuntimeEnds.EndsOnly | unikernel/runtime_bare.c:598-603 | a coroutine ends by its own return and by nothing else, and stays until its join, its detach or its end frees it |
| RuntimeEnds.RunTidy | unikernel/runtime_bare.c:239-247 | in every reachable state each ended coroutine has somebody still to join or detach it, so none is leaked, and once no fiber is left nobody sleeps in runtime_run |
| RuntimeEnds.YieldsLast | unikernel/runtime_bare.c:1328-1332 | a yield puts its caller last on the run queue |
| RuntimeEnds.SpawnsLast | unikernel/runtime_bare.c:1094-1102 | a spawned coroutine is last on the run queue, at the start of its body, with no permit |
| RuntimeEnds.UnparkReaches | unikernel/runtime_bare.c:1360-1392 | an unpark makes a parked coroutine runnable, first or last as asked, with answer 1; any other gets a permit and nothing else moves |
| RuntimeEnds.WakingReaches | unikernel/runtime_bare.c:1440-1445 | a wake reaches a parked coroutine, and only that |
| RuntimeEnds.BroadcastReaches | unikernel/runtime_bare.c:819-829 | a broadcast makes everyone who waits on the condition runnable |
| RuntimeEnds.ParkAsleep | unikernel/runtime_bare.c:1346-1412 | a park without a permit leaves its caller asleep on no queue, on the timer list exactly when it gave a deadline |
| RuntimeCalls.Bare.constructor | unikernel/runtime_bare.c:230-247 | the fields start as the machine's boot state |
| RuntimeCalls.Bare.MutexRelease | unikernel/runtime_bare.c:676-682 | the code on the fields is the machine's release, invariant kept |
| RuntimeCalls.Bare.MutexLock | unikernel/runtime_bare.c:695-710 | one test of the mutex: taken, or queued and switched out, or main drives; `RuntimeLocks.AcquireExact` says that it returns exactly when it takes a free mutex |
| RuntimeCalls.Bare.CondWait | unikernel/runtime_bare.c:784-804 | queue, switch, release is the machine's one step |
| RuntimeCalls.Bare.CondSignal | unikernel/runtime_bare.c:806-817 | the head waiter wakes, or a waiting main's sequence moves |
| RuntimeCalls.Bare.CondBroadcast | unikernel/runtime_bare.c:819-829 | all waiters wake and a waiting main's sequence moves |
| RuntimeCalls.Bare.Unpark | unikernel/runtime_bare.c:1360-1392 | for a handle parked by a park call the pointer code takes the machine's step |
| RuntimeCalls.Bare.FiberWake | unikernel/runtime_bare.c:1440-1445 | woken, or 0 and nothing changes |
| RuntimeCalls.Bare.Park | unikernel/runtime_bare.c:1346-1434 | up to the switch: -1 from main; the permit spent, the mutex released and 1; or asleep, the timer at the deadline asked for (`RuntimeMoves.ParkArms`), and the mutex released after |
| RuntimeCalls.Bare.ParkReturns | unikernel/runtime_bare.c:1412-1433 | after the switch back the timer removal finds nothing to remove, and the result set by the waker is returned |
| RuntimeCalls.Bare.Spawn | unikernel/runtime_bare.c:1094-1102 | the new coroutine is last on the run queue and the invariant holds with it |
| RuntimeCalls.Bare.Join | unikernel/runtime_bare.c:1122-1138 | an ended coroutine is freed at once, else the joiner sleeps on its list or main drives |
| RuntimeCalls.Bare.Detach | unikernel/runtime_bare.c:1154-1158 | freed if it has ended, else it will free itself |
| RuntimeCalls.Bare.Finish | unikernel/runtime_bare.c:598-603 | joiners wake, the drain list wakes with the last fiber, an unjoinable coroutine is freed, and the whole invariant survives |
| RuntimeCalls.Bare.RuntimeRun | unikernel/runtime_bare.c:1215-1226 | a coroutine waits for the fibers, main drives for everyone |
| RuntimeCalls.Bare.Turn | unikernel/runtime_bare.c:628-634 | one turn of the drive loop on pointers is the machine's step at the clock's last reading, and makes no progress exactly in a deadlock |
| RwCalls.Grant | unikernel/runtime_bare.c:980-992 | the loop over the head lets in what the machine's grant lets in and wakes the same coroutines in order |
| RwCalls.RwBare.RdLock | unikernel/runtime_bare.c:1022-1031 | re-read, panic, taken or queued: the fields and holder records end as the machine's lock, invariant kept |
| RwCalls.RwBare.WrLock | unikernel/runtime_bare.c:1044-1052 | the same for writing, with its two panics |
| RwCalls.RwBare.LetInYet | unikernel/runtime_bare.c:994-1008 | the want is cleared exactly for granted waiters; a coroutine that resumes inside its wait always has the lock |
| RwCalls.RwBare.Took | unikernel/runtime_bare.c:1030-1051 | a granted waiter records what it was let in for, in its record or as the writer |
| RwCalls.RwBare.TryRdLock | unikernel/runtime_bare.c:1062-1071 | taken without waiting, or refused with nothing changed |
| RwCalls.RwBare.TryWrLock | unikernel/runtime_bare.c:1073-1080 | the same for writing |
| RwCalls.RwBare.LetWaitersIn | unikernel/runtime_bare.c:979-992 | granting on the lock's own fields, wants of other locks' waiters untouched |
| RwCalls.RwBare.RdUnlock | unikernel/runtime_bare.c:1033-1042 | one count less, or the last reader leaves and the queue's head is let in |
| RwCalls.RwBare.WrUnlock | unikernel/runtime_bare.c:1054-1059 | the writer leaves and the queue's head is let in |
| HolderRecord.Record.Find | unikernel/runtime_bare.c:946-952 | the search finds the lock's entry, with its count, exactly when the holder has one |
| HolderRecord.Record.Add | unikernel/runtime_bare.c:954-966 | one more lock at count one, all other counts kept, across the growth of the block |
| HolderRecord.Record.Drop | unikernel/runtime_bare.c:968-971 | that lock's count is gone, all others kept, and the block goes when the inline entries suffice |
| HolderRecord.Record.SetCount | unikernel/runtime_bare.c:1026-1038 | a counted re-read or release changes that lock's count and no other |
| SweepDead.CountUses | tools/sweep_classify.py:98-100 | the counter holds how often each register is named |
| SweepDead.AnyDead | tools/sweep_classify.py:94-105 | dropping any dead line first leads to the same end |
| SweepDead.OrderFree | tools/sweep_classify.py:94-105 | every order of dropping dead lines until none is left ends in the same body |
| SweepDead.RoundNormal | tools/sweep_classify.py:101-105 | a round that drops its dead lines all at once agrees with one at a time |
| SweepDead.DropDead | tools/sweep_classify.py:94-105 | the rounds end, no line left is dead, and the body is the one every order of dropping ends in |
| SweepNormal.NumberedExact | tools/sweep_classify.py:108-113 | two bodies get the same numbers at the same places if and only if, dead code dropped, one is the other under a bijective renaming |
| SweepText.LexIs | tools/sweep_classify.py:39 | cutting at the leftmost longest matches of the pattern loses nothing: joined again it is the line, and no text between holds a match |
| SweepText.LexUnlex | tools/sweep_classify.py:39 | a joined line is cut at the same places again |
| SweepText.Normalise | tools/sweep_classify.py:108-113 | the growing dictionary writes back the registers' numbers in order of appearance, after dead code is dropped |
| SweepText.NormaliseExact | tools/sweep_classify.py:108-117 | without text like a new name in either body, they normalise to the same text if and only if one is the other under a bijective renaming |
| SweepText.RenamingExact | tools/sweep_classify.py:108-117 | for any two bodies: one is the other renamed if and only if the normalised text and the text with registers blanked out both agree |
| SweepText.SwappedOperands | tools/sweep_classify.py:112-117 | for any operation text, a line and its operand-swapped twin normalise to the same text and are no renaming of each other |
| SweepText.SwappedStore | tools/sweep_classify.py:112-117 | two stores that write to each other's operand are such a pair |
| SweepText.NormaliseTwice | tools/sweep_classify.py:112-117 | normalising twice is normalising once, so every body with a register agrees with a text that is no renaming of it |
| SweepText.Same | tools/sweep_classify.py:116-117 | the answer is whether the normalised texts agree, and without text like a new name that is being a renaming |
| SweepMeaning.NormalShows | tools/sweep_classify.py:94-105 | whatever an interpreter shows on the body, it shows on what is left of it, stopping included |
| SweepMeaning.NormalShown | tools/sweep_classify.py:94-105 | and nothing more |
| HashJoin.Probe | bench/hash_join.c:104-130 | found, and the value, exactly as a plain map has it |
| HashJoin.Insert | bench/hash_join.c:64-102 | the map gains the key unless the partition is full of other keys, and then nothing changes |
| HashJoin.Fallback | bench/hash_join.c:90-101 | the loop after the rounds never writes when the rounds have found no place |
| HashJoin.FullExactly | bench/hash_join.c:71-101 | an insert is refused exactly when its key is new and its partition holds as many keys as slots |
| HashJoin.BloomAdd | bench/hash_join.c:43-51 | the key's bits are set and none is cleared |
| HashJoin.BloomMaybe | bench/hash_join.c:53-62 | true exactly when the key's bits are all set |
| HashJoin.BuildRow | bench/hash_join.c:145-151 | filter and table stay in step: every key in the map is in the filter |
| HashJoin.Join | bench/hash_join.c:153-184 | the filtered, 64-slot-compacted sum is the xor of plain map lookups over all queries |
| HashJoin.BuildAndJoin | bench/hash_join.c:132-184 | for every table of rows and every list of queries the benchmark's sum is that of a map that refuses only new keys of a full partition |

## Left out

- WaHeap.Heap.Free: asks for a live block or one whose header still says free; a pointer into bytes that have been handed out again since is not modelled.
- WaHeap.Heap.AlignedAlloc: what the heap looks like after a shim's header is written outside its block is not modelled beyond the header itself.
- RuntimeCalls.Bare.Finish: `nb_live` and `nb_fibers_live` are the sets they count.
- RwCalls.RwBare.RdLock: holder records are a map of counts there; `HolderRecord` has the entries themselves. `RwBare` and `Bare` are two classes over the same scheduler, each with the rest of the machine's state given.
- HashJoin.BuildAndJoin: rows and queries are arbitrary, not the generator's stream.
- SweepMeaning.NormalShows: instructions mean what a parameter says they mean, on the registers they name; phi reads its registers like any other line.
- Waits of `pthread_cond` with a deadline (`nurl_cond_wait_ms`) and the main context's own sleep, which is a series of scheduler steps.
- Register-level context switching: a switch is an atomic change of the running coroutine.
- Stack mapping and guard pages, entropy, signals, closure environments, panic journals, `nurl_runtime_shutdown`, out-of-memory aborts and null-argument checks in the runtime.
- The stdio lock, which is the same algorithm as the heap's lock.
- Primality of 2^255 - 19, the group law of the curve, and timing or constant-time claims.
- Assembler syntax, operand allocation and the `constant_time` scan of `tools/gen_rsa_adx16.py`: an instruction is its effect on words and carry flags.
- Splitting IR text into functions and lines, and Unicode in the patterns: digits, spaces and word characters are the ASCII ones.
- The Rust, JavaScript and Python twins of the benchmarks, and the benchmarks whose proofs would be textbook (sha512, blake2b, chacha20, quicksort, binary search, sieve, matmul).
- `bench/json_parse.c`, report generators, linters and shims.
