# Verified models of eleven systems programs

This project models the protocols, codecs and data structures of a set of small C and C++ systems
programs and proves what they do over all inputs and all schedules. One module models one program:

- `RingUpdate` (inf19-0): k threads on a ring, each taking three mutexes in ascending order to update
  its own element and its neighbours'. Every statement is a step of its own, each `+=` a load and a
  store, and the scheduler is free. Values are exact hundredths.
- `PrimePipe` (inf19-1): trial division, and the two threads that share a pipe and an unprotected counter.
- `EchoServer` (inf17-1): the epoll loop over an append-only slot table, with what the kernel knows of
  each connection.
- `Bartender` (inf20-2): four processes, two semaphores, and a shutdown by signals that are delivered
  when the scheduler pleases.
- `Checksum` (inf22-1): the Internet checksum of RFC 1071 on hosts of either byte order, and the echo
  request that carries it.
- `DnsQuestion` (inf22-2): the DNS query builder, against a decoder written from RFC 1035.
- `GrowingBuffer` (inf23-2): the doubling download buffer, with the price of its reallocations.
- `FlatArchive` (inf24-0): files behind one another in one stream that only relative seeks move.
- `DescriptorCount` (inf17-0): reading many descriptors to their ends through epoll.
- `StridedMap` (inf20-1): the parallel map over child processes.
- `UnionView` (inf24-1): several directories shown as one.

`Sums` and `Bytes` hold what several modules share.

The programs change shared variables step by step, and so do the models: classes with the programs'
fields and arrays, whose methods are proved equal to step functions on values. The theorems are about
those functions and hold for every run. The system is a parameter: what `read`, `accept` or `epoll_wait`
answer, in which order threads and processes step, when a signal is delivered, which wakeup is spurious.

Where the code does not do what its own description says, the model follows the code, and a theorem says
exactly when the two agree:

- inf19-0 promises to work for every k > 0. With one or two threads a trio repeats an index and a thread
  locks a mutex twice; no run with a round to execute can finish (`RingUpdate.CompletesIff`).
- inf19-1 promises the primes of [A, B]. From A = 0 it also sends 0 and 1 (`PrimePipe.SentArePrimesIff`),
  and the loop test overflows `int` from 46340 squared on (`PrimePipe.SquaresFitIff`). It promises to end
  after N numbers; some schedule ends exactly if there are as many to send (`PrimePipe.ReturnsIff`), but
  since the signal is sent without the mutex, for every N > 0 some schedule leaves it asleep for good
  (`PrimePipe.NeverStuckIff`). A signal is meant to tell main that a number is there; main can find `ready`
  at 0 all the same if it took the number before the signal came (`PrimePipe.SignalWakes`,
  `PrimePipe.LateSignal`). A stuck main thread is asleep, but for runs in which a lost decrement of `ready`
  sends it to read more numbers than there are (`PrimePipe.StuckAsleepIff`, `PrimePipe.StarvingRun`).
- inf17-1 reads over a pending byte when a hang-up is reported (`EchoServer.EchoStepIff`,
  `EchoServer.HangupLosesByte`). After a read that fails with nothing pending it waits to write nothing
  (`EchoServer.StallsIff`, `EchoServer.FailedReadStalls`). Its clean-up loop leaves out the last slot: a run
  leaves a connection open exactly if its last one is (`EchoServer.CleanUpInEveryRun`,
  `EchoServer.LastConnectionLeaks`).
- inf20-2 hangs if a child tests its flag before a pending signal is delivered (`Bartender.TerminalIff`,
  `Bartender.LateDeliveryHangs`), and reads for ever without a newline (`Bartender.EndsIff`).
- inf22-1 is not the RFC's checksum once the 32-bit sum wraps (`Checksum.ChecksumExactIff`), which a buffer
  of n bytes can make it do exactly from 131075 bytes on (`Checksum.ExactForLengthIff`), nor for odd lengths
  on big-endian hosts with a last byte other than zero (`Checksum.OddLengthIsPaddedIff`).
- inf22-2 sends requests that do not decode for empty or long labels (`DnsQuestion.RoundTripIff`), and the
  same request for different hosts: those of n bytes all have requests of their own if and only if n is at
  most 255 (`DnsQuestion.DistinctRequestsIff`).
- inf24-0 loses its place in a truncated archive (`FlatArchive.PositionKeptIff`), and later reads then return
  other bytes (`FlatArchive.MisplacedRead`, `FlatArchive.TruncatedArchiveMisreads`).
- inf24-1 lists dangling links that cannot be looked up: listing and lookup agree if and only if every name
  that dangles in one included directory is a file in another (`UnionView.ListedIffResolves`,
  `UnionView.DanglingIsListed`). It serves a file of the working directory if no included directory has the
  path, which never happens exactly if every file with contents there has a path that one of them has
  (`UnionView.NeverForeignIff`, `UnionView.ForeignFileServed`).

## Model

| member | source | states |
|---|---|---|
| RingUpdate.OrderSwap | inf19-0/main.c:44-50 | swaps two neighbouring entries in place exactly when they are out of order |
| RingUpdate.Sort3Values | inf19-0/main.c:52-56 | three swaps leave the three entries ascending and a permutation of what they were |
| RingUpdate.TrioIsOk | inf19-0/main.c:63-77 | the sorted trio holds exactly the indices i - 1, i and i + 1 modulo k, and is strictly ascending exactly from three threads on |
| RingUpdate.MutualExclusion | inf19-0/main.c:79-90 | in a state that keeps the locking invariant, two threads whose trios share a mutex are not both between their locks and unlocks |
| RingUpdate.LoadStaysFresh | inf19-0/main.c:84-86 | no step of another thread changes an element between a thread's load and its store |
| RingUpdate.StepLockInv | inf19-0/main.c:79-90 | a step keeps the agreement of the mutex table with what each thread's program counter says it holds if and only if it does not unlock a mutex that the thread will unlock again, which never happens with three or more threads |
| RingUpdate.StepInv | inf19-0/main.c:79-91 | every step keeps the whole invariant: locks, fresh loads, exact elements, exact total |
| RingUpdate.StepMeasure | inf19-0/main.c:79-92 | every step takes exactly one off the number of statements left to run |
| RingUpdate.FindEnabled | inf19-0/main.c:72-83 | from any unfinished thread, following the holders of ever higher mutexes leads to a thread that can step |
| RingUpdate.DeadlockFree | inf19-0/main.c:72-83 | a state in which no thread can step is one in which all are done, and conversely |
| RingUpdate.EveryStateExact | inf19-0/main.c:79-91 | every state that a ring of any size can reach has its locks in agreement, its loads fresh and its elements and total exact; with one or two threads and a round to run nobody gets past the locks |
| RingUpdate.ElementsExact | inf19-0/main.c:63-86 | in every reachable state of a ring of any size, element e is 1.00 for each own addition, 0.99 for each of thread e + 1 and 1.01 for each of thread e - 1, modulo k |
| RingUpdate.FinalValues | inf19-0/main.c:122-130 | when all threads are done every element is exactly 3N and every mutex is free |
| RingUpdate.EveryRun | inf19-0/main.c:79-130 | on every ring that can finish at all, every run can go on until all are done, which is after exactly k(13N+1) steps, and then every element is 3N and every mutex free |
| RingUpdate.TotalBetweenUpdates | inf19-0/main.c:84-86 | on a ring of any size, whenever no thread is between its first load and last store, the array total is three times the completed rounds |
| RingUpdate.NeverBothUpdating | inf19-0/main.c:79-90 | in every reachable state of a ring of any size, threads whose trios meet are never both updating |
| RingUpdate.CompletingRun | inf19-0/main.c:122-125 | from every state that keeps the invariant some schedule finishes |
| RingUpdate.CompletesIff | inf19-0/main.c:63-83 | some schedule finishes if and only if there are three or more threads, or no rounds, or no threads |
| RingUpdate.LockOrder | inf19-0/main.c:60-77 | a thread's neighbours and own index, sorted |
| RingUpdate.Ring.constructor | inf19-0/main.c:99-121 | zeroed elements, free mutexes, and every thread at its first test with its sorted trio |
| RingUpdate.Ring.Update | inf19-0/main.c:84-86 | a load or store changes exactly the element of its addition, by its amount |
| RingUpdate.Ring.Advance | inf19-0/main.c:79-92 | one statement of one thread, in place, is one step of the specification |
| RingUpdate.Ring.PickThread | inf19-0/main.c:79-83 | there is a thread to schedule as long as one is unfinished |
| RingUpdate.Ring.JoinAll | inf19-0/main.c:122-125 | an arbitrary scheduler ends, with every thread done, after exactly the statements that were left |
| RingUpdate.RunRing | inf19-0/main.c:95-130 | the whole program, wherever it can finish at all, prints 3N for every element |
| PrimePipe.PrimesSpec | inf19-1/main.c:3 | the reference list holds exactly the primes of the interval, strictly increasing |
| PrimePipe.TrialDivision | inf19-1/main.c:51-56 | the flag is 1 exactly for primes and for 0 and 1, with no overflow of the `int` square, for every A below 46340 squared |
| PrimePipe.NoSmallDivisor | inf19-1/main.c:52-56 | once the square of i is above n, n has a divisor below i within its square root exactly if n is composite |
| PrimePipe.SquaresFitIff | inf19-1/main.c:52 | every square that the loop test takes fits an `int` if and only if A is below 46340 squared |
| PrimePipe.SentArePrimesIff | inf19-1/main.c:47-63 | what is sent for [A, B] is the list of its primes if and only if A is not 0 |
| PrimePipe.GeneratePrimes | inf19-1/main.c:47-63 | the nested loops send what passes trial division, in order: the primes exactly if A is not 0 |
| PrimePipe.ProducerPipeInv | inf19-1/main.c:50-63 | every producer step keeps printed ++ in hand ++ in pipe equal to what was sent |
| PrimePipe.ConsumerPipeInv | inf19-1/main.c:98-105 | so does every consumer step |
| PrimePipe.StepInv | inf19-1/main.c:50-105 | every step of either thread keeps pipe, loop and counter invariants, with `ready` never negative nor above the numbers sent |
| PrimePipe.OutputIsPrimes | inf19-1/main.c:97-105 | in every interleaving with split updates of `ready` and any pipe capacity, the output is a prefix of the primes of [A, B], of length N exactly when main has returned or returns with its next statement |
| PrimePipe.LostWakeup | inf19-1/main.c:59-101 | for every N > 0 there is a run that ends with main asleep and the producer unable to step |
| PrimePipe.NeverStuckIff | inf19-1/main.c:97-101 | no run gets stuck if and only if N is 0 |
| PrimePipe.AsleepSince | inf19-1/main.c:59-101 | if a run ends with main asleep, then since main last fell asleep only the producer has stepped, and it has not signalled |
| PrimePipe.WakesIff | inf19-1/main.c:50-101 | in every reachable state with main asleep, the producer alone wakes it if and only if it is past its write, or has a number left and room for it in the pipe |
| PrimePipe.SignalWakes | inf19-1/main.c:58-101 | from there the producer alone comes to its next signal, main is back at its test, and passes it if and only if the producer was not already about to signal with `ready` at 0 |
| PrimePipe.LateSignal | inf19-1/main.c:58-103 | wherever main waits for two numbers or more and there is one, a run comes to that exception |
| PrimePipe.SpuriousWakeup | inf19-1/main.c:99-101 | a wakeup without a signal makes main test `ready` again, and take a number or sleep as before |
| PrimePipe.StuckShape | inf19-1/main.c:50-105 | a stuck run has main asleep with no signal to come, or has printed all the numbers there are and main blocked in a read for more |
| PrimePipe.StuckAsleepIff | inf19-1/main.c:50-105 | every stuck run has main asleep if and only if main waits for no more numbers than there are, or there are fewer than two, or the pipe holds fewer than two |
| PrimePipe.StarvingRun | inf19-1/main.c:58-104 | the other kind: a decrement falls between load and store of an increment, and main ends in a read of an empty pipe |
| PrimePipe.ReturnsIff | inf19-1/main.c:47-106 | some interleaving lets main return if and only if at least N numbers pass trial division and, for N > 0, the pipe has room for one |
| PrimePipe.Session.constructor | inf19-1/main.c:83-97 | the initial variables, 1 skipped |
| PrimePipe.Session.Produce | inf19-1/main.c:47-62 | one statement of the generator, in place, is one producer step |
| PrimePipe.Session.Consume | inf19-1/main.c:98-105 | one statement of main, in place, is one consumer step |
| PrimePipe.Session.Run | inf19-1/main.c:94-106 | a schedule executed in place is the run of the specification |
| PrimePipe.RunSession | inf19-1/main.c:67-109 | what the program prints under a schedule is the output of its run: at most N numbers, a prefix of the primes |
| EchoServer.ConnStep | inf17-1/main.c:98-129 | every event of a connection keeps its invariant and adds one lost byte exactly if it is lossy |
| EchoServer.EchoStepIff | inf17-1/main.c:98-122 | output and pending byte stay the upper case of the bytes read if and only if the event does not read over a pending byte or fail to write it |
| EchoServer.Dispatch | inf17-1/main.c:80-97 | comparing descriptors tells the stop pipe, the socket and the connections apart exactly by index |
| EchoServer.StepSlotInv | inf17-1/main.c:79-130 | every event keeps the slot table invariant, accepts, failed accepts and closes included |
| EchoServer.OthersStayReported | inf17-1/main.c:75-80 | handling one event leaves what was reported for other indices true |
| EchoServer.BatchIsValid | inf17-1/main.c:75-130 | a whole answer of epoll can be handled although only its first event is fresh |
| EchoServer.RunIsEvents | inf17-1/main.c:74-131 | a run in batches is the run of its events one by one |
| EchoServer.EventsSlotInv | inf17-1/main.c:74-131 | every run of events keeps the slot table invariant and never shrinks the table |
| EchoServer.Isolation | inf17-1/main.c:79-130 | each connection ends as its own events alone make it end, whatever the others do |
| EchoServer.LossesAddUp | inf17-1/main.c:98-122 | a byte lost is never made up for: the bytes missing from the answer are the lossy events |
| EchoServer.SlotsInEveryRun | inf17-1/main.c:59-131 | in every run live slots hold pairwise distinct descriptors of the connections accepted into them |
| EchoServer.EveryRunEchoes | inf17-1/main.c:74-131 | in every run a connection echoes if and only if none of its events is lossy, and is closed only with its whole stream read, and answered if nothing was lost |
| EchoServer.QuietRunsLoseNothing | inf17-1/main.c:87-122 | a connection without hang-ups and failing writes loses no byte in any run |
| EchoServer.QuietStep | inf17-1/main.c:98-129 | each event without hang-up and failure for the direction that an open connection is armed for takes exactly one off the events it still needs, and changes the direction or closes it |
| EchoServer.QuietEventDue | inf17-1/main.c:74-79 | while a connection is open such an event can be reported |
| EchoServer.EveryQuietRunAnswers | inf17-1/main.c:74-131 | in every run a connection with such events only is closed exactly when it has had 2 * input + 2 of them, has answered one byte for every two, and has answered a to z with A to Z and every other byte with itself |
| EchoServer.StallsIff | inf17-1/main.c:98-129 | an event leaves a connection waiting to write with nothing to write if and only if its read fails with nothing pending, or it was so before; then nothing but a hang-up moves it |
| EchoServer.FailedReadStalls | inf17-1/main.c:98-113 | a run of two events that comes to this |
| EchoServer.HangupLosesByte | inf17-1/main.c:87-101 | a run of three events in which a hang-up loses a byte |
| EchoServer.CleanUpClosesAllIff | inf17-1/main.c:132-137 | in every state that keeps the slot table invariant, the clean-up leaves no connection open if and only if none was accepted or the last slot is already closed |
| EchoServer.CleanUpInEveryRun | inf17-1/main.c:74-137 | after every run the clean-up closes exactly the connections below the last, changes nothing else, and leaves none open if and only if none was accepted or the run has closed the last |
| EchoServer.LastConnectionLeaks | inf17-1/main.c:88-137 | a run, an accept and then the stop, after which the clean-up leaves the connection open |
| EchoServer.Server.constructor | inf17-1/main.c:59-73 | the table with the stop pipe and the socket in it |
| EchoServer.Server.HandleEvent | inf17-1/main.c:87-129 | the loop body, in place, is one step of the specification |
| EchoServer.Server.HandleBatch | inf17-1/main.c:79-130 | the loop over the events with its break is the run of the batch |
| EchoServer.Server.Serve | inf17-1/main.c:74-131 | the outer loop is the run of the batches up to the stop |
| EchoServer.Server.CloseAll | inf17-1/main.c:132-137 | closes the live slots from 2 up to but not including the last |
| Bartender.StepInv | inf20-2/main.c:57-128 | every statement and every signal delivery keeps the handshake, the shutdown account, the signal and the join invariants |
| Bartender.TerminalIff | inf20-2/main.c:118-128 | a state in which nothing can step is the end if and only if the late tests are no more than the children killed before they had a handler; otherwise the parent is stuck in a wait for a child |
| Bartender.StepMeasure | inf20-2/main.c:57-128 | with a newline in the input every step lowers a natural number |
| Bartender.EveryRun | inf20-2/main.c:57-128 | in every run one token is under way exactly while the parent awaits it; an ended run has printed one letter per t, p and m and one per late test; with a newline in the input no run is longer than ten times the input and 56 steps |
| Bartender.PromptRuns | inf20-2/main.c:118-128 | if no child tests its flag with the signal pending, a run cannot hang and prints exactly the letters asked for |
| Bartender.PrintedLetters | inf20-2/main.c:57-117 | every letter printed is the capital of an order read so far, or the initial zero if there was none |
| Bartender.PrintedGrows | inf20-2/main.c:57-101 | a run only ever adds to the end of what is printed |
| Bartender.OneKindOfOrder | inf20-2/main.c:57-117 | with orders of one kind, a run that ends without late tests has printed exactly its letter, once for each |
| Bartender.DeliveringFirstFinishes | inf20-2/main.c:57-128 | delivering signals first always finishes: every such run has ended when it can go no further, has then printed the letters asked for, and is no longer than the bound |
| Bartender.CompletingRun | inf20-2/main.c:103-128 | from every state without late tests some schedule that delivers every signal first finishes the run |
| Bartender.EndsIff | inf20-2/main.c:103 | some run ends if and only if the input has a newline |
| Bartender.LateDeliveryHangs | inf20-2/main.c:61-69 | a run in which a late delivery leaves the parent waiting for ever |
| Bartender.Tavern.constructor | inf20-2/main.c:53-56 | empty semaphores and three children without handlers |
| Bartender.Tavern.Serve | inf20-2/main.c:102-128 | one statement of the parent, in place, is one parent step |
| Bartender.Tavern.Smoke | inf20-2/main.c:57-70 | one statement of a child, in place, is one child step |
| Bartender.Tavern.Handler | inf20-2/main.c:49-51 | the handler sets the flag of its child only |
| Bartender.Tavern.Run | inf20-2/main.c:53-131 | a schedule executed in place is the run of the specification |
| Checksum.ChecksumOf | inf22-1/main.c:73-88 | the loop computes the folded wrapping sum, which is the complement of the one's-complement sum whenever the sum fits 32 bits |
| Checksum.FoldedIsCanon | inf22-1/main.c:84-87 | two folds suffice for every 32-bit sum |
| Checksum.OnesSumIsCanon | inf22-1/main.c:78-83 | adding with end-around carry is the plain sum reduced modulo 65535 to 1..65535, or 0 |
| Checksum.ShortBuffersFit | inf22-1/main.c:75-83 | up to 65537 words the accumulator never wraps |
| Checksum.ChecksumExactIff | inf22-1/main.c:73-88 | for every length an `int` holds, the result is the complement of the one's-complement sum if and only if the sum fits 32 bits |
| Checksum.ExactForLengthIff | inf22-1/main.c:73-88 | for every length n an `int` holds, the result is exact for all buffers of n bytes if and only if n is at most 131074 |
| Checksum.OrderIndependent | inf22-1/main.c:78-80 | the checksum does not depend on the order of the words |
| Checksum.HostIndependent | inf22-1/main.c:73-88 | hosts of either byte order store the same two bytes for an even length, as long as neither sum wraps |
| Checksum.SwappedBuffer | inf22-1/main.c:73-88 | swapping the bytes of every word swaps the bytes of the checksum, as long as neither sum wraps |
| Checksum.OddLengthIsPaddedIff | inf22-1/main.c:81-83 | an odd buffer has the checksum that it has with a zero byte appended if and only if the host is little-endian or the last byte is zero, as long as neither sum wraps |
| Checksum.RoundTrip | inf22-1/main.c:117-127 | storing the checksum over a zero word at an even offset makes the checksum of the whole zero, at any length |
| Checksum.RoundTripUnique | inf22-1/main.c:127 | no other word does, at any length, but for the other zero of one's complement where the accumulator has room for it |
| Checksum.StoreChecksum | inf22-1/main.c:127 | in place at offset 2, changing nothing else |
| Checksum.FillMessage | inf22-1/main.c:121-125 | the message bytes count up from the character 0 and end in a zero, the header is untouched |
| Checksum.BuildPacket | inf22-1/main.c:117-127 | the packet has its type, code, identifier, sequence and message, and checks to zero |
| DnsQuestion.JoinSplit | inf22-2/main.c:90-105 | joining the labels with the byte 46 gives the host back |
| DnsQuestion.SplitIff | inf22-2/main.c:90-105 | the labels of a host are its only decomposition into parts without the byte 46 that joined with 46 give the host |
| DnsQuestion.RequestLength | inf22-2/main.c:77-116 | the request is 18 bytes longer than the host, whatever its labels |
| DnsQuestion.RequestBytes | inf22-2/main.c:79-116 | byte by byte: the header as written, the host with each byte 46 replaced by the length of what follows it, and the tail as written |
| DnsQuestion.RoundTripIff | inf22-2/main.c:80-116 | a server reads a standard query with recursion desired, one question, no records, type A and class IN, for the name with given labels, if and only if these contain no 46, join with 46 to the host, have 1 to 63 bytes each, and the host has at most 253 |
| DnsQuestion.RequestInjective | inf22-2/main.c:80-116 | different hosts have different requests if no label exceeds 255 bytes |
| DnsQuestion.LongLabelsCollide | inf22-2/main.c:93 | any host of a byte 255 and 255 more without a dot has the request of the host with a dot for its first byte |
| DnsQuestion.DistinctRequestsIff | inf22-2/main.c:80-116 | all hosts of n bytes have requests of their own if and only if n is at most 255 |
| DnsQuestion.WriteHead | inf22-2/main.c:79-83 | writes the twelve bytes of the header |
| DnsQuestion.WriteLabel | inf22-2/main.c:106-111 | appends the length byte and the string of the buffer |
| DnsQuestion.Append | inf22-2/main.c:104 | appends one byte to the label in the buffer |
| DnsQuestion.Clear | inf22-2/main.c:99 | zeroes the buffer |
| DnsQuestion.WriteHost | inf22-2/main.c:85-111 | the loops append exactly the encoded labels of the host |
| DnsQuestion.WriteTale | inf22-2/main.c:113-116 | appends the root label, type and class |
| DnsQuestion.BuildRequest | inf22-2/main.c:77-116 | the array holds the specified request, of length host plus 18 |
| GrowingBuffer.GrowAmortised | inf23-2/main.c:55-67 | every chunk keeps: capacity at most twice the length, bytes copied so far below the capacity, capacity doubled by every reallocation |
| GrowingBuffer.AnyChunks | inf23-2/main.c:55-67 | over any sequence of chunks, length is the sum, all reallocations copy at most twice that, and their number is logarithmic in it |
| GrowingBuffer.CapacityIsTwice | inf23-2/main.c:57-63 | the capacity is exactly twice what was required when it last did not suffice, and unchanged if it always did |
| GrowingBuffer.Buffer.constructor | inf23-2/main.c:88-90 | an empty buffer |
| GrowingBuffer.Buffer.Reallocate | inf23-2/main.c:61-62 | a larger block that starts with the old one, at the price of the old block |
| GrowingBuffer.Buffer.Append | inf23-2/main.c:65-66 | copies the chunk behind the bytes in use |
| GrowingBuffer.Buffer.Callback | inf23-2/main.c:49-68 | the contents grow by the chunk, and the capacity becomes twice the required size exactly if that exceeds it |
| GrowingBuffer.Buffer.Receive | inf23-2/main.c:49-68 | the contents grow by all chunks together |
| GrowingBuffer.Download | inf23-2/main.c:88-95 | a download is the concatenation of its chunks and copies at most twice its length |
| FlatArchive.RegionsInOrder | inf24-0/main.c:157-163 | the regions of the files are in order and disjoint |
| FlatArchive.HeadIsSum | inf24-0/main.c:157-163 | the head of file i is the sum of the sizes before it |
| FlatArchive.PositionKeptIff | inf24-0/main.c:107-112 | where a read leaves the stream: as far before its base as bytes were missing, or at the end if the seek back fails; back at its base if and only if it held the bytes read, but for one boundary case at its start |
| FlatArchive.MisplacedRead | inf24-0/main.c:107-112 | after a read that missed bytes, the next one gets bytes from exactly as many places too early, unless the seek back failed |
| FlatArchive.TruncatedArchiveMisreads | inf24-0/main.c:107-112 | an archive whose second file is missing: reading it makes the first read as other bytes |
| FlatArchive.BuildHeads | inf24-0/main.c:157-163 | the loop computes the sums of the sizes before each file |
| FlatArchive.Reader.constructor | inf24-0/main.c:142-163 | the stream at its base and the heads filled in |
| FlatArchive.Reader.FilesFillArchive | inf24-0/main.c:157-163 | the contents of all files, in order, are the bytes behind the header |
| FlatArchive.Reader.Fill | inf24-0/main.c:108-110 | the loop over `fgetc` gives the bytes that there are, then end-of-file marks |
| FlatArchive.Reader.ReadPart | inf24-0/main.c:107-112 | seek, loop and seek back, from any position: the bytes there are, then end-of-file marks, and where the stream is left |
| FlatArchive.Reader.ReadEntry | inf24-0/main.c:102-114 | what one file's read returns from any position and where it leaves the stream, truncated archives included |
| FlatArchive.Reader.EntryBytes | inf24-0/main.c:102-114 | a read of file i from any position returns min(size, rest of the file) bytes, each the byte of the stream at position + sizes before i + offset + n, or 255 past its end |
| FlatArchive.Reader.Read | inf24-0/main.c:94-119 | error codes -21 and -5; from any position the number of bytes and every byte of them, and where the stream is left; with a whole archive and the stream at its base, the slice of the first file of that name and the base again |
| FlatArchive.Reader.ReadInChunks | inf24-0/main.c:94-119 | any run of chunked reads adds up to the bytes of the file, from the base plus the sizes before it, as far as the chunks reach |
| DescriptorCount.StepInv | inf17-0/main.c:67-87 | every event keeps the counter and the closes, and takes exactly the bytes or the end that it read off what is left, and nothing if it read nothing |
| DescriptorCount.OthersStayReported | inf17-0/main.c:66-70 | handling an event leaves the rest of the batch valid |
| DescriptorCount.BatchInv | inf17-0/main.c:66-88 | so does a whole batch, with progress if one of its events is productive |
| DescriptorCount.EveryRun | inf17-0/main.c:62-97 | in every run the counter is the number still open; when it reaches zero each was closed exactly once and all bytes counted; productive runs end within as many batches as there are bytes and ends |
| DescriptorCount.Counter.constructor | inf17-0/main.c:41-62 | nothing read, everything open |
| DescriptorCount.Counter.HandleEvent | inf17-0/main.c:69-86 | the loop body, in place, is one step of the specification |
| DescriptorCount.Counter.HandleBatch | inf17-0/main.c:66-88 | the loop over the events is the run of the batch |
| DescriptorCount.Counter.Total | inf17-0/main.c:91-97 | adds up the bytes of all descriptors |
| DescriptorCount.ReadDataAndCount | inf17-0/main.c:39-98 | on every run that ends, returns the sum of the stream lengths |
| StridedMap.StrideGap | inf20-1/main.c:56 | between j and j + N only j has the same owner |
| StridedMap.StepWrites | inf20-1/main.c:55-58 | every step keeps: an element is written, once, with the function's value, exactly when its owner has come past it |
| StridedMap.StepPosts | inf20-1/main.c:59-67 | every step keeps semaphore plus waits equal to the posts, and takes one off the statements left |
| StridedMap.ResultComplete | inf20-1/main.c:65-73 | after N waits every element is written exactly once with the function's value |
| StridedMap.CanStep | inf20-1/main.c:54-67 | before that, some process can step |
| StridedMap.EveryRun | inf20-1/main.c:54-73 | in every interleaving elements are written at most once, by their owners; the parent is through after exactly count + 2N steps, and then the result is the map |
| StridedMap.Pool.constructor | inf20-1/main.c:42-54 | zeroed result, child i about to start at i |
| StridedMap.Pool.Work | inf20-1/main.c:55-61 | one statement of a child, in place, is one step |
| StridedMap.Pool.Wait | inf20-1/main.c:65-67 | one wait of the parent, in place, is one step |
| StridedMap.Pool.WaitForAll | inf20-1/main.c:65-67 | an arbitrary scheduler brings the parent through its waits |
| StridedMap.PMap | inf20-1/main.c:41-74 | the function mapped over the input |
| UnionView.GetRealPath | inf24-1/main.cpp:42-65 | the first existing candidate with the latest write time, whatever the uninitialised time held; the relative path itself if none exists |
| UnionView.ListingSpec | inf24-1/main.cpp:101-119 | the listing has every name of every included directory and no name twice |
| UnionView.ListingOrder | inf24-1/main.cpp:101-119 | the listing is in the order in which the names first come up, directory by directory |
| UnionView.ListedInVainIff | inf24-1/main.cpp:42-119 | what can be looked up is always listed, and a name is listed in vain if and only if it is a dangling link in some included directory and a file in none |
| UnionView.ListedIffResolves | inf24-1/main.cpp:101-119 | listing and lookup of a directory agree if and only if every name that is a dangling link in one included directory is a file in another |
| UnionView.NoDanglingAgrees | inf24-1/main.cpp:101-119 | in a tree without dangling links a name is listed if and only if it can be looked up |
| UnionView.DanglingIsListed | inf24-1/main.cpp:101-119 | a tree in which a dangling link is listed and cannot be looked up, and one in which another directory makes up for it |
| UnionView.EmitEntries | inf24-1/main.cpp:109-117 | the loop over one directory emits exactly its names not seen before, in order |
| UnionView.ReadDir | inf24-1/main.cpp:87-122 | emits the two dot names, then the listing |
| UnionView.ReadFile | inf24-1/main.cpp:125-152 | of the newest candidate, or of the file in the working directory if there is none: min(size, length - offset) bytes, each the content's byte at offset + n, and none past the end or if it is no regular file |
| UnionView.ReadInChunks | inf24-1/main.cpp:125-152 | any run of reads, each starting where the last one ended, adds up to the content as far as the chunks reach |
| UnionView.NeverForeignIff | inf24-1/main.cpp:42-152 | nothing outside the included directories is ever served if and only if the working directory has no file with contents whose path none of them has |
| UnionView.IncludedCwdIsSafe | inf24-1/main.cpp:42-152 | from an included working directory nothing outside is served |
| UnionView.ForeignFileServed | inf24-1/main.cpp:125-152 | a tree in which a file outside the included directories is served |

## Left out

- Sockets, address lookup, libcurl, FUSE registration, mmap and process creation: foreign calls, replaced by streams, queues, semaphores and schedules.
- Memory models: loads and stores interleave in program order, as on a sequentially consistent machine.
- Rounding in inf19-0: values are exact hundredths, where the program adds doubles.
- Element type in inf20-1: values are integers, where the program maps doubles; only the function's own results are stored.
- Fairness: the theorems say that a run can always go on and how long it can be, not that the system schedules it.
- Host names over 8174 bytes in inf22-2: the request array has no room for them; the builder requires that they fit.
- Allocation failures, and sizes beyond the 64-bit counters in inf23-2 and inf24-0: required away.
- Reading with callbacks at the same time in inf24-0: reads run one after the other.
- Files over 100000 bytes in inf24-0: the static buffer has no room for them; the reader requires that they fit.
- Inputs so long that the `int` index of inf20-1 overflows: required away; the theorem over all interleavings has no such bound.
- More accepts than slots in inf17-1: the table has 1024 of them and the code does not check.
- PrimePipe.OutputIsPrimes: does not promise that main returns, because for N > 0 no such promise holds of all schedules; `PrimePipe.ReturnsIff` and `PrimePipe.NeverStuckIff` say what does.
- Which of several kinds of letter a smoker prints in inf20-2: the shared letter is read after the handshake, so the number and the kinds of letters are kept, not their order.
- Scanning the archive header in inf24-0 and splitting the option string in inf24-1: the parsed tables are inputs.
- Attributes and mode bits in inf24-0 and inf24-1, the title printer of inf23-2, timing and replies in inf22-1: plumbing around the parts modelled.
- The remaining exercises (inf13 to inf16, inf18, inf20-0, inf21, inf22-0, inf23-0, inf23-1, inf25): thin wrappers with only easy claims.
