# A model of the Nachos kernel

Nachos is a small teaching kernel: threads, semaphores and monitors, a simulated machine with a clock, a disk and a
network, a file system on that disk, and a post office on that network. This project models the parts of it that are
hard to get right and proves what they promise, for all inputs and all runs.

- **File system** (`Bytes`, `BitMap`, `Storage`, `FileHeader`, `OpenFile`, `Directory`, `Volume`, `Updates`, `Capacity`,
  `FileSystem`, `Session`). Everything is at the level of the bytes on the disk: headers and the free map are words in
  little-endian order, the directory is its raw table, and both the free map and the directory are files on the disk
  that they describe. A disk is *sound* when the free map marks exactly the sectors that some file owns, no sector is
  owned twice, and names differ. Format, Create, Remove and writes through open files keep a disk sound, and refine an
  abstract file system that maps nine-character names to byte sequences and handles to names. Any number of files can be
  open across creates and removes of others. A request has one possible response and outcome, the first contents of a
  new file apart: whether Create succeeds depends only on the names and sizes of the files there are.
- **Threads and synchronisation** (`Scheduler`, `Semaphore`, `Monitor`, `SynchList`, `Philosophers`, `Water`). Code
  between two changes of the interrupt level is one step, and any thread that can take a step may take the next one, so
  a run is any interleaving. Semaphores and conditions are Mesa style: a thread that is woken tests again.
  What the logs of a run hold is proved against the calls that the run makes, and awake threads are shown able to go on.
- **Device protocols** (`Device`, `SynchDisk`, `PostOffice`, `PostConservation`). A lock, a semaphore and a completion interrupt share a
  device that serves one request at a time. `Device` proves that protocol once; the synchronous disk and the sending
  side of the post office are both instances of it. The network loses any packets it likes and keeps those to one
  destination in order.
- **Clock and event queue** (`List`, `Interrupt`). The linked list, and the interrupt machine that keeps its pending
  interrupts in one. What a handler does is an arbitrary function of the interrupt, so all devices are covered.
- **Arithmetic and search** (`Multiplier`, `DiskTiming`, `SecondChance`). The shift-and-add multiplication, the
  rotation and track-buffer timing of the disk, and the two clock searches for a page to replace.

Where code and comments differ the model follows the code. A comment in `Semaphore::V` says that a thread made ready
consumes the V at once; the code leaves the unit for whoever tests first, and `SemaphoreRuns.WokenSleepsAgain` is a run
in which the woken thread finds it gone. `Directory` and `FileSystem` comments do not say so, but names that agree in
their first nine characters are the same name. The event queue looks first come, first served among interrupts due at
the same time. It is not: `Interrupts.OvertakenInterrupt` is a run in which the second of two fires first, and
`Interrupts.FirstComeFirstServed` says exactly which runs keep the order.

## Model

| member | source | states |
|---|---|---|
| `BitMaps.BitMap.Mark` | nachos64/code/userprog/bitmap.cc:46-51 | exactly one bit of the abstract bit sequence changes, although 32 share a word |
| `BitMaps.BitMap.Clear` | nachos64/code/userprog/bitmap.cc:60-65 | exactly one bit is cleared |
| `BitMaps.BitMap.Test` | nachos64/code/userprog/bitmap.cc:74-83 | the mask test reads that bit of the abstract sequence |
| `BitMaps.BitMap.Find` | nachos64/code/userprog/bitmap.cc:94-103 | returns the lowest clear bit and sets it alone; -1 if and only if none is clear, and then nothing changes |
| `BitMaps.BitMap.NumClear` | nachos64/code/userprog/bitmap.cc:111-119 | the number of clear bits |
| `BitMaps.CountClearUpdate` | nachos64/code/userprog/bitmap.cc:94-119 | setting a clear bit lowers that number by one: the link between Find and NumClear that Allocate and Create rest on |
| `FileHeaders.HeaderRoundTrip` | nachos64/code/filesys/filehdr.cc:77-94 | a header written to a sector as words is read back unchanged, for every header |
| `FileHeaders.FileHeader.Allocate` | nachos64/code/filesys/filehdr.cc:41-52 | succeeds if and only if ceil(size/128) sectors are clear; failure leaves the map alone; success takes that many distinct, formerly clear sectors, the least number that holds the size, and no others |
| `FileHeaders.FileHeader.Deallocate` | nachos64/code/filesys/filehdr.cc:61-68 | clears exactly the file's data sectors |
| `FileHeaders.FileHeader.ByteToSector` | nachos64/code/filesys/filehdr.cc:106-110 | on any disk, the byte of the file at an offset is the one in that sector as far in as the offset is past a sector boundary |
| `FileHeaders.ContentsAreSectorsJoined` | nachos64/code/filesys/filehdr.cc:106-121 | a file's bytes are its data sectors joined in header order and cut off at its length |
| `OpenFiles.OpenFile.ReadAt` | nachos64/code/filesys/openfile.cc:113-141 | the window of the flat byte file, clamped to its end, lands in the buffer and nothing else in it changes |
| `OpenFiles.OpenFile.WriteAt` | nachos64/code/filesys/openfile.cc:143-183 | at any position, aligned or not: the clamped bytes are spliced into the flat byte file, and no sector outside the file changes |
| `OpenFiles.OpenFile.Read` | nachos64/code/filesys/openfile.cc:71-77 | as ReadAt at the seek position, which moves past what was read |
| `OpenFiles.OpenFile.Write` | nachos64/code/filesys/openfile.cc:79-85 | as WriteAt at the seek position, which moves past what was written |
| `OpenFiles.StoredSplice` | nachos64/code/filesys/openfile.cc:164-182 | storing the assembled sectors, whose ends were read first, changes just the bytes written |
| `OpenFiles.WrittenAt` | nachos64/code/filesys/openfile.cc:143-183 | byte by byte: a write changes the bytes at its positions that the file has, to the bytes written, and no others |
| `OpenFiles.ReturnedAt` | nachos64/code/filesys/openfile.cc:113-141 | a read returns the bytes at its positions that the file has, all of them and no more |
| `OpenFiles.WriteEachIsWrite` | nachos64/code/filesys/openfile.cc:79-85 | a series of writes in any chunk sizes is one write of all the bytes |
| `OpenFiles.ReadEachIsRead` | nachos64/code/filesys/openfile.cc:71-77 | a series of reads in any chunk sizes returns what one read would |
| `OpenFiles.WrittenThenRead` | nachos64/code/filesys/openfile.cc:71-85 | bytes written in any chunks are read back unchanged in any others |
| `Directories.SameName` | nachos64/code/filesys/directory.cc:90-97 | strncmp on what strncpy stored finds a name if and only if the first nine characters agree |
| `Directories.Directory.FindIndex` | nachos64/code/filesys/directory.cc:90-97 | -1 if and only if no entry in use has the name, and otherwise one that has it |
| `Directories.Directory.Find` | nachos64/code/filesys/directory.cc:108-116 | the header sector of the named file |
| `Directories.Directory.Add` | nachos64/code/filesys/directory.cc:129-143 | succeeds if and only if the name is new and an entry is free; then one entry holds it and no other byte that counts changes |
| `Directories.Directory.Remove` | nachos64/code/filesys/directory.cc:153-162 | succeeds if and only if the name is there; then its entry is free and all others stand |
| `Volumes.DataWritten` | nachos64/code/filesys/openfile.cc:143-183 | a write to one file's data sectors keeps the disk sound, the free map, the directory and the contents of every other file |
| `Updates.Created` | nachos64/code/filesys/filesys.cc:203-207 | the header, directory and free map writes of Create, in that order on the disk they describe, add one file and change none |
| `Updates.Removed` | nachos64/code/filesys/filesys.cc:278-283 | the free map and directory writes of Remove take away one file and change none |
| `FileSystems.AllMarked` | nachos64/code/filesys/filehdr.cc:61-68 | on a sound disk every sector of a listed file is marked, so the ASSERT in Deallocate cannot fail |
| `FileSystems.FileSystem.Format` | nachos64/code/filesys/filesys.cc:80-126 | from any disk contents: a sound disk with no files; no ASSERT fails |
| `FileSystems.FileSystem.Mount` | nachos64/code/filesys/filesys.cc:137-143 | a sound disk can be used again without a format, with the files it holds |
| `FileSystems.FileSystem.Create` | nachos64/code/filesys/filesys.cc:174-215 | succeeds if and only if the name is absent, an entry is free and 1 + ceil(size/128) sectors are clear; failure leaves every byte of the disk; success adds one file of that size with the least number of sectors that holds it, none for an empty one, and keeps the contents, header and directory entry of all others |
| `FileSystems.FileSystem.Open` | nachos64/code/filesys/filesys.cc:227-241 | null if and only if the name is absent; otherwise a handle on that file's contents |
| `FileSystems.FileSystem.Remove` | nachos64/code/filesys/filesys.cc:257-288 | succeeds if and only if the name is present; takes away that file alone, keeps the header and directory entry of all others and gives back exactly its sectors |
| `FileSystems.FileSystem.Write` | nachos64/code/filesys/openfile.cc:143-183 | through any handle whose file is still listed, whatever was created or removed since it was opened: changes the contents of that file as the splice says and nothing else of the file system |
| `FileSystems.FileSystem.Read` | nachos64/code/filesys/openfile.cc:113-141 | through such a handle: the clamped bytes of the file's contents as they now are |
| `FileSystems.FileSystem.CreateThenRemove` | nachos64/code/filesys/filesys.cc:174-288 | restores the free map bit for bit, and all files |
| `FileSystems.TakenGivenBack` | nachos64/code/filesys/filesys.cc:174-288 | what Create takes out of a free map and Remove gives back cancel exactly |
| `Capacity.FreeSpace` | nachos64/code/filesys/filesys.cc:174-215 | on every sound disk the clear sectors and the sectors that the named files pay for, ceil(size/128) + 1 each, add up to 1019: no sector leaks |
| `Capacity.FreeSlots` | nachos64/code/filesys/directory.cc:129-143 | the directory is full if and only if there are ten files |
| `FileSystems.AdmitsRight` | nachos64/code/filesys/filesys.cc:188-201 | the tests of Create on the disk agree with a condition on the names and sizes of the files alone |
| `Sessions.HandlesShrink` | nachos64/code/filesys/filesys.cc:257-288 | removing a file leaves the handles on all other files on their files |
| `Sessions.HandleAt` | nachos64/code/filesys/filesys.cc:227-241 | a live handle sees the contents of the file listed under its name, and its header in memory is the one on the disk |
| `Sessions.ServeOne` | nachos64/code/filesys/filesys.cc:174-288 | one create, remove, open, close, read or write, with any handles open, is answered as the abstract file system answers it and keeps the disk sound and every live handle on its file |
| `Sessions.Serve` | nachos64/code/filesys/filesys.cc:174-288 | so is every sequence of them, with all responses, up to the first, if any, for a file above the maximum size or through a handle that was closed or whose file was removed |
| `Semaphores.TryKeeps` | nachos64/code/threads/synch.cc:64-74 | one pass of P keeps the queue free of repeats and never leaves more units than awake threads while others sleep |
| `Semaphores.VKeeps` | nachos64/code/threads/synch.cc:84-94 | so does V |
| `SemaphoreRuns.RunsAreSafe` | nachos64/code/threads/synch.cc:64-94 | in every run value + completed P = initial + V, and if threads sleep then at least value others are awake and have yet to test |
| `SemaphoreRuns.UnitsAreCounted` | nachos64/code/threads/synch.cc:64-94 | the value is the initial units and one for each V called, less one for each P that found a unit |
| `SemaphoreRuns.AsleepMeansZero` | nachos64/code/threads/synch.cc:64-94 | no thread sleeps for ever beside a unit: when all in P are asleep the value is zero |
| `SemaphoreRuns.WokenSleepsAgain` | nachos64/code/threads/synch.cc:64-94 | a run in which a thread is woken by a V, tests, finds no unit and sleeps again |
| `MonitorRuns.MutualExclusion` | nachos64/code/threads/synch.cc:134-150 | at most one thread is between the P of Acquire and the V of Release, and lockHolder names it once it is set |
| `MonitorRuns.SignalsAreKept` | nachos64/code/threads/synch.cc:163-184 | a waiter is queued if and only if no Signal has picked it, and after that it can always go on, even if the Signal came before its P |
| `MonitorRuns.ConditionIsFifo` | nachos64/code/threads/synch.cc:163-184 | a condition's queue is the threads that called Wait on it, in that order, less as many as Signals have picked |
| `MonitorRuns.SignalPicksFirst` | nachos64/code/threads/synch.cc:175-184 | a Signal gives its unit to the thread that has waited longest |
| `MonitorRuns.AwakeMoves` | nachos64/code/threads/synch.cc:134-184 | a thread that is not asleep can always take its next step |
| `Monitors.BroadcastWakesAll` | nachos64/code/threads/synch.cc:186-190 | Broadcast empties the queue, gives each waiter its unit and touches no other thread |
| `SynchLists.RemovedIsPrefix` | nachos64/code/threads/synchlist.h:80-111 | for any producers and consumers, the items of the Append calls, in lock order, are those removed, one for each Remove that found an item, followed by those in the list |
| `SynchLists.AppendedIsPuts` | nachos64/code/threads/synchlist.h:80-88 | every Append that the lock lets through puts the item of its own call on the list |
| `SynchLists.NoDeadlock` | nachos64/code/threads/synchlist.h:80-111 | while a call is under way some thread can take a step, unless it is a Remove that waits for an item of an empty list |
| `SynchLists.NoItemStranded` | nachos64/code/threads/synchlist.h:80-111 | while a consumer waits unsignalled, signalled consumers on their way number at least as many as the items, and each can go on |
| `Philosophers.NeighboursNeverEat` | nachos64/code/threads/dinningph.cc:19-56 | on a ring of any size, in every run |
| `Philosophers.PickupReturnsEating` | nachos64/code/threads/dinningph.cc:19-30 | pickup returns with its caller Eating, although it uses `if` and not `while` around a Mesa-style Wait |
| `Philosophers.PutdownReturnsThinking` | nachos64/code/threads/dinningph.cc:33-43 | putdown returns with its caller Thinking |
| `Philosophers.SleeperIsHungry` | nachos64/code/threads/dinningph.cc:19-56 | a philosopher inside Wait is Hungry exactly until signalled, and once Eating can go on |
| `Philosophers.AwakeMoves` | nachos64/code/threads/dinningph.cc:19-56 | a philosopher who is not asleep can always take the next step |
| `Philosophers.HungryIsBlocked` | nachos64/code/threads/dinningph.cc:33-56 | whenever the monitor is free a Hungry philosopher has an Eating neighbour |
| `Philosophers.RingFormula` | nachos64/code/threads/dinningph.cc:38-50 | the neighbours that the model uses are those of the modular formulas |
| `Water.AllTheWater` | nachos64/code/threads/threadtest.cc:30-71 | for every order of arrivals molecules = min(hydrogens/2, oxygens), and the atoms left over are those counted |
| `Water.CountersAreThreads` | nachos64/code/threads/threadtest.cc:30-71 | hydrogens and oxygens are the numbers of H and O threads that have done their work |
| `Water.WaterOfThreads` | nachos64/code/threads/threadtest.cc:30-71 | when all threads are through, molecules = min(number of H threads / 2, number of O threads), whatever the interleaving |
| `Water.OneAtWork` | nachos64/code/threads/threadtest.cc:33-70 | the bracket of three semaphores is exclusive |
| `Water.NoDeadlock` | nachos64/code/threads/threadtest.cc:33-70 | while a thread is in the bracket, some thread in it can take a step |
| `Scheduler.OnePlace` | nachos64/code/threads/thread.cc:119-262 | in every reachable state each thread is in exactly one place, once, and its status says which |
| `Scheduler.FirstInFirstOut` | nachos64/code/threads/scheduler.cc:53-74 | a thread with k others ahead of it on the ready list is what the (k+1)-th later FindNextToRun returns |
| `Scheduler.YieldRotates` | nachos64/code/threads/thread.cc:209-225 | the head of the ready list runs, the caller goes to its end, and nothing else changes |
| `Scheduler.DispatchRunsHead` | nachos64/code/threads/thread.cc:257-261 | the end of Sleep runs the head of the ready list |
| `Scheduler.RunsKeepInv` | nachos64/code/threads/thread.cc:119-262 | what Fork, Yield, P, V, Finish and the end of Sleep keep |
| `Scheduler.System.ReadyToRun` | nachos64/code/threads/scheduler.cc:53-60 | the new state, as the step machine has it |
| `Scheduler.System.FindNextToRun` | nachos64/code/threads/scheduler.cc:70-74 | the head of the ready list leaves it, or nothing happens |
| `Scheduler.System.Run` | nachos64/code/threads/scheduler.cc:90-106 | the next thread becomes current and Running |
| `Scheduler.System.Fork` | nachos64/code/threads/thread.cc:119-137 | a thread not yet forked goes on the ready list; every thread stays in one place |
| `Scheduler.System.Yield` | nachos64/code/threads/thread.cc:209-225 | the head of the list runs and the caller goes to its end; nothing happens if the list is empty |
| `Scheduler.System.Finish` | nachos64/code/threads/thread.cc:178-189 | the finished thread is gone for good, and the next to run is chosen as in Sleep |
| `Scheduler.System.TestInP` | nachos64/code/threads/synch.cc:64-74 | takes a unit, or puts the caller at the end of that semaphore's queue and sleeps: the next to run, or the halt, is as in Sleep with that queue |
| `Scheduler.System.V` | nachos64/code/threads/synch.cc:84-94 | the first sleeper moves to the ready list and the unit is added |
| `Scheduler.SameSemaphore` | nachos64/code/threads/synch.cc:64-94 | P and V in the scheduler's model and on a semaphore on its own agree |
| `Scheduler.System.Sleep` | nachos64/code/threads/thread.cc:246-262 | a ready thread runs at once; otherwise interrupts are taken up to the first with a V on a semaphore that has a sleeper, and the first sleeper so woken runs; it halts if and only if there is no such interrupt; every V done on the way counts |
| `SynchDisks.NeverTwoRequests` | nachos64/code/machine/disk.cc:115-153 | under every interleaving of threads and interrupts a request is issued only while the disk is idle: the ASSERT holds |
| `SynchDisks.CallsAreAtomic` | nachos64/code/filesys/synchdisk.cc:72-109 | a call returns only after the completion interrupt; its request has its place in the log between call and return, and a read has brought back what the atomic sector array held there |
| `SynchDisks.AnswersTheCall` | nachos64/code/filesys/synchdisk.cc:72-97 | the request that a call returns with is that call's own operation, put in the log after the call |
| `SynchDisks.LogIsCalls` | nachos64/code/filesys/synchdisk.cc:72-97 | the log is the operations called, in the order in which the device was given them |
| `SynchDisks.NoDeadlock` | nachos64/code/filesys/synchdisk.cc:72-109 | while a call is under way some thread can take a step or the disk's interrupt is pending |
| `SynchDisks.ReplayIsLatest` | nachos64/code/filesys/synchdisk.cc:72-97 | what the array holds in a sector is the last write to it in the log |
| `SynchDisks.ReadReturnsLatestWrite` | nachos64/code/filesys/synchdisk.cc:72-97 | ReadSector returns what the latest earlier WriteSector to the sector stored |
| `Devices.IssueKeeps` | nachos64/code/filesys/synchdisk.cc:72-109 | lock, request, wait for the interrupt, unlock: at most one request is outstanding, for any number of threads |
| `Devices.NoDeadlock` | nachos64/code/filesys/synchdisk.cc:72-109 | while a call is under way some thread can take a step or a completion interrupt is pending |
| `MailFormat.UnwrapWrap` | nachos64/code/network/post.cc:219-289 | headers, reply address and payload survive the packet format |
| `PostOffices.ReceivedInOrder` | nachos64/code/network/post.cc:97-137 | over every run with any loss, the messages received from a mailbox are messages sent to it, unchanged, in the order sent, none twice |
| `PostConservation.MailIsConserved` | nachos64/code/network/post.cc:219-343 | in every run the messages sent to a machine are those of the Send calls in order of transmission, and each that the network did not lose is in exactly one place: on the wire, in the slot, in the worker's hands, or in a mailbox, received or not |
| `PostConservation.PollConserves` | nachos64/code/machine/network.cc:57-85 | a poll moves one packet from the wire to an empty slot and leaves the others |
| `PostOffices.WorkerFindsMail` | nachos64/code/network/post.cc:219-244 | the postal worker never reads an empty slot, and its ASSERTs hold |
| `PostOffices.WorkerSleepsOnEmpty` | nachos64/code/network/post.cc:219-244 | the worker never sleeps beside a packet in the slot |
| `PostOffices.WorkerMoves` | nachos64/code/network/post.cc:219-244 | while it is not asleep some step takes the worker, or a thread that holds its mailbox, further |
| `PostOffices.SlotIsKept` | nachos64/code/machine/network.cc:57-85 | a buffered packet stays in the slot through any steps and arrivals for as long as the worker has not taken it |
| `PostOffices.OnePacketAtATime` | nachos64/code/network/post.cc:259-289 | a machine transmits only after the packet before was confirmed |
| `Lists.List.Append` | nachos64/code/threads/list.h:125-138 | the contents of the linked list grow by one at the end |
| `Lists.List.Prepend` | nachos64/code/threads/list.h:152-165 | and by one at the front |
| `Lists.List.Remove` | nachos64/code/threads/list.h:175-180 | the first item, or nothing if the list is empty |
| `Lists.List.IsEmpty` | nachos64/code/threads/list.h:204-212 | whether the contents are empty |
| `Lists.List.SortedInsert` | nachos64/code/threads/list.h:229-254 | the new element comes before the first with a larger key; first, last and next stay consistent |
| `Lists.List.SortedRemove` | nachos64/code/threads/list.h:269-289 | the head with its key, and the cached last element is reset with it |
| `Lists.InsertedIsSorted` | nachos64/code/threads/list.h:229-254 | a sorted list stays sorted |
| `Lists.InsertedAdds` | nachos64/code/threads/list.h:229-254 | and holds one entry more, no other lost |
| `Lists.InsertedIsStable` | nachos64/code/threads/list.h:229-254 | the new entry is last among its equals, which keep their order |
| `Lists.InsertionsSort` | nachos64/code/threads/list.h:229-254 | any series of sorted insertions leaves the stable sort of what was inserted |
| `Lists.StableSortIsUnique` | nachos64/code/threads/list.h:229-254 | and there is only one such list |
| `Lists.PutBackKeepsOrder` | nachos64/code/machine/interrupt.cc:309-311 | putting a head that is not yet due back changes nothing if and only if no other entry has its due time |
| `Interrupts.PutBackServed` | nachos64/code/machine/interrupt.cc:307-319 | a check that does not fire keeps the queue in order of due time and scheduling if and only if the head has no equal |
| `Interrupts.FirstComeFirstServed` | nachos64/code/machine/interrupt.cc:150-336 | up to any point of any run, all that has fired and all that waits is in order of due time and, among equals, of scheduling if and only if no put-back before it met an equal |
| `Interrupts.TickServesIff` | nachos64/code/machine/interrupt.cc:150-179 | a tick fires in that order if and only if what came due was in that order in the queue |
| `Interrupts.OvertakenInterrupt` | nachos64/code/machine/interrupt.cc:307-311 | a run in which the second of two interrupts scheduled for the same time fires first |
| `Interrupts.FiredOnTime` | nachos64/code/machine/interrupt.cc:150-336 | in every run: never early, in order of due time, less than ten ticks late unless a timer; total = idle + system + user ticks |
| `Interrupts.FiredOnce` | nachos64/code/machine/interrupt.cc:264-336 | in every run each interrupt is in the queue or has fired, once, and none twice |
| `Interrupts.ScheduledAsAsked` | nachos64/code/machine/interrupt.cc:264-336 | in every run the interrupts scheduled are, in order, exactly those asked for from outside and by the handlers of what has fired, each due at the time of the request plus its delay |
| `Interrupts.TickSwitches` | nachos64/code/machine/interrupt.cc:165-179 | a tick ends in a context switch if and only if one was asked for before it or by a handler that it runs |
| `Interrupts.TicksAreCharged` | nachos64/code/machine/interrupt.cc:155-162 | system ticks are 10 for each tick in system mode and user ticks 1 for each in user mode |
| `Interrupts.FireProgress` | nachos64/code/machine/interrupt.cc:290-336 | a firing leaves one entry fewer due at the unmoved clock, whatever its handler schedules: why the drain loop ends |
| `Interrupts.DrainFires` | nachos64/code/machine/interrupt.cc:165-171 | the drain loop fires entries that were due at its start, in queue order |
| `Interrupts.DrainLeaves` | nachos64/code/machine/interrupt.cc:313-319 | it leaves none of them, except a lone timer on an idle machine |
| `Interrupts.TickFires` | nachos64/code/machine/interrupt.cc:150-179 | one tick moves the clock by 10 or by 1 and fires exactly the entries due by then, in queue order |
| `Interrupts.TickLeavesNone` | nachos64/code/machine/interrupt.cc:165-171 | and afterwards nothing is due |
| `Interrupts.IdleFires` | nachos64/code/machine/interrupt.cc:210-234 | idling moves the clock to the head's due time and fires the head then; it fires nothing and halts if and only if the queue is empty or holds one timer alone |
| `Interrupts.Interrupt.Schedule` | nachos64/code/machine/interrupt.cc:264-275 | the new pending interrupt is entered at its due time |
| `Interrupts.Interrupt.CheckIfDue` | nachos64/code/machine/interrupt.cc:290-336 | whether it fires and the whole new state, in each of its cases; what it schedules is what the handler that it ran asked for |
| `Interrupts.Interrupt.OneTick` | nachos64/code/machine/interrupt.cc:150-179 | the new state after the drain; what it schedules is what the handlers asked for, and a context switch is due if and only if one of them or an earlier call asked for it |
| `Interrupts.Interrupt.Idle` | nachos64/code/machine/interrupt.cc:210-234 | the new state, and whether the machine goes on |
| `Interrupts.Interrupt.SetLevel` | nachos64/code/machine/interrupt.cc:114-127 | the old level, and a tick if interrupts go from off to on; turning them off is allowed in a handler too |
| `Multiplier.MultWords` | nachos64/code/machine/mipssim.cc:657-678 | the loop with its carry test, early break and arithmetic shift gives the product of the two words, for all words |
| `Multiplier.Mult` | nachos64/code/machine/mipssim.cc:635-692 | hi and lo are the exact 64-bit product, signed (with -2^31) and unsigned |
| `DiskTiming.BufferTest` | nachos64/code/machine/disk.cc:240-247 | the track-buffer test holds if and only if the head is on the track and the sector's whole slot lies between bufferInit and the next boundary |
| `DiskTiming.RequestTiming` | nachos64/code/machine/disk.cc:232-253 | 500 ticks for each track crossed, then to the next sector boundary; a read on the same track of a sector that passed in full since bufferInit takes 500 ticks; every other request ends as the head leaves the sector for the first time after that boundary; none takes more than 31999 |
| `DiskTiming.NextSlotIsFirst` | nachos64/code/machine/disk.cc:202-209 | and it is the first time that the sector passes after the seek |
| `DiskTiming.Disk.ComputeLatency` | nachos64/code/machine/disk.cc:232-253 | the latency that those lemmas are about |
| `DiskTiming.Disk.UpdateLast` | nachos64/code/machine/disk.cc:261-271 | the track buffer restarts at a sector boundary after a seek and only then |
| `DiskTiming.Disk.Request` | nachos64/code/machine/disk.cc:115-153 | what is scheduled, and that the track buffer was always started in the past when a request is made |
| `DiskTiming.Disk.HandleInterrupt` | nachos64/code/machine/disk.cc:161-166 | the disk is idle again, with the buffer as it was |
| `SecondChance.VictimIsFirstUnused` | nachos64/code/userprog/exception.cc:77-85 | for any ring size: the first unused entry in ring order, or the starting entry if all are used |
| `SecondChance.VictimInTurn` | nachos64/code/userprog/exception.cc:80-85 | stepping by (hand + 1) mod n, the hand passes used entries only, at most once round, and stops at the first unused one |
| `SecondChance.SweptInTurn` | nachos64/code/userprog/exception.cc:80-85 | the entries passed lose their use bits, and no others do |
| `SecondChance.Machine.FindTlbVictim` | nachos64/code/userprog/exception.cc:80-85 | stops within one turn at that victim, having cleared exactly the use bits it passed |
| `SecondChance.Machine.FindFrameVictim` | nachos64/code/userprog/exception.cc:128-142 | the same for main memory, where the bits are in the page tables of the frames' owners |

## Left out

- FileHeaders.FileHeader.Allocate: takes a size above 3840 only where it fails, because the code does not check MaxFileSize and where there is room a larger file overruns `dataSectors`. Negative sizes are left out.
- FileSystems.FileSystem.Create: takes such sizes only, for the same reason.
- FileSystems.FileSystem.Write: goes through handles on files that are still listed; a handle on a removed file is not covered: the documentation leaves it to be written as an exercise (nachos64/doc/filesys.tex, lines 111 to 116).
- FileSystems.FileSystem.Read: the same.
- Sessions.Serve: requests come one at a time; the code promises neither concurrent file-system calls nor crash consistency.
- OpenFiles.OpenFile.ReadAt: asks for a position of at least 0 when there are bytes to move, because before the start of the file the code indexes `dataSectors` below 0.
- OpenFiles.OpenFile.Read: asks the same of the seek position, which Seek does not check.
- OpenFiles.OpenFile.Write: the same.
- OpenFiles.OpenFile.WriteAt: asks the same of the position, and says nothing of bytes past the end of the file in its last sector, which the code does not keep; position + numBytes does not overflow.
- Directories.Directory.Add: the tenth name byte and the padding of an entry are not part of what it promises.
- The memory of new C++ objects is a parameter (the `garbage` arguments), and `delete` is not modelled.
- Semaphores, locks, conditions, SynchList, the dining philosophers, the water threads, SynchDisk and the post office are step machines on values and not objects updated in place: an object with methods cannot show the interleavings. The file system uses the synchronous disk as the atomic array that `SynchDisks` shows it to be.
- Water.AllTheWater: the code between the P and the V calls is one step; `Water.OneAtWork` shows that nobody else is there meanwhile. The same goes for the bodies of the dining philosophers' monitor.
- Monitors.BroadcastWakesAll: the code's Broadcast is a loop of Signals, all with the lock held; the model runs them as one.
- Interrupts.Interrupt.OneTick: ends where Yield is called; the status that the code restores after it is the caller's to restore. The pending list is the sequence of its contents, not the linked list of `Lists`, and tick counts do not overflow.
- Scheduler.System.Sleep: SWITCH, stacks and the deletion of finished threads are not modelled; returning from it means that the thread dispatched goes on.
- PostOffices.ReceivedInOrder: `sendBusy`, which the code never sets, and the padding of packets to the wire size are not modelled; addresses are those of existing machines.
- DiskTiming.Disk.Request: the data moved is in `SynchDisks` and not here; the clock is a parameter.
- SecondChance.Machine.FindFrameVictim: frames belong to distinct live pages, which is taken as given.
- Random numbers of the timer and of packet loss are arbitrary choices.
- The instruction interpreter apart from multiplication: many branches that would each be a one-line fact.
- Paging as a whole: the code leaves stale TLB entries behind, so pages are not transparent to programs.
- Exit, Exec, Fork and Join of user programs, open-file tables and `Semaphore::Destroy`: they depend on pointer lifetimes.
- Console, sockets, host system calls, preemption by the host, debugging output, and the routines that only list or print.
- The converter and disassembler in `bin`, the C++ examples and the user test programs.
