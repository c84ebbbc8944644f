# Models of larvnetd, the delete suite and Xj

This project states and proves what three parts of the Athena tree do.

**larvnetd and cviewd** (`athena/etc/larvnetd`, `athena/etc/cviewd`).
`TimerHeap` is the heap of timers with back pointers; it is proved to be the queue of `PriorityQueue`
in every run.  `PrinterDaemon` is the daemon as a step relation: resolver answers, due timers, reads,
writes and reloads in any order, with the argument blocks that move between resolver and timers; its
main result is that in every run each printer has exactly one pending activity, each block exactly
one owner, and nothing refers to a printer of an old configuration, not even while a reload takes
it down.  `PrinterPhases` reads
the phase of each printer off that state -- asleep, waiting for one of two answers, sending, reading -- and
proves which phase follows which in every run, and that both periodic timers keep ticking.  `PrintReply`
cuts the reply of a print server into lines however it arrives.  `Machines` holds the workstations in order of their
names, `Stations` polls them, `ConfigFile` reads the configuration, `ConfigLines` states what
its lines mean as they are written.  `StatusText` and `StatusReport` hold
the writer and the reader of the status files and the round trip between them, `StatusExact` exactly
when it succeeds.

**The delete suite** (`athena/bin/delete`).
`Glob` is the file name matcher, `ByteStack` and `StringArray` the two containers, `Paths` the string
helpers.  `PathSearch` (do_match) and `TreeListing` (do_recurs, find_matches) are the searches written
with gotos over the byte stack, each proved equal to a short recursive definition, which in turn is
proved to mean what a reader would expect.  `SearchResults` says what they return in terms of texts and
directories alone.  `FileForest` is the forest of linked file records,
`Expunge` the walk that frees it, `ExpungeCommand` the command from the paths given to the files
removed, `DeleteTree` the marking of whole trees by `delete -r`.

**Xj** (`athena/lib/Xj`).
`JetTree` holds the three tree walks that use only parent, sibling and child links, `AlarmQueue` the
sorted alarm list with its free list, `MenuBar` the pointer state machine of the menus, `MenuUse` what a user gets from it.

## Conventions

- Code that updates records or buffers in place is a class with methods; each method is proved
  against a function or predicate that does not mention the method, and the lemmas are about those.
- Linked records that are released (`FileForest`, `Expunge`, `JetTree`, `AlarmQueue`) live in a map from
  addresses to records.  A released address leaves the map and every access needs the address to be
  in it, so the proofs include that no released record is read or written.
- The clock, the resolver, select, reads, writes, readdir, lstat and the callbacks of widgets are
  parameters or steps chosen freely.  Integers and times are unbounded.
- Bytes on the stack of the delete suite are symbolic cells: a character, or one byte of a pointer
  or length.  `MAXPATHLEN` is 4096 and `BUFSIZ` is 8192.

## Where the code differs from what one would expect

- `real_cmp` treats two stars at the end of a pattern as one star that needs a character: `**` does
  not match the empty name.  `Glob.RealCmpMeaning` states what the code does for every well-formed
  pattern, `Glob.TwoStarsAtEnd` the exact difference, and `Glob.TwoStarsIff` that a pattern fails on
  some name exactly if it ends in two stars and matches anything at all.
- A configuration that does not parse leaves the old one in place, but the main loop starts all
  polls again: `PrinterDaemon.FailedReload` proves that this is harmless exactly if there are no
  printers.
- A reply line that does not fit the buffer is cut and its rest counted as a line of its own:
  `PrintReply.AnySplittingOfReply` covers every reply, `PrintReply.CountedRight` says exactly when the
  counts are right all the same, and `PrintReply.LongLineMiscounted` gives a reply that is miscounted
  for every size of the buffer.
- `ws_poll` never resets `startmachine` once it exceeds the number of machines, which a reload that
  shortens the list causes (`Stations.Stranded`); then nothing is polled any more.  As long as it does
  not, every machine that stays due is polled within a bounded number of passes
  (`Stations.Poller.WsPolls`).
- A pass that goes on behind a stalled one ignores the machines before its start when it computes how
  long to sleep.  It sleeps past the time of some machine exactly if that of one of those comes first
  (`Stations.Poller.WsPoll`, `Stations.OversleepsIff`); with twenty machines it sleeps half an hour while
  all are due after five seconds (`Stations.Overslept`).
- Clusters without a phone, columns of several words and names that begin with a hyphen do not
  survive the status files: `StatusExact.SurvivesIff` is the exact condition for every configuration that
  `ConfigFile.ReadConfig` accepts.  The printer file never loses anything.
- A wake-up procedure that leaves an alarm no later than its own, or takes its own alarm back, makes
  the flush release an alarm that was not called, or follow a null pointer
  (`AlarmQueue.FirstAgain`, `AlarmQueue.Misfire`, `AlarmQueue.Queue.CallFirst`).

## Model

| member | source | states |
|---|---|---|
| `PriorityQueue.Conservation` | athena/etc/larvnetd/timer.c:87-201 | over every run of the queue a timer is set exactly as often as it leaves, unless it still waits |
| `PriorityQueue.Shrinks` | athena/etc/larvnetd/timer.c:103-201 | without new timers the queue only loses entries and never alters one |
| `PriorityQueue.DrainIsSorted` | athena/etc/larvnetd/timer.c:180-201 | while nothing is set, timers fire in nondecreasing order of deadline |
| `PriorityQueue.DrainFiresExactlyTheDue` | athena/etc/larvnetd/timer.c:180-201 | processing at one time until idle fires exactly the timers due then |
| `PriorityQueue.Undue` | athena/etc/larvnetd/timer.c:180-201 | a timer that is not due stays unchanged throughout |
| `TimerHeap.FitKeepsOrder` | athena/etc/larvnetd/timer.c:36-78 | one assignment of a heap slot keeps the order if the timer fits between parent and children |
| `TimerHeap.AppendKeepsOrder` | athena/etc/larvnetd/timer.c:36-56 | a timer not before its parent may be appended |
| `TimerHeap.RootIsEarliest` | athena/etc/larvnetd/timer.c:180-215 | slot 0 of an ordered heap has the least deadline |
| `TimerHeap.Heap.Reset` | athena/etc/larvnetd/timer.c:103-149 | deleting any pending timer keeps order and back pointers and leaves exactly the others |
| `TimerHeap.Heap.Detach` | athena/etc/larvnetd/timer.c:103-149 | the slots hold the old timers minus the deleted one, each knowing its position |
| `TimerHeap.Heap.CloseHole` | athena/etc/larvnetd/timer.c:113-146 | both directions move the hole to the last slot without reading the deleted timer |
| `TimerHeap.Heap.FillUpward` | athena/etc/larvnetd/timer.c:121-130 | the upward loop keeps order and links until the last timer fits |
| `TimerHeap.Heap.FillDownward` | athena/etc/larvnetd/timer.c:131-145 | the downward loop does so too, also when the last slot itself is the minimum |
| `TimerHeap.Heap.FillFrom` | athena/etc/larvnetd/timer.c:74-78 | one assignment moves a timer and its back pointer and leaves the hole where it came from |
| `TimerHeap.Heap.Assign` | athena/etc/larvnetd/timer.c:74-78 | copying one slot over a stale one keeps every back pointer and makes the other slot stale |
| `TimerHeap.Heap.Least` | athena/etc/larvnetd/timer.c:135-139 | the earliest of both children and the last timer fits the hole |
| `TimerHeap.Heap.SiftUp` | athena/etc/larvnetd/timer.c:167-175 | the insertion loop restores order with the new timer in it |
| `TimerHeap.Heap.SettleParent` | athena/etc/larvnetd/timer.c:169-173 | one turn moves the parent down and the gap up |
| `TimerHeap.Heap.SettleTimer` | athena/etc/larvnetd/timer.c:174-175 | the new timer in the gap completes the heap |
| `TimerHeap.Heap.Grow` | athena/etc/larvnetd/timer.c:155-165 | resizing keeps every slot |
| `TimerHeap.Heap.AddTimer` | athena/etc/larvnetd/timer.c:151-178 | exactly the new timer is added |
| `TimerHeap.Heap.Insert` | athena/etc/larvnetd/timer.c:167-177 | the same once there is room |
| `TimerHeap.Heap.Attach` | athena/etc/larvnetd/timer.c:167-177 | the slots hold the old timers and the new one, each knowing its position |
| `TimerHeap.Heap.SetAbs` | athena/etc/larvnetd/timer.c:92-101 | a step of the queue |
| `TimerHeap.Heap.Process` | athena/etc/larvnetd/timer.c:180-201 | what fires is due and the earliest, and its procedure and argument are those it was set with |
| `TimerHeap.Heap.Timeout` | athena/etc/larvnetd/timer.c:203-215 | the time from now to the earliest deadline, zero only once that has come; none exactly if nothing is pending |
| `TimerHeap.Play` | athena/etc/larvnetd/timer.c:87-215 | every sequence of requests on the heap is a run of the queue |
| `TimerHeap.PlayOne` | athena/etc/larvnetd/timer.c:87-201 | each request is one step of the queue or changes nothing |
| `PrintReply.EatAppend` | athena/etc/larvnetd/printer.c:262-323 | reading character by character does not depend on where a read ends |
| `PrintReply.EatLines` | athena/etc/larvnetd/printer.c:288-323 | characters one by one give the counts of the lines, each cut to what the buffer keeps |
| `PrintReply.FeedAllIsEat` | athena/etc/larvnetd/printer.c:262-323 | any legal sequence of reads equals reading character by character, and the buffer is never full between reads |
| `PrintReply.AnySplittingOfReply` | athena/etc/larvnetd/printer.c:262-323 | for any reply and any splitting, counts and up flag are those of its lines, cut as the buffer cuts them; the fill level stays below the size |
| `PrintReply.ReplyWithFittingLines` | athena/etc/larvnetd/printer.c:262-323 | if every line with its newline fits, they are those of the lines themselves |
| `PrintReply.NoteAllCounts` | athena/etc/larvnetd/printer.c:295-307 | the counts of lines do not depend on their order: the job lines are added, and the printer is up unless one of the others says it is down |
| `PrintReply.ContainsMeaning` | athena/etc/larvnetd/printer.c:295-307 | the search for a word in a line succeeds if and only if it is there between two other parts |
| `PrintReply.NoteMeaning` | athena/etc/larvnetd/printer.c:295-307 | which words make a line one of a job, or one that says the printer is down, and what either changes |
| `PrintReply.LinesMeaning` | athena/etc/larvnetd/printer.c:292-307 | a reply is its lines, each with its newline, and what follows the last newline |
| `PrintReply.TrimMeaning` | athena/etc/larvnetd/printer.c:313-322 | what the buffer leaves of a line is its end, behind as many full buffers as there are |
| `PrintReply.CountedRight` | athena/etc/larvnetd/printer.c:262-323 | for any reply and any splitting, the counts are those of the whole lines if and only if what the buffer leaves of them has as many job lines and says down exactly if they do |
| `PrintReply.LongLineMiscounted` | athena/etc/larvnetd/printer.c:313-322 | for every size of the buffer a reply in two legal reads whose only job is not counted |
| `PrintReply.Connection.HandleInput` | athena/etc/larvnetd/printer.c:288-323 | one read does to buffer, job count and up flag what the specification of a read says |
| `PrintReply.Connection.TakeLines` | athena/etc/larvnetd/printer.c:292-307 | the line loop notes every complete line and leaves the rest |
| `PrintReply.Connection.FindNewline` | athena/etc/larvnetd/printer.c:294-306 | the first newline, or the end |
| `PrintReply.Connection.Slide` | athena/etc/larvnetd/printer.c:309-311 | the rest of the buffer is moved to its front |
| `PrintReply.Connection.HandleOutput` | athena/etc/larvnetd/printer.c:231-260 | what was written and what is left make up the request; sending ends when nothing is left |
| `PrintReply.ReadReply` | athena/etc/larvnetd/printer.c:262-323 | a whole reply read in any legal pieces |
| `PrinterDaemon.OneActivity` | athena/etc/larvnetd/printer.c:53-333 | a printer's pending activities are the one the invariant names |
| `PrinterDaemon.OneOwner` | athena/etc/larvnetd/printer.c:62-229 | an argument block has exactly one owner, a freed one none |
| `PrinterDaemon.NothingDangles` | athena/etc/larvnetd/config.c:105-121 | every query and every poll timer refers to a live block of the current configuration |
| `PrinterDaemon.SocketsInUse` | athena/etc/larvnetd/printer.c:210-283 | the open descriptors are exactly those of printers |
| `PrinterDaemon.NeverDangling` | athena/etc/larvnetd/printer.c:62-323 | whatever happens next, the blocks it is given are live and of the current configuration, those of workstations too, and the descriptor it reads or writes is open; for a reload, every query can be halted and every socket, timer and block released |
| `PrinterDaemon.GoodIsHaltable` | athena/etc/larvnetd/config.c:105-108 | every pending query holds a live block of its own, whose printer or workstation is still configured, so that destroying the channel reads and frees only what is there |
| `PrinterDaemon.GoodIsFreeable` | athena/etc/larvnetd/config.c:477-485 | the sockets of printers are open, their timers pending, and the blocks of those live and held by nothing else |
| `PrinterDaemon.PollKeeps` | athena/etc/larvnetd/printer.c:62-85 | starting a poll keeps the invariant and gives the printer an activity |
| `PrinterDaemon.AnsweredKeeps` | athena/etc/larvnetd/printer.c:87-229 | so does every answer of the resolver |
| `PrinterDaemon.FiredKeeps` | athena/etc/larvnetd/larvnetd.c:177-257 | so does every timer that fires |
| `PrinterDaemon.WritableKeeps` | athena/etc/larvnetd/printer.c:231-260 | so does every write |
| `PrinterDaemon.ReadableKeeps` | athena/etc/larvnetd/printer.c:262-323 | so does every read |
| `PrinterDaemon.RereadClears` | athena/etc/larvnetd/config.c:56-121 | after a reload no query, socket, block or poll timer is left, and no other timer is lost |
| `PrinterDaemon.RereadKeeps` | athena/etc/larvnetd/config.c:56-121 | a reload keeps the invariant, with every printer idle |
| `PrinterDaemon.StartPollsKeeps` | athena/etc/larvnetd/printer.c:53-60 | starting polls makes every printer busy |
| `PrinterDaemon.StepKeeps` | athena/etc/larvnetd/larvnetd.c:177-257 | every step but a failed reload keeps the invariant |
| `PrinterDaemon.ProperIsSound` | athena/etc/larvnetd/printer.c:53-333 | the invariant implies one activity per printer, one owner per block, no stale reference, and open descriptors for exactly the connected printers |
| `PrinterDaemon.EveryRunIsSound` | athena/etc/larvnetd/larvnetd.c:177-257 | every state of every run in which each reload parses is sound, and every event that can happen in it, a reload too, touches only live memory |
| `PrinterDaemon.ReplyCounted` | athena/etc/larvnetd/printer.c:262-323 | in any run, whatever else happens in between, the job count and status of a printer whose reply ends are those of the lines of all that was read for it, each cut to what the buffer keeps |
| `PrinterPhases.OnePhase` | athena/etc/larvnetd/printer.c:53-333 | every printer is asleep until a poll, waits for the Hesiod or the host answer, sends or reads, and never two of these |
| `PrinterPhases.PhaseStep` | athena/etc/larvnetd/printer.c:53-323 | whatever happens, a printer goes from its phase to the one that follows, and to none if the event is not its own: a failed answer, a failed write or the end of a reply puts it to sleep for 60 seconds, the last byte written makes it read |
| `PrinterPhases.ReplyStep` | athena/etc/larvnetd/printer.c:87-229 | a resolved Hesiod answer leaves a query for the host that holds the same block; a resolved host answer leaves an open socket |
| `PrinterPhases.ConnectPhase` | athena/etc/larvnetd/printer.c:169-229 | and the request for the name of that printer to be sent on it, with nothing counted yet |
| `PrinterPhases.RestartPhase` | athena/etc/larvnetd/larvnetd.c:186-194 | after a reload each printer waits for its Hesiod answer, or sleeps 60 seconds if the query cannot be started |
| `PrinterPhases.PhasesOfRun` | athena/etc/larvnetd/larvnetd.c:186-257 | in every run, between reloads, the phase of each printer is what its own events make of it |
| `PrinterPhases.RequestGoesOut` | athena/etc/larvnetd/printer.c:231-260 | from the connection on exactly the request is written, in whatever pieces |
| `PrinterPhases.CompletePoll` | athena/etc/larvnetd/printer.c:210-323 | in every run, a poll without failures ends with the counts of the lines that came back and the next poll due 60 seconds later |
| `PrinterPhases.CarryMeaning` | athena/etc/larvnetd/config.c:89-103 | the status kept is that of the last printer of the name |
| `PrinterPhases.ReloadKeepsStatus` | athena/etc/larvnetd/config.c:89-103 | after a reload a printer that was configured has the status it had, a new one is down without jobs |
| `PrinterPhases.ClockStep` | athena/etc/larvnetd/larvnetd.c:177-257 | no event changes the periodic timers, except that one that fires is set again: a report after 60 seconds, a pass after the time that it returned |
| `PrinterPhases.EveryRunTicks` | athena/etc/larvnetd/larvnetd.c:177-257 | in every state of every run a pass over the workstations and a report are each set exactly once |
| `PrinterPhases.StartUpTicks` | athena/etc/larvnetd/larvnetd.c:177-183 | so they are when the main loop begins |
| `PrinterDaemon.StartUpIsProper` | athena/etc/larvnetd/larvnetd.c:177-183 | the state in which the main loop begins, with the first queries for workstations, the polls of all printers and both periodic timers, has the invariant |
| `PrinterDaemon.FailedReload` | athena/etc/larvnetd/config.c:56-68 | a failed reload leaves a sound state if and only if there are no printers |
| `PrinterDaemon.Daemon.PrinterStartPolls` | athena/etc/larvnetd/printer.c:53-60 | a poll for each printer in order |
| `PrinterDaemon.Daemon.DestroyAll` | athena/etc/larvnetd/config.c:105-108 | destroying the channel ends every query; each callback finds its block allocated and its printer or workstation configured |
| `PrinterDaemon.Daemon.FreeConfiguration` | athena/etc/larvnetd/config.c:468-485 | open sockets are closed, pending timers reset and their allocated blocks freed, each once; the records of the old configuration are gone |
| `PrinterDaemon.Daemon.CopyPrinters` | athena/etc/larvnetd/config.c:89-103 | printers that keep their name keep their status |
| `PrinterDaemon.Daemon.RereadConfig` | athena/etc/larvnetd/config.c:56-121 | the whole reload, in an order in which nothing is used after it is freed: the channel cannot be destroyed after the configuration |
| `PrinterDaemon.Daemon.Reload` | athena/etc/larvnetd/larvnetd.c:188-194 | reload and new polls make a proper state |
| `PrinterDaemon.Daemon.Start` | athena/etc/larvnetd/larvnetd.c:177-183 | the procedures called before the main loop lead from a configuration just read to that state |
| `PrinterDaemon.Daemon.Turn` | athena/etc/larvnetd/larvnetd.c:186-257 | every event, handled by the daemon's own procedures, is one step of the relation, touches only live memory, a reload too, and keeps the invariant unless it is a failed reload |
| `PrinterDaemon.Daemon.Play` | athena/etc/larvnetd/larvnetd.c:186-257 | any run of the main loop goes through exactly the states of the relation, and each of them is sound |
| `Stations.RestIsPositive` | athena/etc/larvnetd/ws.c:48-51 | a machine that is not due, or was just polled, can be left alone for at least a second |
| `Stations.NotDueBefore` | athena/etc/larvnetd/ws.c:117-121 | until the computed time a machine does not become due |
| `Stations.NoneDueMeanwhile` | athena/etc/larvnetd/ws.c:117-131 | a sleep within the time of every machine passes over no machine |
| `Stations.OversleepsIff` | athena/etc/larvnetd/ws.c:62-132 | a sleep that suits the machines from start on is too long exactly if one before them is due within it |
| `Stations.Poller.WsPoll` | athena/etc/larvnetd/ws.c:62-132 | the due machines, at most twenty, are polled in order and no others change; numpolls stays an index of the schedule and more than eight polls without answer mean unknown; the next pass is 1 to POLLINT seconds away, and exactly the least time of the machines looked at when the pass came to the end; it then passes over the time of a machine exactly if it does so for one before its start |
| `Stations.PassProgress` | athena/etc/larvnetd/ws.c:62-132 | a pass that does not poll a due machine starts the next one closer to it: twenty further on, or at the start |
| `Stations.Poller.WsPolls` | athena/etc/larvnetd/ws.c:62-132 | from within the list a machine that stays due is polled within (i - start)/20 + 1 passes, or those to the end and back to it; from beyond the list nothing is ever polled |
| `Stations.Poller.Serve` | athena/etc/larvnetd/ws.c:62-191 | passes and packets in any order, told from the log of polls sent and packets heard: each machine has been polled as often since its last packet as it counts, up to 16; it is in the state of that packet, or unknown once nine polls have gone unanswered; and it is polled only when silent for half an hour and past the wait for that number of polls |
| `Stations.RestIsExact` | athena/etc/larvnetd/ws.c:117-121 | the time computed for a machine ends with the half hour after its last packet or, if that is over, in the second in which it becomes due |
| `Stations.Poller.Reload` | athena/etc/larvnetd/config.c:70-87 | each machine of the new list is as configured or carries the state of an old machine of its name, every old machine that is still configured is carried over to one of its name, and startmachine is kept |
| `Stations.CopyMachines` | athena/etc/larvnetd/config.c:70-87 | the loop that does so |
| `Stations.Stranded` | athena/etc/larvnetd/ws.c:108-128 | a stalled pass and a reload to fewer machines lead to a state from which nothing is polled, whatever the clock says |
| `Stations.Overslept` | athena/etc/larvnetd/ws.c:108-128 | two passes over any twenty new machines lead to a sleep of half an hour while all of them are due after five seconds |
| `Stations.Poller.HandleStatus` | athena/etc/larvnetd/ws.c:134-191 | a valid packet sets the state and resets the polls of one machine of its name in any case, if there is one; any other packet changes nothing |
| `Machines.WsFind` | athena/etc/larvnetd/ws.c:193-197 | finds a machine of the name in any case if and only if there is one |
| `Machines.WsSort` | athena/etc/larvnetd/ws.c:199-203 | the same machines, in order of their names |
| `Machines.LexMeaning` | athena/etc/larvnetd/ws.c:199-203 | one name is not behind another if and only if it begins it or has the smaller character where they first differ |
| `Stations.ParseRoundTrip` | athena/etc/larvnetd/ws.c:157-168 | state, name and architecture are read as the packet was composed |
| `ConfigFile.ReadConfig` | athena/etc/larvnetd/config.c:123-405 | a file is accepted exactly if no line is refused, with exactly what its lines say and the workstations in order of their names; every accepted configuration has valid indices and what the status files need but for the exact condition |
| `ConfigFile.AcceptedIsSound` | athena/etc/larvnetd/config.c:218-397 | each printer and workstation belongs to a cluster, each cluster to one group or none, and every name is a single word |
| `ConfigFile.AcceptedIsReportable` | athena/etc/larvnetd/config.c:218-397 | an accepted file meets the conditions of the round trip if and only if phones are given, cluster names do not begin with a hyphen and the options are single words that do not either |
| `StatusExact.SurvivesIff` | athena/etc/larvnetd/report.c:56-221 | a configuration as accepted comes back from the three files if and only if its columns are single words without a leading hyphen, every cluster has a phone unless there are no columns and it is in no group, and no cluster of a group has a name with a leading hyphen; the printer file always comes back |
| `StatusExact.ReportAndRead` | athena/etc/cviewd/cviewd.c:381-573 | writer and reader together, for any buffer size and any configuration as accepted: the printers are read as they were, the rest if and only if that condition holds |
| `StatusExact.ClustersIff` | athena/etc/larvnetd/report.c:101-175 | the part of this that concerns the cluster file |
| `StatusExact.CgroupsIff` | athena/etc/larvnetd/report.c:56-87 | the part that concerns the group file |
| `StatusExact.HeadingIff` | athena/etc/cviewd/cviewd.c:400-415 | the column names come back if and only if each is a single word without a leading hyphen |
| `StatusExact.LineBack` | athena/etc/cviewd/cviewd.c:428-449 | what is read from a cluster's line with and without a phone |
| `StatusExact.DialupsIff` | athena/etc/cviewd/cviewd.c:540-557 | the clusters of a group come back if and only if each has a phone and a name without a leading hyphen |
| `StatusExact.WordsOfLoose` | athena/etc/cviewd/cviewd.c:646-658 | a missing field leaves no trace on its line |
| `ConfigFile.JoinMeaning` | athena/etc/larvnetd/config.c:342-367 | a group line is accepted if and only if its names denote different known clusters in no group yet, and then exactly those are in the new group |
| `ConfigFile.Builder.JoinClusters` | athena/etc/larvnetd/config.c:342-367 | the loops over names and clusters do that |
| `ConfigFile.Builder.FindCluster` | athena/etc/larvnetd/config.c:346-351 | the first cluster of the name |
| `ConfigFile.Builder.HandleLine` | athena/etc/larvnetd/config.c:219-387 | one line of the second part, refused or added |
| `ConfigFile.Builder.AddMachines` | athena/etc/larvnetd/config.c:294-322 | one workstation, or one for each number of the range in its name |
| `ConfigFile.NumberedMachines` | athena/etc/larvnetd/config.c:304-317 | the loop over the range |
| `ConfigFile.KeywordIsFirstWord` | athena/etc/larvnetd/config.c:236-236 | a keyword is recognised if and only if it is the first of several words |
| `ConfigFile.TrimLine` | athena/etc/larvnetd/config.c:221-234 | the line without comment and surrounding white space |
| `ConfigFile.ReadArches` | athena/etc/larvnetd/config.c:155-199 | the architectures up to the divider, net names defaulting to the report name |
| `ConfigLines.FileMeaning` | athena/etc/larvnetd/config.c:155-397 | a file of architectures, a divider and any lines, however indented and commented, is read as what its lines say, or refused if one of them is |
| `ConfigLines.LineMeaning` | athena/etc/larvnetd/config.c:236-387 | what each kind of line says: a cluster, a printer, workstations, a group or an option, with the defaults for what is missing and the cases that are refused |
| `ConfigLines.OthersRefused` | athena/etc/larvnetd/config.c:236-387 | a line that is none of these is refused |
| `ConfigLines.RangeMeaning` | athena/etc/larvnetd/config.c:294-322 | a range in brackets stands for one workstation for each of its numbers, in order |
| `ConfigLines.PlainNameMeaning` | athena/etc/larvnetd/config.c:406-445 | a name without brackets for itself |
| `ConfigLines.BodyIs` | athena/etc/larvnetd/config.c:221-234 | white space around a line and a comment behind it do not matter |
| `StatusText.LineReader.ReadLine` | athena/etc/cviewd/cviewd.c:616-644 | whatever the buffer size, exactly one line is read, the last one with or without its newline |
| `StatusText.LinesOfUnlines` | athena/etc/larvnetd/util.c:81-109 | lines that were written are the lines that are read |
| `StatusText.SkipSpaces` | athena/etc/cviewd/cviewd.c:646-651 | stops at the first character that is not white space |
| `StatusText.SkipNonspaces` | athena/etc/cviewd/cviewd.c:653-658 | stops at the end of the word |
| `StatusText.NextWord` | athena/etc/cviewd/cviewd.c:429-433 | yields the words of a line one after another; numbers and comparisons look at that word only |
| `StatusText.WordsOfUnwords` | athena/etc/cviewd/cviewd.c:646-658 | fields joined by single spaces are the words that are read |
| `StatusText.ShowRoundTrip` | athena/etc/larvnetd/report.c:70-70 | any number that is printed is read back |
| `StatusText.LowerMeaning` | athena/etc/cviewd/cviewd.c:575-581 | for the comparison a capital is the small letter at the same place of the alphabet, and nothing else changes |
| `StatusText.MatchesWord` | athena/etc/cviewd/cviewd.c:575-581 | the comparison holds if and only if the first word equals the given one in any case |
| `StatusReport.FindArch` | athena/etc/larvnetd/report.c:223-247 | the first architecture with the name; one column past the last for others, the next for unknown |
| `StatusReport.CountMachines` | athena/etc/larvnetd/report.c:107-136 | each entry of the matrix counts the free and all machines of that cluster and column |
| `StatusReport.RowSum` | athena/etc/larvnetd/report.c:126-136 | a row, other and unknown included, adds up to the machines of the cluster |
| `StatusReport.FreeWithinTotal` | athena/etc/larvnetd/report.c:129-136 | free never exceeds total |
| `StatusReport.TallyCounts` | athena/etc/larvnetd/report.c:126-136 | an entry of the matrix is the number of machines of the cluster in the column, and of those among them that are neither busy nor unknown |
| `StatusReport.ColumnMeaning` | athena/etc/larvnetd/report.c:223-247 | the column of an architecture is that of the first with the name among its net names, the one past the last if none has it, the next if it is unknown |
| `StatusReport.StatsMeaning` | athena/etc/larvnetd/report.c:142-173 | the numbers under a column name are those of its architecture, of others or of unknown ones |
| `StatusReport.GroupMeaning` | athena/etc/larvnetd/report.c:69-85 | the line of a group names exactly its clusters and the printers in them, in the order of the configuration |
| `StatusReport.ReportPrinters` | athena/etc/larvnetd/report.c:194-221 | the text is one line of four fields for each printer |
| `StatusReport.ReportClusters` | athena/etc/larvnetd/report.c:101-175 | the text is the column names, the divider, and one line for each cluster |
| `StatusReport.ReportCluster` | athena/etc/larvnetd/report.c:154-173 | name, public or private, phone and a pair of counts for each column |
| `StatusReport.ReportColumns` | athena/etc/larvnetd/report.c:142-148 | one line for each column, other and unknown if asked for |
| `StatusReport.ReportCgroups` | athena/etc/larvnetd/report.c:56-87 | one line for each group |
| `StatusReport.ReportCgroup` | athena/etc/larvnetd/report.c:69-85 | name, place, the group's clusters with phones, the divider and the group's printers |
| `StatusReport.ReadPrinters` | athena/etc/cviewd/cviewd.c:455-497 | one entry for each line of any text |
| `StatusReport.ReadPrinter` | athena/etc/cviewd/cviewd.c:484-495 | the entry has the words of the line in order, missing ones empty |
| `StatusReport.ReadClusters` | athena/etc/cviewd/cviewd.c:381-453 | names up to the divider, then an entry for each line |
| `StatusReport.ReadHeading` | athena/etc/cviewd/cviewd.c:400-415 | the first words of the lines before the first that begins with a hyphen |
| `StatusReport.ReadCluster` | athena/etc/cviewd/cviewd.c:428-449 | the entry has the words of the line and as many pairs of counts as there are columns |
| `StatusReport.ReadCgroups` | athena/etc/cviewd/cviewd.c:499-573 | one entry for each line of any text |
| `StatusReport.ReadCgroup` | athena/etc/cviewd/cviewd.c:529-571 | name, place, pairs up to the first word with a hyphen, and the words after it |
| `StatusReport.PrintersRoundTrip` | athena/etc/larvnetd/report.c:194-221 | reading the printer file gives every printer as reported, whatever the clusters are |
| `StatusReport.ClustersRoundTrip` | athena/etc/larvnetd/report.c:101-175 | reading the cluster file gives columns, names, public flags, phones and counts as reported |
| `StatusReport.CgroupsRoundTrip` | athena/etc/larvnetd/report.c:56-87 | reading the group file gives groups, places, clusters and printers as reported |
| `StatusReport.HeadingExact` | athena/etc/cviewd/cviewd.c:403-406 | the columns come back if and only if no name begins with a hyphen |
| `StatusReport.DialupsExact` | athena/etc/cviewd/cviewd.c:543-548 | the clusters of a group come back if and only if no name begins with a hyphen |
| `Glob.RealCmpLoop` | athena/bin/delete/shell_regexp.c:40-113 | the matcher with its loops computes the recursive comparison, errors included |
| `Glob.BracketLoop` | athena/bin/delete/shell_regexp.c:80-107 | so does its bracket case |
| `Glob.ScanClass` | athena/bin/delete/shell_regexp.c:93-104 | the scan of a bracket finds a character if and only if it is in the class |
| `Glob.RealCmpMeaning` | athena/bin/delete/shell_regexp.c:40-113 | on every well-formed pattern no error, and a match if and only if the tokens, as the code reads them, generate the name |
| `Glob.RegCmpMeaning` | athena/bin/delete/shell_regexp.c:30-38 | a well-formed pattern matches a name if and only if the tokens generate it and a leading dot is written in the pattern |
| `Glob.TokensMeaning` | athena/bin/delete/shell_regexp.c:40-113 | a text is a writing of a series of tokens -- characters, quoted characters, `?`, `*` and brackets -- if and only if it is read as that series |
| `Glob.ClassMeaning` | athena/bin/delete/shell_regexp.c:93-104 | a bracket of single characters and ranges contains a character if and only if one of them admits it, both ends of a range included |
| `Glob.RealCmpExact` | athena/bin/delete/shell_regexp.c:40-113 | a pattern that does not end in two stars means exactly its tokens |
| `Glob.TwoStarsAtEnd` | athena/bin/delete/shell_regexp.c:50-61 | what two stars at the end lose: exactly the names of the rest of the pattern |
| `Glob.TwoStarsIff` | athena/bin/delete/shell_regexp.c:50-61 | a well-formed pattern misses some name that it should match if and only if it ends in two stars and each of its brackets admits a character |
| `Glob.TwoStarsMissEmpty` | athena/bin/delete/shell_regexp.c:50-61 | an example |
| `Glob.NoWildcards` | athena/bin/delete/pattern.c:1012-1028 | true if and only if every token is a literal |
| `Glob.LiteralMatches` | athena/bin/delete/pattern.c:1012-1028 | literals generate exactly their unquoted text |
| `Glob.NoWildcardsNamesOneFile` | athena/bin/delete/shell_regexp.c:30-38 | such a pattern matches exactly its text, unless the dot rule forbids it |
| `ByteStack.Stack.Push` | athena/bin/delete/stack.c:42-76 | appends the bytes, growing the block as needed |
| `ByteStack.Stack.Pop` | athena/bin/delete/stack.c:77-120 | takes back exactly the last bytes, or reports an empty stack |
| `ByteStack.Stack.StringPush` | athena/bin/delete/pattern.c:318-327 | pushes text and length |
| `ByteStack.Stack.StringPop` | athena/bin/delete/pattern.c:328-333 | gives back the last string pushed and leaves the stack as before it |
| `ByteStack.Stack.PushPointer` | athena/bin/delete/pattern.c:513-521 | pushes the bytes of a pointer |
| `ByteStack.Stack.PopPointer` | athena/bin/delete/stack.c:77-120 | gives back the pointer pushed |
| `StringArray.Strings.Add` | athena/bin/delete/pattern.c:82-113 | appends a string, growing the block |
| `StringArray.Strings.AddAll` | athena/bin/delete/pattern.c:41-72 | appends another array in order |
| `StringArray.Strings.Store` | athena/bin/delete/pattern.c:82-113 | makes room without changing what is counted |
| `Paths.FirstPart` | athena/bin/delete/util.c:172-188 | splits at the first slash and loses nothing but it |
| `Paths.LastPart` | athena/bin/delete/util.c:145-167 | the text behind the last slash |
| `Paths.LastPartOfAppend` | athena/bin/delete/util.c:94-117 | the last part of a joined path is the name joined to it |
| `Paths.AppendText` | athena/bin/delete/util.c:94-117 | the joined text is the path, a slash unless it ends in one, and the name; nothing if that is too long |
| `Paths.StrRIndex` | athena/bin/delete/util.c:67-87 | the last occurrence, if any |
| `Paths.ConvertToUserName` | athena/bin/delete/util.c:35-47 | drops the last mark |
| `Paths.MarkThenConvert` | athena/bin/delete/util.c:35-47 | undoes the marking of a name without marks |
| `PathSearch.DoMatch` | athena/bin/delete/pattern.c:414-667 | ends, returns exactly the list of the recursive definition in its order, fails exactly when that does, and leaves the stack empty as found |
| `PathSearch.RunToEnd` | athena/bin/delete/pattern.c:473-667 | from any point of the search the rest is found and the stack emptied |
| `PathSearch.Search.Turn` | athena/bin/delete/pattern.c:473-667 | one turn keeps found names plus what is ahead, and does some of the work |
| `PathSearch.Search.Down` | athena/bin/delete/pattern.c:509-621 | entering a directory puts its matches before what was ahead |
| `PathSearch.Search.Up` | athena/bin/delete/pattern.c:623-665 | leaving a directory resumes exactly the one suspended |
| `PathSearch.Search.Suspend` | athena/bin/delete/pattern.c:513-527 | the stack image of the suspended directories grows by one |
| `PathSearch.Search.Resume` | athena/bin/delete/pattern.c:628-664 | and shrinks by one, with the variables restored |
| `PathSearch.Search.Compare` | athena/bin/delete/pattern.c:477-507 | a name is compared as it is, or without its mark when deleted files are wanted |
| `PathSearch.AcceptMeaning` | athena/bin/delete/pattern.c:475-500 | an entry is taken if and only if the component names it, or deleted files are wanted and it is the mark `.#` followed by something that the component names |
| `PathSearch.ComponentsOfText` | athena/bin/delete/util.c:172-188 | the components of a pattern are the names between its slashes, a trailing slash or what follows two slashes aside |
| `PathSearch.ScanFinds` | athena/bin/delete/pattern.c:414-667 | the recursive definition contains a path if and only if its steps match the components one by one and its last part is of a wanted kind |
| `PathSearch.EnterFinds` | athena/bin/delete/pattern.c:509-621 | the same for one directory that matched |
| `PathSearch.MatchesFinds` | athena/bin/delete/pattern.c:414-667 | the same for a whole pattern, relative or absolute |
| `TreeListing.DoRecurs` | athena/bin/delete/pattern.c:755-989 | returns exactly the recursive preorder listing fixed by the options and leaves the stack empty |
| `TreeListing.RunToEnd` | athena/bin/delete/pattern.c:839-989 | from any point the rest is listed and the stack emptied |
| `TreeListing.Lister.Turn` | athena/bin/delete/pattern.c:839-989 | one turn keeps listed names plus what is ahead |
| `TreeListing.Lister.Down` | athena/bin/delete/pattern.c:897-968 | entering a directory puts its listing before what was ahead; one that cannot be opened adds nothing |
| `TreeListing.Lister.Up` | athena/bin/delete/pattern.c:970-987 | leaving a directory resumes the one suspended |
| `TreeListing.EntryReached` | athena/bin/delete/pattern.c:843-968 | an entry leads to itself if listed and to what its directory leads to if entered |
| `TreeListing.ListMeaning` | athena/bin/delete/pattern.c:755-989 | a path is listed if and only if entered directories lead to it and its name is of a listed kind |
| `TreeListing.FindMatches` | athena/bin/delete/pattern.c:185-309 | the concatenation over all matches of the listing below each and then the match itself when wanted; failures and the request for nothing included |
| `TreeListing.ExpandAll` | athena/bin/delete/pattern.c:239-302 | the loop over the matches |
| `TreeListing.Expand` | athena/bin/delete/pattern.c:239-302 | one match |
| `SearchResults.FoundPaths` | athena/bin/delete/pattern.c:414-667 | a path is found if and only if it is made of names joined by slashes, one for each component and taken by it, each in the directory that the names before it lead to, and the last is of a wanted kind; nothing is found only if the first directory cannot be read |
| `SearchResults.ListedPaths` | athena/bin/delete/pattern.c:755-989 | a path is listed below a directory if and only if it is that directory and names joined by slashes, each in the directory before it, which the options go into, and the last one that they ask for |
| `SearchResults.OptionsMeaning` | athena/bin/delete/pattern.c:834-905 | which names the options ask for and which directories they go into |
| `SearchResults.PathIsText` | athena/bin/delete/util.c:94-117 | the path of a search is its base and its steps with slashes between them |
| `SearchResults.FoundFiles` | athena/bin/delete/pattern.c:185-309 | both together, for any options: what is found, and when the search fails |
| `FileForest.Forest.constructor` | athena/bin/delete/directories.c:102-119 | two empty roots |
| `FileForest.Forest.Find` | athena/bin/delete/directories.c:405-452 | the child of the name, or the last of the list and the certainty that there is none |
| `FileForest.Forest.AddChild` | athena/bin/delete/directories.c:405-505 | an existing child of that name and kind, or a new one at the end; all links stay consistent and names unique |
| `FileForest.Forest.Place` | athena/bin/delete/directories.c:161-191 | the child's path is the parent's with the name behind it; every other path and record of specification is kept |
| `FileForest.Forest.Walk` | athena/bin/delete/directories.c:158-175 | the directories of a path are found or made one by one, up to the first that cannot be examined |
| `FileForest.Forest.AddPath` | athena/bin/delete/directories.c:122-194 | succeeds if and only if the path and every directory on its way can be examined; the leaf has the path added, is specified, and nothing that was there loses its path or kind; no new record is flagged |
| `FileForest.Forest.AddPaths` | athena/bin/delete/expunge.c:333-351 | paths are added up to the first that cannot be examined; every leaf ever returned still has its path and kind, exactly those are specified, every record has the size reported for it, and no new record is flagged |
| `FileForest.Forest.GetLeafPath` | athena/bin/delete/directories.c:626-658 | the path of a leaf |
| `FileForest.Forest.FreeLeaf` | athena/bin/delete/directories.c:511-537 | a childless leaf is unlinked and released, any other flagged, the links staying consistent |
| `FileForest.HangKeeps` | athena/bin/delete/directories.c:405-505 | linking a new record keeps the whole forest well formed |
| `FileForest.FreeKeeps` | athena/bin/delete/directories.c:511-537 | so does unlinking one |
| `FileForest.PathsKept` | athena/bin/delete/directories.c:626-658 | paths depend on names and parents only |
| `FileForest.FinishJoins` | athena/bin/delete/directories.c:158-175 | parts put together again are the text they came from |
| `FileForest.CanonicalIsPath` | athena/bin/delete/directories.c:142-158 | the remembered path is the one added, without a leading `./` |
| `FileForest.CanonicalOfSlash` | athena/bin/delete/directories.c:142-158 | one or two slashes behind a path change nothing |
| `FileForest.ExaminableMeaning` | athena/bin/delete/directories.c:142-175 | a path can be added if and only if it and the part of it before each of its slashes can be examined |
| `Expunge.Walker.ExpungeAll` | athena/bin/delete/expunge.c:250-263 | every node is visited once with everything beneath it first, directories before the files beside them and the root tree before the other; removals and space are those of the specified nodes, and both roots are left without children |
| `Expunge.Walker.ExpungeRoot` | athena/bin/delete/expunge.c:250-263 | the same for one root, the other tree unchanged |
| `Expunge.Walker.ExpungeTree` | athena/bin/delete/expunge.c:277-330 | the nodes beneath are visited in postorder and released |
| `Expunge.Walker.ExpungeSiblings` | athena/bin/delete/expunge.c:277-330 | so is a list of siblings, although it shrinks while it is walked |
| `Expunge.Walker.Release` | athena/bin/delete/directories.c:511-537 | a visited node leaves the forest and nothing else does |
| `Expunge.Walker.ReallyDoExpunge` | athena/bin/delete/expunge.c:361-415 | the path is removed, by rmdir or unlink according to its kind, and its size added to the space |
| `Expunge.TwoShapes` | athena/bin/delete/expunge.c:250-263 | the forest is two trees that share no node and hold every node |
| `Expunge.PostDistinct` | athena/bin/delete/expunge.c:277-330 | the postorder of a tree of the forest repeats no node |
| `Expunge.BeneathFirst` | athena/bin/delete/expunge.c:277-330 | and puts children before parents |
| `Expunge.DirsFirstIn` | athena/bin/delete/expunge.c:277-330 | and all directories of a directory before its files |
| `ExpungeCommand.Command` | athena/bin/delete/expunge.c:189-269 | for any paths: nothing is removed unless all can be examined; then exactly the canonical paths given are removed, directories by rmdir and other files by unlink, each once, every path after all paths below it, and the space is the sum of the sizes that the file system reports for them |
| `ExpungeCommand.RemovalIdentifies` | athena/bin/delete/directories.c:626-658 | no two records stand for the same path and kind |
| `ExpungeCommand.LowerPathEarlier` | athena/bin/delete/expunge.c:277-330 | a record whose path is below that of another is visited before it, even if the other is a link beside the directory of that name |
| `ExpungeCommand.SpelledPrefix` | athena/bin/delete/directories.c:626-658 | one path is below another exactly if its list of components begins with that of the other |
| `DeleteTree.FileSystem.Delete` | athena/bin/delete/delete.c:204-315 | a forced delete of a name marks it, a directory with everything below it |
| `DeleteTree.FileSystem.RecursiveDelete` | athena/bin/delete/delete.c:349-419 | first the undeleted contents, then the directory itself |
| `DeleteTree.FileSystem.MarkContents` | athena/bin/delete/delete.c:394-403 | the loop over the contents marks each of them |
| `DeleteTree.FileSystem.Undeleteds` | athena/bin/delete/delete.c:374-392 | the contents to mark are exactly the undeleted names |
| `DeleteTree.FileSystem.EmptyDirectory` | athena/bin/delete/delete.c:321-344 | true if and only if only deleted names are left |
| `DeleteTree.FileSystem.DoMove` | athena/bin/delete/delete.c:434-530 | the name is replaced by its mark, and what had that mark is gone with everything below |
| `DeleteTree.FileSystem.UnlinkCompletely` | athena/bin/delete/delete.c:534-595 | a name and everything below it is gone and nothing else |
| `DeleteTree.FileSystem.ClearDirectory` | athena/bin/delete/delete.c:557-571 | the same for the contents of a directory |
| `DeleteTree.MarkedAtEveryLevel` | athena/bin/delete/delete.c:349-530 | each undeleted path is found under its marked names, and no undeleted name is left beside it |
| `DeleteTree.OldMarksSurvive` | athena/bin/delete/delete.c:434-530 | at any depth, an old deleted file whose place no undeleted file takes survives with everything below it, under the marks of its directory |
| `DeleteTree.EveryPathComesFrom` | athena/bin/delete/delete.c:204-595 | and nothing else survives: every path of the marked tree was undeleted and is found under its marks, or is or lies below such an old file |
| `DeleteTree.MarkTwice` | athena/bin/delete/delete.c:374-403 | marking again changes nothing |
| `DeleteTree.UserNameOfMark` | athena/bin/delete/util.c:35-47 | dropping the last mark of a marked name gives the name |
| `DeleteTree.MarksComeOff` | athena/bin/delete/util.c:35-87 | for trees whose names hold no mark, dropping marks restores the original tree |
| `DeleteTree.UnmarkedIsUnique` | athena/bin/delete/util.c:35-87 | and that is the only tree it can give |
| `JetTree.Toolkit.PreRealizeJet` | athena/lib/Xj/Jets.c:1224-1250 | the class procedures are called in the order of the recursive postorder, each node once |
| `JetTree.Toolkit.RealizeJet` | athena/lib/Xj/Jets.c:1257-1302 | prepared in postorder, realized in preorder; all links as before, the cut ones too; every jet has its own window or its parent's; nothing outside the tree changes |
| `JetTree.Toolkit.RealizeAll` | athena/lib/Xj/Jets.c:1271-1298 | the preorder loop on the cut tree |
| `JetTree.Toolkit.Onward` | athena/lib/Xj/Jets.c:1286-1298 | sibling, or the sibling of the nearest ancestor that has one, is the next tree of the preorder |
| `JetTree.Toolkit.Realize` | athena/lib/Xj/Jets.c:1274-1280 | own window or the parent's |
| `JetTree.Toolkit.DestroyJet` | athena/lib/Xj/Jets.c:1405-1453 | the jet leaves its parent's list, which stays well linked; its records are released in postorder, each once, and none is read after its release |
| `JetTree.Toolkit.UnlinkJet` | athena/lib/Xj/Jets.c:1411-1421 | exactly one link changes |
| `JetTree.Toolkit.ReleaseAll` | athena/lib/Xj/Jets.c:1422-1453 | exactly the records of the tree are gone |
| `JetTree.SameVisits` | athena/lib/Xj/Jets.c:1224-1302 | preorder and postorder visit the same nodes equally often |
| `JetTree.VisitsTogether` | athena/lib/Xj/Jets.c:1224-1302 | what is below a record is visited in one stretch, in postorder just before it, in preorder just after it |
| `JetTree.WhereAppend` | athena/lib/Xj/Jets.c:1224-1302 | what is called in two stretches of visits is what is called in each, one after the other |
| `JetTree.WhereOne` | athena/lib/Xj/Jets.c:1235-1242 | and a visit to one record calls its procedure if and only if its class has one |
| `JetTree.KidsInOrder` | athena/lib/Xj/Jets.c:1224-1302 | children are visited in their order, each with all that is below it |
| `JetTree.RemainderShaped` | athena/lib/Xj/Jets.c:1405-1453 | what remains of the parent is well linked |
| `AlarmQueue.DueIsLater` | athena/lib/Xj/Jets.c:380-389 | the time computed is normalised and exactly the interval after now |
| `AlarmQueue.BeforeMeaning` | athena/lib/Xj/Jets.c:391-409 | one normalised time is before another if and only if it is so in microseconds |
| `AlarmQueue.InsertKeepsOrder` | athena/lib/Xj/Jets.c:391-409 | inserting keeps the order and the ids unique and adds just the new alarm |
| `AlarmQueue.WithoutKeepsOrder` | athena/lib/Xj/Jets.c:306-347 | so does taking one out |
| `AlarmQueue.Queue.Refill` | athena/lib/Xj/Jets.c:363-369 | ten linked free entries |
| `AlarmQueue.Queue.AddWakeup` | athena/lib/Xj/Jets.c:349-409 | the new alarm is put in order of time, before those of the same time; both lists stay linked, disjoint and hold every entry, entries are allocated only when none is free, and the id is entered in the books |
| `AlarmQueue.Queue.RemoveWakeup` | athena/lib/Xj/Jets.c:306-347 | exactly the alarm of that id is taken back, in the books too, and the milliseconds left are returned |
| `AlarmQueue.Queue.RunHandler` | athena/lib/Xj/Jets.c:287-292 | the operations of a procedure in order |
| `AlarmQueue.Queue.CallFirst` | athena/lib/Xj/Jets.c:285-298 | one turn of the flush for any procedure: the first alarm is called, then whatever is first is released, unless the list is empty |
| `AlarmQueue.FirstAfterOne` | athena/lib/Xj/Jets.c:349-409 | after one operation of its procedure an alarm is still first if and only if what was added is later and it was not itself taken back |
| `AlarmQueue.FirstAgain` | athena/lib/Xj/Jets.c:285-298 | after any procedure, if and only if it left no alarm that is no later and did not take its own back |
| `AlarmQueue.Misfire` | athena/lib/Xj/Jets.c:285-298 | otherwise an alarm that was not called is released or nothing is left to release, and the called one waits on unless it was taken back |
| `AlarmQueue.EarlierAlarmIsLost` | athena/lib/Xj/Jets.c:391-409 | for every list: an alarm added no later than the one called goes before it, so that it is released uncalled and the list stays as it was |
| `AlarmQueue.OwnAlarmTakenBack` | athena/lib/Xj/Jets.c:306-347 | for every list: taking back the alarm that is called leaves the next one to be released |
| `AlarmQueue.HandlerKeeps` | athena/lib/Xj/Jets.c:285-298 | a procedure that meets the condition leaves its own alarm first, and what else it leaves was waiting or is new |
| `AlarmQueue.Queue.FlushAlarmQueue` | athena/lib/Xj/Jets.c:268-304 | the first alarm and then all overdue ones are called once each in order of time, and what is called is what is released; none called is left, and none overdue is missing but those taken back |
| `AlarmQueue.Queue.Play` | athena/lib/Xj/Jets.c:268-409 | over any run of add, remove and flush every id is called at most once, only what was added is called, and each id handed out was called, was taken back or waits, never two of these |
| `MenuBar.Bar.FindMenu` | athena/lib/Xj/Menu.c:1936-2038 | the loops over levels and items give the answer of the recursive definition |
| `MenuBar.Bar.FirstItem` | athena/lib/Xj/Menu.c:1976-2010 | the first child whose label the point is in |
| `MenuBar.FindFromMeaning` | athena/lib/Xj/Menu.c:1969-2038 | the deepest open level that the point is in decides; nothing is found if and only if it is in none |
| `MenuBar.FindShape` | athena/lib/Xj/Menu.c:1969-2038 | a found item is not the root and hangs below an open menu of the chain; one to be opened has a child |
| `MenuBar.Bar.OpenMenu` | athena/lib/Xj/Menu.c:2155-2281 | the pane appears at the place its chain of parents gives it |
| `MenuBar.Bar.CloseMenu` | athena/lib/Xj/Menu.c:2288-2316 | the pane is gone |
| `MenuBar.Bar.SetMenu` | athena/lib/Xj/Menu.c:2325-2388 | the status is the one asked for and a pane exists exactly when it is open; drawing only happens on a pane that exists |
| `MenuBar.Bar.CloseMenuAndAncestorsToLevel` | athena/lib/Xj/Menu.c:2398-2408 | the loop ends at the menu given or its parent, with everything below closed and nothing else changed |
| `MenuBar.Bar.MotionNotify` | athena/lib/Xj/Menu.c:2705-2786 | the records after a motion show the user's view after it |
| `MenuBar.Bar.ButtonPress` | athena/lib/Xj/Menu.c:2654-2703 | a press counts as a motion with the button down |
| `MenuBar.Bar.ButtonRelease` | athena/lib/Xj/Menu.c:2591-2652 | over a selected item or outside all menus everything closes and the item's procedure is called, whatever the flags `inside` and `same` say |
| `MenuBar.Bar.EventHandler` | athena/lib/Xj/Menu.c:2554-2786 | each event is one step of the user's view |
| `MenuBar.Bar.Play` | athena/lib/Xj/Menu.c:2554-2786 | any sequence of events refines the small machine in which only the deepest menu and its status matter |
| `MenuBar.StepKeeps` | athena/lib/Xj/Menu.c:2591-2786 | the invariant of that machine: inside implies not at the root, outside implies open, a grab exactly as configured |
| `MenuBar.RunKeeps` | athena/lib/Xj/Menu.c:2591-2786 | it holds in every reachable state |
| `MenuBar.Session` | athena/lib/Xj/Menu.c:2554-2786 | from realization on, after any events: strict ancestors of the deepest menu open, all menus off its chain closed, a pane other than the root's exactly when its menu is open with a child, inside only below the root, and no call to an item that may not be called |
| `MenuBar.OnlyCallable` | athena/lib/Xj/Menu.c:2610-2634 | over every run only supported items outside help panes are called, and those to be verified never directly |
| `MenuUse.CalledIff` | athena/lib/Xj/Menu.c:2591-2652 | after any events, the next one calls something if and only if it is a release with the button down over a selected item that is supported, has a procedure and is not in a help pane; then exactly that item, to be verified if and only if the bar verifies and the item asks for it |
| `MenuUse.Hover` | athena/lib/Xj/Menu.c:2705-2786 | with the button down, the item of an open menu that the pointer is over becomes the deepest, and is opened or selected as the place on its label says |
| `MenuUse.FoundAtLevel` | athena/lib/Xj/Menu.c:1936-2038 | which place of a label selects and which opens |
| `MenuUse.PullDownAndRelease` | athena/lib/Xj/Menu.c:2591-2786 | press over an item of the bar, move to an item of its menu and release: that item is called, if it can be, and everything closes |
| `MenuUse.PullDownAndLeave` | athena/lib/Xj/Menu.c:2591-2786 | leave all menus before the release: nothing is called |
| `MenuUse.PaneBelowBar` | athena/lib/Xj/Menu.c:2155-2281 | where the menu is that a press pulls down |
| `MenuBar.ReleaseCloses` | athena/lib/Xj/Menu.c:2602-2647 | such a release leaves the bar as it was realized but for the flag `same` |

## Left out

- ConfigFile.ReadConfig: the freeing of refused configurations and the sizes of blocks are not modelled; qsort is some sorting by name.
- StatusExact.ReportAndRead: renaming of the finished files and failures to open them are not modelled.
- StatusReport.ClustersRoundTrip: needs the fields of Reportable; StatusExact.ClustersIff has the exact condition.
- StatusReport.CgroupsRoundTrip: needs the fields of Reportable; StatusExact.CgroupsIff has the exact condition.
- StatusText.LineReader.ReadLine: text with NUL characters and read errors are not modelled.
- Machines.WsFind: bsearch is the usual binary search; which of several machines of one name it finds is left open.
- PrinterDaemon.EveryRunIsSound: the resolver calls back in steps of their own, never from within the call that starts a query; a reload is assumed to parse, the other case being FailedReload.
- TimerHeap.Heap.Process: the handler's own operations are later requests, not part of the call.
- PathSearch.DoMatch: MatchesFinds and FoundPaths need well-formed components, the order for others being that of the recursive definition; symbolic links and mount points are part of what the file system function answers.
- TreeListing.DoRecurs: needs a directory tree of finite depth, so that followed links form no cycle; the option FIND_DOTFILES stores names that the code does not count, so they do not appear.
- SearchResults.FoundPaths: needs directories whose names are not empty and have no slash.
- ConfigLines.FileMeaning: for lines whose words are more than one space apart, or whose numbers are left out, only ConfigFile.ReadConfig says what is read.
- FileForest.Forest.FreeLeaf: the release of ancestors that were flagged before is not modelled, since no walk reaches it.
- FileForest.Forest.Walk: the path built on the way is given to `statDir` as it is; that get_specs cuts a trailing slash off it, which matters to doubled slashes only, is left to that argument.
- ExpungeCommand.Command: a time limit, prompts, the list of files, failing removals and the search for the paths are not modelled; each once and the order are stated for a file system in which the empty path cannot be examined, as stat has it, and the sum for one that reports the same size of a file each time.
- Expunge.Walker.ExpungeAll: the interactive, listing, no-operation and failing paths are not modelled.
- DeleteTree.FileSystem.Delete: prompts, errors, the filesonly and directoriesonly options and access times are not modelled; names that are `.` or `..` are left out of directories.
- AlarmQueue.Queue.FlushAlarmQueue: needs a clock that does not go back during the flush and procedures that meet the exact condition of FirstAgain; what happens otherwise is stated for each turn by CallFirst and Misfire, not for whole flushes.
- AlarmQueue.Queue.RemoveWakeup: the time left is a signed number; the code converts it to an unsigned one, so that an overdue alarm yields a huge value.
- JetTree.Toolkit.RealizeJet: class procedures change nothing but the window of their own jet.
- MenuBar.Bar.OpenMenu: panes that would leave the screen are not moved.
- MenuBar.Bar.Play: drawing and the loading of new menus are not modelled.
- `unique` of undelete and lsdel, the leaf iterators of directories.c, the rest of Xj, xcluster, xdsc, sockets, Hesiod, Kerberos and AFS.
