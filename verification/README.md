# Verified models of PYNQ's hardest logic

PYNQ drives FPGA designs from Python. Most of it is plumbing around files, device nodes and foreign
libraries; this project models the parts with real state and arithmetic in them and proves what they are for:

- **Interrupts, from design to delivery.** `InterruptWalk.dfy` and `InterruptTopology.dfy` model the walk over
  a design's nets that finds and numbers every interrupt line; `InterruptNets.dfy` says what is wired to what by
  the names of the pins alone, and `InterruptWiring.dfy` proves that the walk finds exactly that, at the right
  numbers. `InterruptRegistry.dfy` models the on-demand construction of controller objects from the resulting
  dictionaries, and `InterruptAssembly.dfy` proves that the first always produces what the second can open. `Interrupts.dfy` models the running system: controllers chained
  below UIO devices, where servicing a parent calls into its children, which may call back into the parent
  while it is still in its own loop. Its methods are proved equal to a closed form over a snapshot of the
  whole object graph; `InterruptRuns.dfy` and `InterruptConservation.dfy` prove the bookkeeping invariant,
  that no event is ever stranded, and that over any run no event is lost, duplicated or invented.
  `InterruptLatches.dfy` shows that latches changing in the middle of a pass act as before it or after it, and
  `InterruptAcknowledge.dfy` that a serviced line stays quiet until the hardware latches it again.
- **Scatter-gather DMA.** `Dma.dfy`: splitting a request into a ring of 16-word descriptors in memory,
  launching it, and adding up what the engine reports.
- **Arrays over registers.** `TinyNumpy.dfy` (strides, keys, the odometer iterator), `TinyViews.dfy` (slices
  of slices as byte addresses) and `TinyAssign.dfy` (assigning a list through a view).
- **Bit-field registers.** `Registers.dfy`: read-modify-write of slices in either direction, and named fields.
- **Smaller loops.** `Sensors.dfy` (the memoised evaluator of sensor graphs), `Hierarchies.dfy` (pruning and
  flattening the hierarchy dictionary), `BitFile.dfy` (the .bit header and its conversion to .bin), and
  `CallLayout.dfy` (the packed argument structure of a kernel call).
- `Bits.dfy` holds shifts, masks and their laws on unbounded numbers, `Numbers.dfy` multiplication, division and
  digits, `Wrappers.dfy` optional values and results.

Objects the Python code updates in place are classes here, and its loops are loops. Each method is proved
against a function of its inputs or of the old state, and the promises are lemmas about that function. Where
one Python method does several things, its Dafny counterpart may call helpers for the pieces; they are named
for what they do. `ghost` parameters such as `rank`, `height` or `sys` only serve termination and framing;
the ghost field `request` of the DMA channel remembers what the ring in flight was made for.
Register writes the code makes are fields of the controller (`ier`, `isr`, `mer`) or a log of writes (`Dma`).

Five findings:

- **Assigning a list through a view is wrong for views without a uniform step.** The block loop of
  `__setitem__` writes every block from the start of the view's own data instead of the block's
  (`pynq/_3rdparty/tinynumpy.py:712-718`), so later blocks overwrite the first and the rest is never written.
  `TinyAssign.AssignmentIsLawfulIff` proves exactly for which views the assignment does what it should: those
  that, once leading axes of length one are dropped, can be walked with one step, which
  `TinyAssign.OneBlockByStrides` tells from shape and strides. `TinyAssign.TwoColumns` is an input that fails, whatever the memory holds: 0, 1, 1, 1 assigned to the first two columns of a 2 by 3
  array of bytes.
- **A .bit file can be accepted without having the layout.** The preamble's count is read as a signed number
  (`pynq/pl_server/embedded_device.py:67-69`), so a negative one moves the start of the fields backwards.
  `BitFile.AcceptedHasLayoutIff` proves that an accepted file has the layout iff the count is not negative;
  `BitFile.NegativeCount` is an accepted file that has not: FF FE 65 00 00 00 00.
- **A pin can pass for a cell's output.** The regular expressions that look for outputs are not anchored at the
  end (`pynq/pl_server/hwh_parser.py:415`, `:420`), so the pin c/irq_ack of a controller c counts as c/irq:
  `InterruptWiring.LooseName`. `InterruptWiring.DrivesByNameIff` proves exactly when a pin is taken for what its
  name says. Results about names are stated for designs in which no pin's name goes on after a cell's output.
- **A request of exactly one largest block gets one descriptor**, although the comment at
  `pynq/lib/dma.py:375` says there are always at least two. `Dma.HowMany` proves that this is the only exception.
- **Small requests divide by zero.** If the request is below both the largest block and two alignment units,
  the halved block is zero and `transfer` raises `ZeroDivisionError` (`pynq/lib/dma.py:376-380`);
  `Dma.BlockIsZero` proves that this condition is exact, and `Dma.SgChannel.Transfer` reports it as an error.

## Model

| member | source | states |
|---|---|---|
| `Interrupts.Controller.constructor` | pynq/interrupt.py:165-172 | A new controller has 32 empty wait lists, no events and no enabled line. |
| `Interrupts.Controller.ReadIpr` | pynq/interrupt.py:188 | The pending word has bit i set exactly if line i is both latched and enabled. |
| `Interrupts.Controller.Write` | pynq/interrupt.py:195-205 | The effect of each register write on the enable and latch bits and on nothing else: set-enable, clear-enable and acknowledge touch exactly the lines of the written word. |
| `Interrupts.Controller.Set` | pynq/interrupt.py:179-207 | Servicing a controller, with every re-entrant call its children make on the way, leaves the whole object graph as the closed form says: each reached controller is serviced once, each keeps exactly the events that were not pending plus its re-registered children and has acknowledged exactly the lines it found pending, and it re-registers with its parent if events are left. Terminates on trees of any depth and fan-out. |
| `Interrupts.Controller.ServicePending` | pynq/interrupt.py:189-202 | The loop over the pending word services exactly the pending lines, lowest first. |
| `Interrupts.Controller.ServiceLine` | pynq/interrupt.py:193-200 | One pending line: it is disabled, its wait list taken and set in order, and only then taken off the count - so a child re-registering meanwhile never climbs further up. |
| `Interrupts.Controller.AddEvent` | pynq/interrupt.py:209-233 | Registering an event enables the line if it was empty, first registers the controller with its parent if it had no events (recursively, up to the device), and changes nothing else. |
| `Interrupts.UioController.UioCallback` | pynq/uio.py:82-87 | A device's interrupt disarms it, sets every waiting event with the whole cascade below, and leaves exactly the re-registered top-level controllers waiting. |
| `Interrupts.UioController.AddEvent` | pynq/uio.py:89-92 | Registering with the device arms it if nobody waited, and appends the event. |
| `Interrupts.StepChild` | pynq/interrupt.py:196-207 | In the middle of a controller's loop, setting a child is one more step of the controller's own pass: the child's re-registration lands on the parent's fresh wait list, because the parent's count is still positive. |
| `Interrupts.ServeOne` | pynq/interrupt.py:198-199 | Servicing siblings one after another, each in the world its elders left, is servicing all of them in the original world. |
| `Interrupts.WholePass` | pynq/interrupt.py:187-207 | The steps of one loop put together are the closed form of the pass. |
| `Interrupts.ServChildren` | pynq/interrupt.py:192-200 | Servicing a controller reaches exactly what servicing its pending wait lists reaches, besides itself. |
| `Interrupts.Disjoint` | pynq/interrupt.py:198-199 | The cascades below two siblings never touch the same controller. |
| `Interrupts.ServedShape` | pynq/interrupt.py:179-207 | After any cascade the object graph is still a forest with children only on their own line. |
| `InterruptRuns.Bookkeeping` | pynq/interrupt.py:179-233 | Between calls, count = number of waiting events, a line is enabled iff somebody waits on it, and a controller is registered with its own parent line exactly once iff it has events - and nowhere else. |
| `InterruptRuns.AddEvKeepsInv` | pynq/interrupt.py:226-233 | Registering an event anywhere keeps the invariant. |
| `InterruptRuns.CallbackKeepsInv` | pynq/uio.py:82-87 | A root callback keeps the invariant, despite children re-entering their parents. |
| `InterruptRuns.CallbackRegistered` | pynq/interrupt.py:206-207 | After a callback a controller is registered with its parent iff it has events. |
| `InterruptRuns.NoneStranded` | pynq/interrupt.py:206-231 | Wherever an event waits, its line is enabled, every ancestor's line towards it is enabled and the device is armed. |
| `InterruptRuns.PendingIsDelivered` | pynq/interrupt.py:187-200 | If a line and every ancestor's line towards it are latched, one callback signals every leaf event on the line at least once per registration, and none keeps waiting there. |
| `InterruptRuns.OncePerCallback` | pynq/interrupt.py:187-207 | In one callback no controller is serviced twice, and wait lists on lines not pending, or of controllers not reached, are untouched. |
| `InterruptConservation.PassConserves` | pynq/interrupt.py:187-207 | In a cascade, what waited below the events set is what is signalled plus what still waits, as multisets. |
| `InterruptConservation.CallbackConserves` | pynq/uio.py:82-87 | One callback conserves the device's events: delivered plus waiting is unchanged. |
| `InterruptConservation.SignalledWaited` | pynq/uio.py:82-87 | One callback signals a leaf at most as often as it waits below the device. |
| `InterruptConservation.PendingExactlyOnce` | pynq/interrupt.py:187-200 | A leaf that waits below the device on one fully latched line only is signalled exactly once per registration. |
| `InterruptConservation.CallbackElsewhere` | pynq/uio.py:82-87 | A callback moves nothing below another device. |
| `InterruptConservation.AddEvAdds` | pynq/interrupt.py:209-233 | Registering an event adds exactly that event to what waits below its device, however far the registration climbs. |
| `InterruptConservation.AddEvElsewhere` | pynq/interrupt.py:209-233 | Registering changes nothing below another device. |
| `InterruptConservation.Run` | pynq/interrupt.py:179-233 | Every state reached by registrations, interrupts and latch changes, in any order, satisfies the invariant. |
| `InterruptConservation.RunConserves` | pynq/interrupt.py:179-233 | Over any run and for every device: events delivered plus events waiting equal those at the start plus those registered. |
| `InterruptLatches.LatchCommutes` | pynq/interrupt.py:187-207 | A latch change of a controller whose pending word a pass does not read makes no difference to the pass: the same controllers end up the same, the same events are signalled, the same controllers re-register. |
| `InterruptLatches.LatchBetween` | pynq/interrupt.py:187-207 | A latch change between two parts of a pass might as well have come before it if the first part has not read the controller, and after it if the second part does not. |
| `InterruptLatches.ReadOnce` | pynq/interrupt.py:196-199 | Siblings never read the same controller's pending word twice in a pass. |
| `InterruptAcknowledge.ServicedIsAcknowledged` | pynq/interrupt.py:187-205 | In terms of the registers alone: a callback takes exactly the lines that were latched and enabled out of the latch of every controller it services, and leaves every other latch as it was. |
| `InterruptAcknowledge.StepKeepsLine` | pynq/interrupt.py:179-233 | While a line is not latched, no registration and no interrupt takes an event off it; its wait list only grows at the end. |
| `InterruptAcknowledge.RunQuiet` | pynq/interrupt.py:179-233 | Over any run that does not latch the line, an event that waits below the device on that line only is never delivered, and every registration of it stays on the line. |
| `InterruptAcknowledge.QuietUntilLatched` | pynq/interrupt.py:187-205 | An event registered on a line after the pass that serviced the line is not delivered by any later interrupt until the hardware latches that line again, whatever else the run does. |
| `InterruptRegistry.GetController` | pynq/interrupt.py:101-124 | Finds the one cached object of a name or creates it with its missing ancestors; succeeds iff the chain of parents ends at a raw interrupt with a device; keeps names distinct and every object attached to the one object of its parent name. Terminates for acyclic parents. |
| `InterruptRegistry.GetParent` | pynq/interrupt.py:126-152 | An entry leads to the cached controller of its parent name with the entry's line, or to the one device of its raw interrupt; the errors are exactly a missing entry and a missing device. |
| `InterruptRegistry.Construct` | pynq/interrupt.py:165-177 | A new controller keeps the invariant of the running system and becomes the cached object of its name. |
| `InterruptRegistry.Open` | pynq/interrupt.py:143-150 | A device opened for a raw interrupt is new, becomes the one device of that interrupt, and disturbs no controller. |
| `InterruptRegistry.OneObjectPerName` | pynq/interrupt.py:101-152 | Two entries attach to the same object iff they have the same parent name, or the same raw interrupt. |
| `InterruptRegistry.StartsValid` | pynq/interrupt.py:97-99 | The empty caches satisfy the invariant. |
| `InterruptTopology.Before` | pynq/pl_server/hwh_parser.py:415 | The regular expression group: the longest prefix followed by the mark, none iff the mark does not occur. |
| `InterruptWalk.HwhParser.FindDriver` | pynq/pl_server/hwh_parser.py:412-431 | With one driver a net, the loop over an unordered pin set finds it in whatever order the set is visited; with exact names it is x iff the pin x/dout of a concat cell x, or x/irq of a controller x, is on the net. |
| `InterruptWalk.HwhParser.AddPins` | pynq/pl_server/hwh_parser.py:432-440 | Every pin of a net without a driver gets an entry with the current number, all others are unchanged; the index error iff there is a pin and no raw interrupt for it. |
| `InterruptWalk.HwhParser.AddInterruptPins` | pynq/pl_server/hwh_parser.py:412-440 | The walk from a net records the tree wired to it and returns offset + number of leaf inputs; it raises the index error iff a recorded line has no raw interrupt in the map. Terminates for acyclic designs. |
| `InterruptWalk.HwhParser.AddConcatPins` | pynq/pl_server/hwh_parser.py:442-447 | A concat cell's inputs are walked side by side, each starting where the previous one ended. |
| `InterruptWalk.HwhParser.InitInterrupts` | pynq/pl_server/hwh_parser.py:378-389 | Every connected interrupt input of the processor is walked from 0 with its own raw interrupts; it succeeds iff every recorded line has one. Started with empty dictionaries on a design with exact names, it then has recorded exactly the controllers and pins that are wired to the processor by name. |
| `InterruptTopology.WalkAdds` | pynq/pl_server/hwh_parser.py:412-447 | The walk adds exactly the pins and controllers it reaches; every other entry stays as it was. |
| `InterruptTopology.WalkNumbers` | pynq/pl_server/hwh_parser.py:412-447 | If no net is reached twice, leaf inputs are numbered consecutively in In0, In1, ... flattening order from the offset on, and from 0 on again inside every interrupt controller at any depth, where there are no raw interrupts. |
| `InterruptTopology.PinHasLine` | pynq/pl_server/hwh_parser.py:412-447 | Every pin recorded is on a line of the input itself or of a controller inside it. |
| `InterruptTopology.WalkKeepsRawAtTop` | pynq/pl_server/hwh_parser.py:412-440 | A raw interrupt is stored on exactly the entries whose parent is the empty name. |
| `InterruptTopology.InputsNumber` | pynq/pl_server/hwh_parser.py:378-389 | Over all inputs of the processor: line k of an input carries the input's k-th raw interrupt, line k of a controller none. |
| `InterruptTopology.InputsRawAtTop` | pynq/pl_server/hwh_parser.py:378-440 | In the final dictionaries raw interrupts are on exactly the entries without a parent. |
| `InterruptTopology.CreateIrqMap` | pynq/pl_server/hwh_parser.py:51-56 | The raw interrupts of an input, range after range. |
| `InterruptTopology.RawMapDistinct` | pynq/pl_server/hwh_parser.py:51-56 | With disjoint ranges no two lines share a raw interrupt. |
| `InterruptTopology.RawMapAt` | pynq/pl_server/hwh_parser.py:51-56 | The i-th number of a range is in the map right after all the ranges before it. |
| `InterruptTopology.FamilyDistinct` | pynq/pl_server/hwh_parser.py:378-389 | With disjoint ranges, no two lines of any inputs of a device family share a raw interrupt. |
| `InterruptTopology.FamiliesApart` | pynq/pl_server/hwh_parser.py:609 | Both device families keep their ranges apart. |
| `InterruptTopology.FamilyNumbers` | pynq/pl_server/hwh_parser.py:553-609 | The raw interrupts of the lines: 61 to 68 and 84 to 91 in the one family, 121 to 128 and 136 to 143 on the two inputs of the other. |
| `InterruptWiring.OutputsDrive` | pynq/pl_server/hwh_parser.py:414-423 | A concat cell's output x/dout is taken for the output of x, and a controller's output x/irq for that of x unless its name also passes for a concat cell's output. |
| `InterruptWiring.NetDriverIs` | pynq/pl_server/hwh_parser.py:414-423 | In a design with exact names a net is driven by x iff the pin x/dout of a concat cell x, or x/irq of a controller x, is on it. |
| `InterruptWiring.DrivesByNameIff` | pynq/pl_server/hwh_parser.py:414-423 | The driver the regular expressions find for a pin is the cell whose output the pin is by name, iff nothing follows the mark after the group they matched. |
| `InterruptWiring.LooseName` | pynq/pl_server/hwh_parser.py:420-423 | A pin on which it is not: c/irq_ack is taken for the output of the controller c. |
| `InterruptWiring.TreeByNames` | pynq/pl_server/hwh_parser.py:412-447 | What the walk meets behind a net is exactly what is behind it by pin names: the pins of the nets that end there, and the controllers whose outputs are there. |
| `InterruptWiring.FindsExactly` | pynq/pl_server/hwh_parser.py:378-447 | Starting from nothing, the parser records a controller iff its output x/irq is on a net that leads from an interrupt input of the processor through x/dout, x/In0, x/In1, ... and x/irq, x/intr, and a pin iff it is on such a net that no cell drives. |
| `InterruptWiring.LineAtPosition` | pynq/pl_server/hwh_parser.py:442-447 | The line at the end of a way through concat cells comes after exactly the lines of the inputs before it, at every cell on the way. |
| `InterruptWiring.IndexedByNames` | pynq/pl_server/hwh_parser.py:378-447 | What a way through concat cells ends at is recorded with that position for an index: under no parent and with the raw interrupt of that position if the way starts at the processor, under x and without one if it starts at x/intr of a reached controller x. |
| `InterruptWiring.FitsByNames` | pynq/pl_server/hwh_parser.py:378-440 | An input raises no index error iff every way from it that ends at a connected net has a position in the input's map of raw interrupts. |
| `InterruptAssembly.EveryControllerResolves` | pynq/interrupt.py:126-177 | For every sound design whose controllers have at most 32 lines, every controller the topology walk records can be opened by the registry: there is an acyclic order of parents and each chain ends at a raw interrupt. |
| `InterruptAssembly.EveryPinLeads` | pynq/interrupt.py:137-152 | Every interrupt pin the walk records can be attached: it has a raw interrupt of its own, or its controller can be opened. |
| `InterruptAssembly.PinHangs` | pynq/pl_server/hwh_parser.py:432-439 | A recorded pin has no parent or is on a line of a recorded controller. |
| `InterruptAssembly.WalkHangs` | pynq/pl_server/hwh_parser.py:424-430 | Every recorded controller hangs from the walk's own parent or from another recorded controller above it, on a line below 32. |
| `Dma.Halves` | pynq/lib/dma.py:390-400 | An address below 2^64 survives being stored as two 32-bit words. |
| `Dma.ControlParts` | pynq/lib/dma.py:407-420 | Start-of-frame, end-of-frame and the 26-bit length share one word without disturbing each other. |
| `Dma.BlockSize` | pynq/lib/dma.py:371-379 | The largest aligned block, or if that exceeds the request, the largest multiple of the alignment that does not exceed half of it. |
| `Dma.BlockIsZero` | pynq/lib/dma.py:376-379 | The halved block is zero iff the request is below the largest block and below two alignment units. |
| `Dma.HowMany` | pynq/lib/dma.py:371-380 | At least two descriptors unless the request is exactly one largest block, which gives one; two to four when the block was halved. |
| `Dma.CeilingDivision` | pynq/lib/dma.py:380 | The number of descriptors is the request divided by the block, rounded up. |
| `Dma.LargestBlock` | pynq/lib/dma.py:372 | The largest multiple of the alignment that does not exceed the maximum size. |
| `Dma.Tiles` | pynq/lib/dma.py:389-420 | Descriptors cover the request end to end without gap or overlap, in pieces of 1 to block-size bytes, aligned if the first is; start of frame is on exactly the first, end of frame on exactly the last. |
| `Dma.EachByteOnce` | pynq/lib/dma.py:389-420 | Every byte of the request lies in exactly one descriptor, no other byte in any. |
| `Dma.OneCycle` | pynq/lib/dma.py:390-405 | Following next pointers from the first descriptor visits all of them in order and then starts over, in both modes. |
| `Dma.TailInRing` | pynq/lib/dma.py:448-468 | The tail pointer is the last ring member exactly in normal mode, and outside the ring in cyclic mode. |
| `Dma.FetchesAll` | pynq/lib/dma.py:448-468 | Between the first descriptor and the tail the engine fetches every descriptor once, in order, and meets the tail at the last one only. |
| `Dma.LaunchSeen` | pynq/lib/dma.py:432-468 | An engine that replays the writes of a launch runs, in the right mode, and fetches from the first descriptor up to the tail: the tail is named only once it runs. |
| `Dma.StopSeen` | pynq/lib/dma.py:303-315 | An engine that replays the writes of a stop neither runs nor fetches. |
| `Dma.ErrorBits` | pynq/lib/dma.py:283-285 | An error is raised from the status word iff the word has a bit of the mask 0x770. |
| `Dma.SettledFinished` | pynq/lib/dma.py:478-502 | If polling ends without an error, it ends at a word with the idle or the halted bit, and no earlier word had either or an error bit. |
| `Dma.ReportedBound` | pynq/lib/dma.py:507-514 | What is added up never exceeds the lengths if no descriptor reports more than its own. |
| `Dma.Accounting` | pynq/lib/dma.py:507-514 | Then the total is at most the request, and equal to it iff every descriptor reports its full length. |
| `Dma.SgChannel.FillRing` | pynq/lib/dma.py:388-420 | Read back from the 32-bit words in memory, the rows of the array are the specified descriptors. |
| `Dma.SgChannel.RingCovers` | pynq/lib/dma.py:388-420 | The decoded rows of a ring in memory move exactly the bytes of its request, end to end. |
| `Dma.SgChannel.Transfer` | pynq/lib/dma.py:317-468 | It succeeds iff the channel is halted, the start aligned or realignment built in, cyclic mode only asked of the sending channel, and the request not below both the largest block and two alignment units; otherwise which error comes first, with nothing written. The rows in memory, decoded, then move exactly the bytes from start on: to the end of the buffer if no number is given, else as many as asked for. The counters are reset, the register writes come in their order, and an engine that replays them fetches the ring. |
| `Dma.SgChannel.Launch` | pynq/lib/dma.py:432-468 | The order of the register writes: descriptor address, start, then the tail pointer that triggers the engine. |
| `Dma.SgChannel.Wait` | pynq/lib/dma.py:470-523 | Refuses in cyclic mode and before a start; reports the first error of the status word polling ends at; otherwise, and only after a word that says idle or halted, sums the lengths up to the first descriptor in error. If no descriptor of the ring in flight reports an error or more than its length, the sum is at most the request, and equal to it iff every descriptor reports its own length. |
| `Dma.SgChannel.Poll` | pynq/lib/dma.py:478-502 | Polling ends at the first status word that has an error or says idle or halted. |
| `Dma.SgChannel.StatusKeepsRing` | pynq/lib/dma.py:507-514 | The engine's status reports leave the request's ring in memory as transfer made it. |
| `Dma.SgChannel.RingAccounting` | pynq/lib/dma.py:507-514 | What a ring made for a request reports is at most the request, and all of it iff every descriptor is full. |
| `Dma.SgChannel.Start` | pynq/lib/dma.py:287-301 | The control word for each combination of cyclic mode and interrupt. |
| `Dma.SgChannel.Stop` | pynq/lib/dma.py:303-315 | The register writes that stop the engine, with the reset in cyclic mode. |
| `TinyNumpy.StridesForShape` | pynq/_3rdparty/tinynumpy.py:115-121 | The strides of a contiguous array: each is the item size times the sizes of the axes after it. |
| `TinyNumpy.SizeForShape` | pynq/_3rdparty/tinynumpy.py:124-128 | The number of items. |
| `TinyNumpy.KeyForIndex` | pynq/_3rdparty/tinynumpy.py:182-192 | The key at a flat index is the mixed-radix representation of the index. |
| `TinyNumpy.KeyOffset` | pynq/_3rdparty/tinynumpy.py:182-192 | The k-th key is in range and lies k items from the start. |
| `TinyNumpy.OffsetKey` | pynq/_3rdparty/tinynumpy.py:182-192 | Every key in range is the key of exactly one index: its offset. |
| `TinyNumpy.KeysAscend` | pynq/_3rdparty/tinynumpy.py:172-192 | Keys come in lexicographic order. |
| `TinyNumpy.IncrementMutableKey` | pynq/_3rdparty/tinynumpy.py:172-179 | The odometer replaces the k-th key by the (k+1)-th in place, and stops exactly at the last. |
| `TinyNumpy.NdIter.Next` | pynq/_3rdparty/tinynumpy.py:1178-1184 | The iterator hands out exactly size keys, the k-th being the key of index k, and then nothing. |
| `TinyViews.IndexHelper` | pynq/_3rdparty/tinynumpy.py:781-823 | Offset, shape and strides of the selection that ViewPicks, PickedInView and SelectedAddress describe; the index error iff there are too many keys or an integer is not below its axis's size. |
| `TinyViews.ViewPicks` | pynq/_3rdparty/tinynumpy.py:797-821 | Every item of a selection is at a position its selectors pick: the index, a position of the slice, or any position of an axis without a selector. A slice picks, of the positions at or after its start and before its stop, the first and every step-th after it; negative bounds count from the end. |
| `TinyViews.PickedInView` | pynq/_3rdparty/tinynumpy.py:797-821 | And every position they pick is an item of the selection, so its shape is complete. |
| `TinyViews.PlainSlice` | pynq/_3rdparty/tinynumpy.py:804-807 | Key j of a[first:past:step] stands for first + step * j, and is in range iff that is before past. |
| `TinyViews.BoundsMean` | pynq/_3rdparty/tinynumpy.py:804 | A negative bound means the axis's size plus it, a bound beyond either end means that end, an absent one the axis's own end. |
| `TinyViews.SelectedAddress` | pynq/_3rdparty/tinynumpy.py:797-821 | In-range keys of a selection stand for in-range keys of the array at the same byte address, and strides stay multiples of the item size. |
| `TinyViews.SubviewAddress` | pynq/_3rdparty/tinynumpy.py:664-672 | The view made from a selection puts each of its keys where the array has the composed key. |
| `TinyViews.ChainAddress` | pynq/_3rdparty/tinynumpy.py:664-672 | Any chain of integer indexes and slices resolves to the composed key's address. |
| `TinyViews.ChainInBuffer` | pynq/_3rdparty/tinynumpy.py:605-626 | Starting from a whole array, every key of every view of a chain lies inside the buffer on an item boundary. |
| `TinyAssign.DecodeEncode` | pynq/_3rdparty/tinynumpy.py:450-468 | Unpacking a packed item gives the value back. |
| `TinyAssign.EncodeByte` | pynq/_3rdparty/tinynumpy.py:464-468 | The k-th byte of a packed item is its k-th digit to the base 256, lowest first. |
| `TinyAssign.StoreItem` | pynq/_3rdparty/tinynumpy.py:465-468 | Storing an item replaces its bytes and no others. |
| `TinyAssign.StoreSlice` | pynq/_3rdparty/tinynumpy.py:458-462 | Assigning a list to an extended slice stores value j at item position j times the step. |
| `TinyAssign.RunLoads` | pynq/_3rdparty/tinynumpy.py:458-468 | Every value stored through an extended slice can be read back. |
| `TinyAssign.RunLeaves` | pynq/_3rdparty/tinynumpy.py:458-468 | No byte outside the slice's items changes. |
| `TinyAssign.StepWalks` | pynq/_3rdparty/tinynumpy.py:98-112 | A view with a step has its k-th item k steps from its start. |
| `TinyAssign.BlocksUseList` | pynq/_3rdparty/tinynumpy.py:707-724 | The block loop uses up the list, each block the next stretch of it; it terminates. |
| `TinyAssign.OneBlockIsLawful` | pynq/_3rdparty/tinynumpy.py:674-724 | For a view of one block, value j ends up at the view's j-th key for every j and no byte outside the view changes. |
| `TinyAssign.OneBlockIsFilled` | pynq/_3rdparty/tinynumpy.py:690-718 | For a view of one block, assigning a number puts it at every key of the view and changes no byte outside. |
| `TinyAssign.OneBlockByStrides` | pynq/_3rdparty/tinynumpy.py:98-112 | Told from shape and strides: a view is one block iff, after leading axes of length one, each stride is one step times the size of the axes after it. |
| `TinyAssign.LastBlockWins` | pynq/_3rdparty/tinynumpy.py:712-718 | All blocks start at the view's first item, so with several blocks the last decides what it holds. |
| `TinyAssign.AssignmentIsLawfulIff` | pynq/_3rdparty/tinynumpy.py:674-724 | Assigning lists through a view is right for every list iff the view has a step once leading axes of length one are dropped. |
| `TinyAssign.TwoColumns` | pynq/_3rdparty/tinynumpy.py:674-724 | A failing input: for every content of a 2 by 3 array of bytes, assigning 0, 1, 1, 1 to its first two columns, a view the array really has, does not leave the values at the view's keys. |
| `TinyAssign.AssignBlocks` | pynq/_3rdparty/tinynumpy.py:707-724 | The block loop over the queue of sub-views. |
| `TinyAssign.SetItem` | pynq/_3rdparty/tinynumpy.py:674-724 | Assignment to a selection: an index error or a size mismatch without any write - the mismatch iff a list has not as many items as the selection - or, if the selection is one item or one block and the values fit an item: item j of the list is at the view's j-th key, a number is at every key, and no byte outside changes. For other selections, what the block loop leaves. |
| `Registers.CalcIndex` | pynq/registers.py:28-60 | A valid slice stands for bits inside the register, an integer for the one bit it names, anything else is an error. |
| `Registers.SliceReads` | pynq/registers.py:28-60 | A slice is valid iff its step is absent, -1 or 1 and its endpoints, by default the ends of the register in its direction, are bits of the register; which error is raised otherwise; and bit i of what it reads is the bit i steps from its stop towards its start. |
| `Registers.ReadsBit` | pynq/registers.py:136-155 | reg[k] is bit k of the register; a negative k is an error. |
| `Registers.ReadsSlice` | pynq/registers.py:136-164 | Bit i of reg[start:stop:step] is the register's bit i steps from the stop towards the start, and there are no more bits than the slice names. |
| `Registers.AcceptsSlice` | pynq/registers.py:166-190 | Assigning to a slice is accepted iff its step and endpoints are valid and the value has no more bits than the slice. |
| `Registers.ReverseBit` | pynq/registers.py:63-64 | Reversal sends bit i to bit width - 1 - i. |
| `Registers.ReverseTwice` | pynq/registers.py:63-64 | Reversal is its own inverse. |
| `Registers.ExtractBit` | pynq/registers.py:149-164 | Bit i read through a slice is the register's bit at its position, in either direction. |
| `Registers.InsertBit` | pynq/registers.py:177-201 | A write replaces exactly the bits of the slice. |
| `Registers.ReadBack` | pynq/registers.py:136-201 | Reading the slice just written returns the value. |
| `Registers.WriteElsewhere` | pynq/registers.py:166-201 | A write does not show through a slice it shares no bit with. |
| `Registers.WriteBack` | pynq/registers.py:136-201 | Writing back what a slice reads changes nothing. |
| `Registers.Register.SetItem` | pynq/registers.py:166-201 | Accepts exactly valid slices and values that fit, and then changes exactly the slice; otherwise which error. |
| `Registers.Register.SetField` | pynq/registers.py:203-208 | Assigning a named property accepts exactly writable fields and fitting values; an unknown name and a read-only field are told apart. |
| `Registers.SafeName` | pynq/registers.py:22-25 | A field name becomes a non-empty name of letters, digits and underscores that does not start with a digit. |
| `Registers.NamesStay` | pynq/registers.py:22-25 | A name of letters, digits and underscores stays as it is, with an r before a leading digit. |
| `Registers.CreateSubclass` | pynq/registers.py:292-310 | One property a field, in the order of the dictionary. |
| `Registers.LastFieldWins` | pynq/registers.py:297-310 | Of fields whose names collide the last one wins, and its property can be assigned iff the field is not read-only. |
| `Registers.PropertyRange` | pynq/registers.py:301-303 | A property of a field inside the register accesses exactly the field's bits. |
| `Registers.WriteIsUpdate` | pynq/registers.py:166-201 | One write to a field updates that field's value and no other field's. |
| `Registers.IndependentStore` | pynq/registers.py:166-310 | Any series of writes to pairwise disjoint fields behaves like assignments to independent variables and leaves all other bits alone. |
| `Registers.PropertiesLaid` | pynq/registers.py:292-310 | Fields inside the register with different attribute names and disjoint bits give properties that access exactly their fields. |
| `Registers.StoreFields` | pynq/registers.py:166-310 | Any series of assignments to such properties, accepted or rejected, leaves the fields as the accepted ones leave independent variables. |
| `Registers.ReadFields` | pynq/registers.py:136-310 | Reading a property after any such series returns what its variable holds. |
| `Sensors.MultiSensor.GetValues` | pynq/pmbus.py:531-533 | Every sensor the request depends on is asked exactly once and no other is; each value is the plain recursive value over that one set of readings, shared sensors included. |
| `Sensors.MultiSensor.Lookup` | pynq/pmbus.py:535-540 | A sensor's value comes from the memo, or is computed after its parents' and stored; stored values never change; terminates on acyclic graphs. |
| `Sensors.OneStep` | pynq/pmbus.py:236-240 | If the values a sensor is given are its parents' plain recursive values, then what it computes from them is its own plain recursive value. |
| `Sensors.PlainValues` | pynq/pmbus.py:209-380 | The plain recursive values: a reading scaled, a dump as read, the product of the parents' two values, or one field of the parent's dump scaled. |
| `Sensors.StoredIsPlain` | pynq/pmbus.py:531-540 | The memoised value of a sensor is its value by plain recursion over the snapshot of the readings taken. |
| `Sensors.TraceCloses` | pynq/pmbus.py:538 | With a sensor, everything it depends on has been asked. |
| `Sensors.TraceGrows` | pynq/pmbus.py:538-539 | Asking one more sensor after its parents keeps one reading a sensor. |
| `Hierarchies.PruneUnusedWalker` | pynq/metadata/hierarchy_dict_view.py:84-98 | Everything below is pruned to what survives, in place, and the result says whether anything of the hierarchy itself is left. |
| `Hierarchies.PruneEntries` | pynq/metadata/hierarchy_dict_view.py:87-91 | The loop prunes below every entry and lists exactly those of which nothing survives. |
| `Hierarchies.LeftIffSurvives` | pynq/metadata/hierarchy_dict_view.py:84-98 | After pruning, a hierarchy is still reached iff its subtree has an IP, a memory or a reconfigurable region. |
| `Hierarchies.SurvivesIff` | pynq/metadata/hierarchy_dict_view.py:95-98 | A hierarchy survives iff it or something below it has an IP, a memory or a reconfigurable region of its own. |
| `Hierarchies.PruningKeepsFate` | pynq/metadata/hierarchy_dict_view.py:84-98 | Pruning anything changes nobody's reason to survive. |
| `Hierarchies.PruneTwice` | pynq/metadata/hierarchy_dict_view.py:84-98 | Pruning again changes nothing. |
| `Hierarchies.ReplicateSubhierarchies` | pynq/metadata/hierarchy_dict_view.py:100-107 | With distinct paths, exactly the hierarchies below are added, each under its path. |
| `Hierarchies.DropEmpty` | pynq/metadata/hierarchy_dict_view.py:158-167 | The root loses exactly the entries of which nothing survives. |
| `Hierarchies.View` | pynq/metadata/hierarchy_dict_view.py:154-175 | The final root dictionary: the surviving roots under their names and all survivors below them under their paths. |
| `Hierarchies.RootHoldsSurvivors` | pynq/metadata/hierarchy_dict_view.py:154-175 | The root dictionary holds a hierarchy iff it survives: nothing with an IP, a memory or a region is lost, nothing else is kept; each under its path or its old name at the root. |
| `BitFile.ParseBitHeader` | pynq/pl_server/embedded_device.py:62-108 | The parser over any byte string, with its errors in the order of its checks; terminates on every input. |
| `BitFile.ParseFile` | pynq/pl_server/embedded_device.py:62-108 | For any preamble, any fields in any order and any payload, parsing undoes the layout. |
| `BitFile.AcceptedHasLayoutIff` | pynq/pl_server/embedded_device.py:67-72 | An accepted file has the documented layout iff its preamble's count, read as the signed number the parser takes it for, is not negative. |
| `BitFile.NegativeCount` | pynq/pl_server/embedded_device.py:67-72 | Seven bytes that are accepted although no preamble, fields and payload lay them out. |
| `BitFile.FieldReturned` | pynq/pl_server/embedded_device.py:87-96 | Whatever the order of the fields, each is returned if its tag does not occur again. |
| `BitFile.TextReturned` | pynq/pl_server/embedded_device.py:80-96 | A field whose bytes are the codes of a text and one terminator is returned as that text. |
| `BitFile.DesignReturned` | pynq/pl_server/embedded_device.py:87-90 | Of such a design text the part before the first semicolon is returned as the design and the part after the last as the version. |
| `BitFile.OthersStay` | pynq/pl_server/embedded_device.py:87-96 | Entries of tags that do not occur are not touched. |
| `BitFile.SplitFirst` | pynq/pl_server/embedded_device.py:87-90 | The design name is what precedes the first semicolon. |
| `BitFile.SplitLast` | pynq/pl_server/embedded_device.py:87-90 | The version is what follows the last semicolon. |
| `BitFile.SwapAt` | pynq/pl_server/embedded_device.py:111-116 | The word swap keeps the length and mirrors each byte within its word of four. |
| `BitFile.SwapTwice` | pynq/pl_server/embedded_device.py:111-116 | The word swap is its own inverse. |
| `BitFile.BinHoldsPayload` | pynq/pl_server/embedded_device.py:111-116 | The .bin data of a .bit file, swapped back, is its payload; it exists iff the payload is whole words. |
| `CallLayout.CreateCall` | pynq/overlay.py:622-656 | The loop over the registers in address order, with its two errors. |
| `CallLayout.CreateOkIff` | pynq/overlay.py:622-656 | The call is built iff all types are known, no offset is negative and no two registers overlap as byte ranges; the generated format then places each register at exactly its address offset with its own type code, and nothing else. |
| `CallLayout.BuildLaysOut` | pynq/overlay.py:633-645 | For registers in address order: the format's size is the end of the last register and its items are the registers. |
| `CallLayout.ReadNumber` | pynq/overlay.py:639 | A decimal count in a format is read back as that count. |
| `CallLayout.IntegerCode` | pynq/overlay.py:576-612 | Every way to write a short, long or long long, with a sign or none and with int or without, has a code of its width, unsigned iff the type is. |
| `CallLayout.OtherCode` | pynq/overlay.py:576-612 | Every char, int and floating-point type has a code of its width, unsigned or floating iff the type is. |
| `CallLayout.SortedKeeps` | pynq/overlay.py:625-626 | Sorting orders by address, keeps the registers and makes no difference to overlaps. |
| `CallLayout.BuildDescribes` | pynq/overlay.py:646-656 | Parameters, pointer flags and argument details are those of the registers other than CTRL, in address order, numbered from 1. |
| `Bits.SameBits` | pynq/registers.py:177-201 | A number is determined by its bits. |
| `Bits.BitShr` | pynq/interrupt.py:201 | Shifting right moves every bit down. |

## Left out

- Interrupts.Controller.Write: only the register offsets the driver writes have an effect; a write elsewhere is none.
- Interrupts.Controller.AddEvent: requires a line below 32, where the code would raise an index error for its list of 32 wait lists.
- Registers.Register.SetItem: negative values and integer indexes beyond the register are required away; the code leaves them to numpy's overflow rules, which differ between its versions.
- TinyAssign.SetItem: values are unsigned items, and the results are for values that fit their width; packing errors, floating-point items and the register hook of the buffer are not modelled.
- TinyViews.IndexHelper: non-negative integer keys and non-empty slices with positive step only; negative keys and steps and newaxis are not modelled.
- Dma.SgChannel.Transfer: the two float divisions are integer divisions here, which agree for requests below 2^52 bytes; without a number of bytes the start must lie in the buffer, where the code would compute a negative size; addresses must fit 64 bits; cache flushes and the buffer object kept for later are left out.
- Dma.SgChannel.Wait: is given the status words it polls, of which one must end the polling, and takes the one word of a turn for all reads of that turn.
- InterruptWalk.HwhParser.AddInterruptPins: requires one driver a net and connected inputs, where the code depends on the order of a set or raises a key error; after the index error nothing is said of the dictionaries.
- InterruptWiring.FindsExactly: is stated for designs with exact names and one driver a net; in others the walk is still the one modelled, but what it takes for an output is not what the names say.
- BitFile.Bit2Bin: an empty payload gives an empty result; the `length` entry is a number here, its decimal text there.
- `Interrupt.wait`: several tasks on one `Interrupt` share a flag that is not a per-registration record; leaf events are modelled directly instead.
- Re-downloading an overlay, which drops cached controllers while they may still be queued: the timestamp is fixed.
- Opening files and devices, `get_uio_irq` and the memory maps: which UIO devices exist is part of the loaded design, register contents are state.
- The hardware's choice of latched lines: any change between calls is a step of a run. The methods take a latch not to change during a call; that a change then can be moved before or after the pass is proved of passes over lists of events, at any depth, in InterruptLatches.
- Reading XML into nets, pins and cells, and `init_hierarchy_dict`, whose loop compares a set with itself.
- Building the nested hierarchy dictionary from the metadata, assigning drivers and removing references.
- `wait_async`, `RegisterMap`, the debug output and string forms of registers, `count`.
- `_toflatlist`, reshape, arithmetic and the other array operations of tinynumpy.
- The other members of the DMA module: the simple channel and the driver's choice of parameters.
- gRPC stubs, remote devices, XRT, clocks, audio, GPIO, Wi-Fi, command line and notebook delivery: foreign calls or easy lookups.
