# Low-level debugging, switching, boot and interrupt routing on x86

A Dafny model of the hard parts of a small x86 processor layer, with proofs of what they keep over whole
runs. Verify with `dafny verify dfyconfig.toml --resource-limit 2000000`.

| files | what they model |
|---|---|
| `Words`, `HexText`, `DebugPort`, `Packets`, `Breakpoints`, `GdbStub`, `DebugRuns`, `Stops`, `Requests`, `Replies`, `ReplyTails` | the GDB remote stub (GDB manual, Appendix E): receive ring, framing, hexadecimal text, breakpoint table, command loop and the state machine that steps over a breakpoint; runs of program, traps and debugger |
| `Machine`, `ContextSwitch`, `TrapFrames` | registers, flags and memory of a 32-bit processor; the context switch between threads, the trap trampolines and interrupt stubs, and the two handlers that enter the stub |
| `SmpBoot`, `SpinLock` | start of the secondary processors (MultiProcessor Specification 1.4, Appendix B.4) and the spinlock, as interleaved steps |
| `Idt`, `Controllers`, `IrqRouting`, `IrqMasks` | interrupt gates, the two interrupt controllers and the local APIC, routing of vectors to service routines, and masking |

The code's methods appear as methods of classes over the same arrays and variables, each proved equal to a
specification function of its inputs and the old state; the theorems are about those functions. The two
concurrent parts are state machines whose steps are single loads and stores.

The central notion of the debugger part is the *logical* memory: the saved byte where a breakpoint is set,
memory elsewhere. The theorem for runs says that the debugger never changes it.

## Where the code does less than one would expect

The model follows the code, also where only two characters of `c-1` are compared; each of these is a lemma.

- Setting a breakpoint twice loses the original byte, and a null address makes a slot that is both used
  and free (`Breakpoints.AddExact`, `Breakpoints.DuplicateAddLosesTheByte`); `DebugRuns.CommandOk` is the
  exact condition a debugger has to respect (`DebugRuns.CommandExact`).
- A resume on a breakpoint instruction of the program's own leaves a restore field pending, which swallows a
  later debug exception (`DebugRuns.ResumeOnOwnBreakpoint`).
- The first stop is taken for a breakpoint instruction whatever it is, and skips a byte
  (`DebugRuns.ProgramCounterIsKept`).
- A resume at address 0xFFFFFFFF, which also means "no address", loses the breakpoint there, and one at
  address 0 can overwrite the program's byte (`DebugRuns.ResumeAtTheMarker`, `DebugRuns.ResumeAtNull`).
- The `g` reply has no terminator of its own (`DebugRuns.RegistersReadBack`,
  `DebugRuns.DumpTailsTheRegisters`, `ReplyTails.RegistersEndWhere`).
- For a packet shorter than two characters the sequence-id rule looks at a character left by an earlier packet
  (`Packets.FrameRoundTrip`), and the packet can be lost for the tail of that one
  (`Packets.ShortTextBehindColonIsLost`, `Packets.RegistersRequestIsLost`).
- `cpus_up_mask` can lose a processor that is up (`SmpBoot.MaskCanLoseAProcessor`).
- A spinlock taken by processor 255 reads as free (`SpinLock.LastIdSharesTheLock`).
- Closing line 2 of the master 8259 silences the eight lines of the slave
  (`IrqMasks.OnlyTheCascadeTouchesOthers`).
- Overlapping vector ranges route to the wrong table (`IrqRouting.RoutedExactly`); a vector offset that is
  not a multiple of eight is not what the chips send (`IrqMasks.VectorsAreInOrder`); the timer and
  interprocessor stubs call a null routine (`IrqRouting.LocalInterruptsCallTheLatest`).

## What runs assume

- The program does not write bytes that carry a breakpoint, and with the trap flag set the next trap comes
  after one instruction: that of a breakpoint instruction if it is one, a debug exception otherwise
  (`DebugRuns.ProgramRuns`).
- The debugger's packets respect `DebugRuns.CommandOk` (`DebugRuns.Orderly`); among other things it does not
  resume the program on a breakpoint instruction of the program's own.
- Threads have disjoint contexts and stacks of at least 35 bytes, and write neither contexts nor the stacks
  of others (`ContextSwitch.HomesOk`, `ContextSwitch.Kept`).
- Handlers follow the C calling convention and leave alone live memory and their frame, but for the arguments
  the stub made up
  (`TrapFrames.TrapOk`). Stacks are word aligned and do not wrap around the address space.
- The lock is released by its holder storing 0.

## Model

| member | source | states |
|---|---|---|
| DebugRuns.DebuggerIsInvisible | Sources/gdb.c:173-350 | Over every run from boot, any interleaving of program steps, traps and conversations with an orderly debugger: at every moment all breakpoints are armed but at most the one being stepped over, which one restore field names and during which the trap flag is set; no conversation changes a byte of the program as the program would see it |
| DebugRuns.CommandExact | Sources/gdb.c:207-347 | A request that is answered leaves the table sound, both restore fields at -1 and the program unchanged, and one that resumes leaves the program unchanged and the stub ready for the trap that comes next, if and only if the request respects `CommandOk`: `AddAllowed` for `Z`, `RemoveAllowed` for `z`, `ResumeAllowed` for `s` and `c`, nothing for the rest |
| DebugRuns.ResumeKeeps | Sources/gdb.c:307-339 | Then an `s` or `c` resume leaves the program's own byte at eip; it masks at most the breakpoint there, names it in the field of its kind and then has the trap flag set; `s` always sets the flag, `c` exactly on a breakpoint instruction; no other flag and no other register changes |
| DebugRuns.ResumeExact | Sources/gdb.c:307-339 | A resume keeps the program and leaves the stub ready for the trap that comes next if and only if a breakpoint instruction at eip hides another instruction, or, at 0xFFFFFFFF, does not |
| DebugRuns.ResumeOnOwnBreakpoint | Sources/gdb.c:315-336 | On a breakpoint instruction of the program's own the resume sets a restore field for nothing: the instruction traps as such, the field stays pending in the conversation that starts, and after `c` the next debug exception is swallowed without a word to the debugger |
| DebugRuns.ResumeAtTheMarker | Sources/gdb.c:315-330 | At eip 0xFFFFFFFF the resume masks a breakpoint there that no restore field can name, and no trap that comes next arms it again |
| DebugRuns.ResumeAtNull | Sources/gdb.c:315-330 | At eip 0 with a free slot, the slot's old saved byte replaces a breakpoint instruction of the program's own |
| DebugRuns.PacketsFindItSettled | Sources/gdb.c:207-347 | In every conversation of every run, one that never ends included, both restore fields are -1, all breakpoints are armed and the program is that of the trap at every packet |
| DebugRuns.EveryPacketFindsItSettled | Sources/gdb.c:207-347 | The same for any orderly session that starts settled |
| DebugRuns.ContinueIsSilent | Sources/gdb.c:182-189 | The debug exception after a `c` over a breakpoint reads and sends nothing, arms the breakpoint again, and changes nothing in the registers but clearing the trap flag |
| DebugRuns.SessionKeeps | Sources/gdb.c:207-349 | A whole command loop that returns keeps the program, changes nothing in the registers but the flags, and ends in a state the program may be resumed in |
| DebugRuns.EntryKeeps | Sources/gdb.c:177-199 | Whatever trap starts a conversation, the stepped-over breakpoint is armed again and both restore fields are -1 before the first packet |
| DebugRuns.ConversationKeeps | Sources/gdb.c:173-350 | `gdb_converse` as a whole, the silent return included, keeps the program, ends resumable, and changes no register but the flags and eip, which goes to where the debugger was shown it to be; there the program's own byte is fetched |
| DebugRuns.ProgramCounterIsKept | Sources/gdb.c:177-199 | That is the interrupted eip if and only if the conversation is silent, or it is the first and started by a breakpoint instruction, or a later one and not; a first stop by a debug exception skips a byte |
| DebugRuns.EnteredRegisters | Sources/gdb.c:177-199 | The registers a conversation starts with, and when it is silent |
| DebugRuns.StepKeeps | Sources/gdb.c:173-350 | One step of the program or of the stub keeps the run invariant |
| Stops.EveryStop | Sources/gdb.c:177-199 | At every stop of every run from boot, the debugger is shown, and the program goes on at: the reported eip at a first stop by a breakpoint instruction, one more at any other first stop; later, one less than reported for a breakpoint instruction and the reported eip otherwise; only the stop inside a continuation is silent and moves nothing |
| Stops.PhaseTellsTheFirstStop | Sources/gdb.c:196-199 | Over every run `phase` is 0 exactly up to and including the first stop |
| Stops.CommandPhase | Sources/gdb.c:307-339 | Only a continuation moves the phase, to 2 |
| Stops.SessionPhase | Sources/gdb.c:207-347 | No session brings the phase back to 0 |
| Stops.ConversationPhase | Sources/gdb.c:173-350 | A conversation that is not silent leaves the phase different from 0 |
| Requests.ResumeTexts | Sources/gdb.c:307-338 | For every packet: it asks for a step if and only if it begins with vCont;s, for a continuation if and only if it begins with vCont;c |
| Requests.OnlyThoseResume | Sources/gdb.c:307-338 | Exactly those packets resume the program |
| Requests.StepRequest | Sources/gdb.c:315-323 | vCont;s with any tail goes on where the program is with the trap flag set, no continuation noted and the phase as it was |
| Requests.ContinueRequest | Sources/gdb.c:324-336 | vCont;c with any tail clears the trap flag and notes nothing off a breakpoint instruction, sets it and notes the address on one, and sets the phase to 2 |
| Requests.ReadText | Sources/gdb.c:262-264 | In m, address, comma, length, any tail: the first number is the address and the second the length, each modulo 2^32 |
| Requests.DumpRequest | Sources/gdb.c:261-270 | A dump request as a debugger writes it, with address and length in hexadecimal notation, is answered with the program's bytes |
| Requests.DumpOutside | Sources/gdb.c:143-158 | From `_end` on and at 0 a dump shows zeros, except that four bytes are the program's |
| Requests.DumpLengths | Sources/gdb.c:264-267 | A length with the sign bit asks for nothing; from 512 up to there a dump does not fit |
| Requests.BadDumpRequest | Sources/gdb.c:271-273 | Without a number or the comma the answer is E01 and nothing else happens |
| Requests.PointText | Sources/gdb.c:275-287 | In Z0 or z0, address, kind, any tail: which number is which, missing digits counting as 0, and the halt on another kind |
| Requests.SetRequest | Sources/gdb.c:275-287 | Setting a breakpoint answers OK and patches 0xCC at the address and nowhere else, or, with 1024 set, answers OK and does nothing |
| Requests.ClearRequest | Sources/gdb.c:291-303 | Clearing one answers OK and gives the program its byte back there and nowhere else |
| Requests.BadPointRequest | Sources/gdb.c:276-283 | A malformed breakpoint request is answered with nothing, one of another kind halts |
| Requests.FixedReplies | Sources/gdb.c:213-239 | The text of each fixed reply by the beginning of the request, and the empty reply to every other request |
| Requests.OtherRequests | Sources/gdb.c:212-346 | Requests other than dumps, breakpoints, registers and resumptions change nothing but the reply |
| Requests.OpensWithStop | Sources/gdb.c:205-205 | A conversation that is not silent opens with the frame of T05thread:01; |
| Requests.NumeralOfNumber | Sources/gdb.c:117-135 | The number `hex2int` reads from usual hexadecimal notation is the number written |
| Requests.DigitValues | Sources/gdb.c:19-27 | Exactly the sixteen digits of either case have their values |
| DebugRuns.FreeRunIsArmed | Sources/gdb.c:182-189 | Whenever the program is resumed with the trap flag clear, every table entry is armed |
| DebugRuns.ReadShowsTheProgram | Sources/gdb.c:261-270 | An `m` reply for a range starting inside the image and at most 511 bytes long decodes to the program's bytes with every breakpoint hidden, and the request changes nothing but the send buffer |
| DebugRuns.RegistersReadBack | Sources/gdb.c:240-260 | The first 128 characters of a `g` reply decode to the sixteen registers in order; the reply ends there if and only if the send buffer already had a terminator at 128 |
| DebugRuns.DumpTailsTheRegisters | Sources/gdb.c:240-260 | After a dump of 65 to 511 bytes the `g` reply does run on into the old dump |
| DebugRuns.Exchange | Sources/gdb.c:207-347 | A framed request followed by the debugger's acknowledgement yields '+' and exactly the framed reply of that request, and the stub continues from the request's state |
| Replies.ReplyArrives | Sources/gdb.c:83-106 | Any reply taken from a tidy send buffer is received whole and at once by the packet layer's own receiver: no framing character and at most 1022 characters; it is handed on unchanged if and only if it has two or more characters or the receiver's buffer has no ':' in third place |
| Replies.CommandIsTidy | Sources/gdb.c:207-347 | Every request, well-formed or not, leaves the send buffer tidy, the `g` reply with its stale tail included |
| Replies.SessionIsTidy | Sources/gdb.c:207-349 | So does every whole command loop |
| Replies.RunIsTidy | Sources/gdb.c:11-12 | Over every run from boot the send buffer is tidy at every moment |
| Replies.FixedRepliesAreClean | Sources/gdb.c:213-239 | The fixed replies hold no framing character and cannot look like a sequence id |
| ReplyTails.RegistersEndWhere | Sources/gdb.c:240-260 | In every conversation of every run, each `g` reply ends behind the registers if and only if, among the requests answered before it since boot, there is no dump of 64 bytes or more or the last such dump was of exactly 64 |
| ReplyTails.RunTails | Sources/gdb.c:240-270 | Over every run the terminator a `g` reply needs is in the buffer exactly if the answered requests say so |
| ReplyTails.SessionTails | Sources/gdb.c:207-347 | The same for every packet of any session |
| ReplyTails.CommandTail | Sources/gdb.c:207-347 | One request of any kind sets, clears or keeps that terminator as its dump size says |
| GdbStub.Debugger.Converse | Sources/gdb.c:173-350 | The imperative `gdb_converse` over ring, buffers, table and restore fields does exactly what `Conversation` says, on every input, or never returns when that says so |
| GdbStub.Debugger.Enter | Sources/gdb.c:177-199 | The entry state machine: eip correction, phase, and both restore paths |
| GdbStub.Debugger.Serve | Sources/gdb.c:207-347 | The command loop refines `Session`, from which the run properties are proved; it ends by the measure of unread input |
| GdbStub.Debugger.ServeOne | Sources/gdb.c:207-347 | One packet: received, executed, answered |
| GdbStub.Debugger.Execute | Sources/gdb.c:211-345 | The switch over a packet leaves the state `Command` gives, for every packet text |
| GdbStub.Debugger.Acknowledge | Sources/gdb.c:346-346 | The reply left in the send buffer is sent until acknowledged |
| GdbStub.Debugger.Read | Sources/gdb.c:261-274 | `m`: parsing, error reply, or the dump |
| GdbStub.Debugger.Dump | Sources/gdb.c:264-270 | Mask all, dump, unmask all: the new send buffer, memory and table |
| GdbStub.Debugger.Point | Sources/gdb.c:275-306 | `Z` and `z`: parsing, the halt on a kind other than 1, the table update and the reply |
| GdbStub.Debugger.Resume | Sources/gdb.c:307-339 | `vCont;s` and `vCont;c`: patched byte, restore field, flags and phase |
| GdbStub.WriteRegisters | Sources/gdb.c:241-258 | The register dump writes all sixteen registers end to end and leaves the rest of the buffer |
| GdbStub.Debugger.constructor | Sources/gdb.c:11-17 | At boot the table is empty, both restore fields are -1 and memory is untouched |
| Packets.GetPacketFollowsGrammar | Sources/gdb.c:29-81 | `getpacket` delivers if and only if the input splits into noise, frames cut short by '$', overlong frames and corrupt frames followed by a good frame, and then with exactly that packet, one '-' per corrupt frame, the '+' and sequence id, that rest unread and that buffer |
| Packets.ReadingIsFollowed | Sources/gdb.c:35-80 | Every such splitting of the input is the one `getpacket` follows, so it is unique in its effect |
| Packets.HuntReads | Sources/gdb.c:35-80 | Whatever `getpacket` delivers has such a splitting |
| Packets.ChecksumIsSum | Sources/gdb.c:40-51 | The running checksum is the sum of all characters modulo 256 |
| Packets.FrameIsJudged | Sources/gdb.c:57-67 | A frame of up to 1022 characters is accepted if and only if its two digits stand for that sum modulo 256, a bad digit counting -1; otherwise it is answered with '-' |
| Packets.FrameLooks | Sources/gdb.c:91-103 | What is sent for a text: '$', the text, '#', and the sum modulo 256 in two lower-case digits, high one first |
| Packets.FrameArrives | Sources/gdb.c:40-77 | A frame is received whole and at once, with the stale third character of the buffer deciding about a sequence id for payloads shorter than 2 |
| Packets.FrameRoundTrip | Sources/gdb.c:83-106 | What `putpacket` sends is what `getpacket` hands on, for every text of up to 1022 characters without '$', '#' or NUL, if and only if the third character looked at is not ':' |
| Packets.SequenceIdIsStripped | Sources/gdb.c:69-75 | A text of two or more characters whose third is ':' has its first two echoed and is handed on from the fourth on |
| Packets.ShortTextBehindColonIsLost | Sources/gdb.c:69-75 | A text shorter than two characters behind a ':' left in third place is lost: two characters are echoed and the tail of the earlier packet is handed on |
| Packets.RegistersRequestIsLost | Sources/gdb.c:69-75 | After the packet ab:? a framed g is handed on as ? |
| Packets.PutStep | Sources/gdb.c:90-105 | Each refused frame is followed by one more identical frame, so `Put`'s k+1 frames for k refusals are what the send loop produces |
| Packets.Link.GetPacket | Sources/gdb.c:29-81 | The imperative `getpacket` with its buffer, retries and replies equals `Hunt` on buffer, input and output |
| Packets.Link.ReadBody | Sources/gdb.c:40-55 | The inner loop: running checksum, restart at '$', stop at '#' or the end of the buffer |
| Packets.Link.Verify | Sources/gdb.c:57-66 | The checksum comparison modulo 256 with bad digits counting -1, and the '-' |
| Packets.Link.HuntStart | Sources/gdb.c:36-38 | Everything before '$' is skipped |
| Packets.Link.SendAccept | Sources/gdb.c:67-77 | Acknowledgement and sequence-id rule on the buffer's contents |
| Packets.Link.PutPacket | Sources/gdb.c:83-106 | The imperative `putpacket` emits k+1 identical frames, k being the number of characters other than '+' before the first '+', and consumes exactly those |
| Packets.Link.SendFrame | Sources/gdb.c:91-103 | One round writes '$', the text, '#' and the checksum of the whole text in two digits |
| HexText.DecodeHexBytes | Sources/gdb.c:139-171 | Dumped bytes are recovered by a byte-pair decoder, for every sequence of bytes |
| HexText.DecodeWordsText | Sources/gdb.c:108-115 | Register texts laid end to end are recovered word by word |
| HexText.WriteRegister | Sources/gdb.c:108-115 | `write_register` writes the dump of the register's four little-endian bytes and nothing else |
| HexText.ByteTextValue | Sources/gdb.c:161-163 | Two digits a byte, most significant first |
| Words.LittleEndianValue | Sources/gdb.c:110-113 | Four bytes a word, least significant first |
| HexText.NibblesOfBytes | Sources/gdb.c:110-113 | The shifted nibbles of a word are the nibbles of its little-endian bytes |
| HexText.Mem2Hex | Sources/gdb.c:139-171 | `mem2hex` writes the terminated dump of the bytes it is meant to show, on all three paths |
| HexText.DumpBytes | Sources/gdb.c:151-165 | The two byte loops |
| HexText.WordShown | Sources/gdb.c:143-150 | The word path outside the image shows the same text as the byte loop would |
| HexText.Hex2Int | Sources/gdb.c:117-135 | `hex2int` consumes exactly the longest run of hex digits and yields its numeral modulo 2^32 |
| HexText.CopyText | Sources/gdb.c:215-215 | `strcpy` into a buffer: text, terminator, rest unchanged |
| HexText.HexDigit | Sources/gdb.c:14-27 | Each digit written reads back as its value and is never a framing character |
| DebugPort.RingIsFifo | Sources/debug.c:29-73 | Over every run, with arrivals between slot read and index advance included: what was taken followed by what is held equals what was held followed by what arrived |
| DebugPort.FooAllHolds | Sources/debug.c:29-38 | A burst of characters is stored in order if and only if it fits 1023, and overflow halts otherwise |
| DebugPort.RingFull | Sources/debug.c:30-34 | The overflow test fires exactly at 1023 held characters |
| DebugPort.Port.Foo | Sources/debug.c:29-38 | The method over the ring's array appends or halts, and keeps the slot a reader is looking at |
| DebugPort.Port.Take | Sources/debug.c:69-72 | The end of `dbg_recv` with interrupts in the window returns the oldest character and loses none of the arrivals |
| DebugPort.Port.DbgRecv | Sources/debug.c:56-73 | Returns the next character of everything received and still to come |
| Breakpoints.TableRefinesMap | Sources/debug.c:75-104 | Any sequence of adds and removes without null or duplicate addresses refines a finite map of at most 1024 entries from address to original byte, and memory is the original patched exactly on its domain |
| Breakpoints.SlotsSize | Sources/debug.c:76-78 | The map has as many entries as the table has slots exactly when no slot is free |
| Breakpoints.SlotsMeaning | Sources/debug.c:75-104 | The map's domain and values are the listed addresses and their saved bytes |
| Breakpoints.AddExact | Sources/debug.c:75-87 | Adding keeps the table sound and the program unchanged if and only if `AddAllowed` holds |
| Breakpoints.RemoveExact | Sources/debug.c:89-104 | Removing does if and only if `RemoveAllowed` holds |
| Breakpoints.DuplicateAddLosesTheByte | Sources/debug.c:75-104 | Set twice and cleared twice, a breakpoint stays in the program and the original byte is lost |
| Breakpoints.MaskAllShowsTheProgram | Sources/debug.c:145-157 | Masking all uncovers the logical memory everywhere, and unmasking all restores memory exactly |
| Breakpoints.MaskOne | Sources/debug.c:121-131 | Masking one breakpoint uncovers the program's byte there and leaves all others armed |
| Breakpoints.UnmaskOne | Sources/debug.c:133-143 | Unmasking it arms the table again |
| Breakpoints.BreakpointTable.AddBreakpoint | Sources/debug.c:75-87 | First free slot, saved byte, patched byte; no effect when full |
| Breakpoints.BreakpointTable.RemoveBreakpoint | Sources/debug.c:89-104 | First matching slot restored and freed; no effect without one |
| Breakpoints.BreakpointTable.MaskBreakpoint | Sources/debug.c:121-131 | First matching slot's byte written back |
| Breakpoints.BreakpointTable.UnmaskBreakpoint | Sources/debug.c:133-143 | Breakpoint byte written if the address is listed |
| Breakpoints.BreakpointTable.MaskAllBreakpoints | Sources/debug.c:145-150 | All saved bytes written back in slot order |
| Breakpoints.BreakpointTable.UnmaskAllBreakpoints | Sources/debug.c:152-157 | All breakpoint bytes written |
| ContextSwitch.SavedThreadResumes | Sources/cpu_context_save.S:18-50 | After a save and any run of any number of threads with disjoint homes, loading the context continues at the given entry with every general register, flags and the stack pointer of the save's return, canaries intact |
| ContextSwitch.EveryRunIsSafe | Sources/cpu_context_save.S:18-50 | Over every run from the start, of any number of threads with disjoint homes in any order of init, save, computing and load: each ready context holds its thread's registers inside its stack, stacks of threads that are away are as left, all canaries stand |
| ContextSwitch.SwitchedStackIsKept | Sources/cpu_context_load.S:15-43 | Between a save and the hand-over a thread may compute and initialise contexts; after any run of any threads it is loaded with every word of its stack, from the stack pointer of the save's return up, that it did not itself overwrite as it was at the save, although `load` overwrites the three words below |
| ContextSwitch.LeftStackIsKept | Sources/cpu_context_load.S:15-43 | A thread that hands over to another has its stack back when it is loaded, from its saved stack pointer up, as it was when it left |
| ContextSwitch.HandOverIsOpen | Sources/cpu_context_save.S:18-50 | Behind a save the thread can always push the context of any ready thread and call `load`, writing nothing at or above the stack pointer of the save's return |
| ContextSwitch.AwayStackIsKept | Sources/cpu_context_load.S:15-43 | While a thread is away its stack is as it left it |
| ContextSwitch.NewThreadIsCalled | Sources/cpu_context.c:9-49 | A new thread, whenever first loaded, enters `entry` as a conforming call: esp+4 a multiple of 16 holding `arg`, the invalid return address at esp, ebp the frame top, flags 0x246, all other registers 0 |
| ContextSwitch.StackFits | Sources/cpu_context.c:20-33 | All stack writes of `init` and the first `load` lie inside the stack for every position without wrap-around if and only if it has at least 35 bytes |
| ContextSwitch.LoadResumes | Sources/cpu_context_load.S:15-43 | A load restores all captured registers, and changes no memory word but the three below the new stack pointer |
| ContextSwitch.LoadIsSafe | Sources/cpu_context_load.S:15-43 | In every reachable state a ready context can be loaded: the three words lie on that thread's stack and apart from its context block |
| ContextSwitch.StepKeeps | Sources/cpu_context_save.S:18-50 | Every event (computing, init, save, load) keeps contexts, stacks of threads that are away, and canaries |
| ContextSwitch.CaptureLasts | Sources/cpu_context_save.S:18-50 | Until a context is saved or initialised again, no run changes what it holds |
| ContextSwitch.BlockWords | Headers/Public/Processor/Context.h:17-28 | Where a block keeps what |
| ContextSwitch.CanaryWords | Headers/Public/Processor/Context.h:11-28 | The two guard words and where they lie |
| ContextSwitch.SavedBlock | Sources/cpu_context_save.S:18-50 | What `save` leaves in the block is what `load` needs; it touches only the block and three stack words |
| ContextSwitch.InitBlock | Sources/cpu_context.c:9-49 | What `init` leaves: block, canaries, argument and return address; it touches nothing else |
| ContextSwitch.LoadWrites | Sources/cpu_context_load.S:18-27 | `load` writes exactly the three words |
| ContextSwitch.Processor.CpuContextSave | Sources/cpu_context_save.S:18-50 | The instruction sequence, with all registers given back and the context written |
| ContextSwitch.Processor.SaveScratch | Sources/cpu_context_save.S:20-31 | eax and ebx pushed, the first four registers stored, the context's address left in eax |
| ContextSwitch.Processor.SavePointers | Sources/cpu_context_save.S:33-39 | The middle four stores keep the stack words still needed |
| ContextSwitch.Processor.SaveFlags | Sources/cpu_context_save.S:41-50 | Flags and entry stored, and the way back with eax and ebx as before the call |
| ContextSwitch.LoadedWords | Sources/cpu_context_load.S:18-36 | The three words written change neither the block being read nor one another |
| ContextSwitch.Processor.CpuContextLoad | Sources/cpu_context_load.S:15-43 | The instruction sequence up to and including the jump through the rewritten stack |
| ContextSwitch.Processor.SwitchStack | Sources/cpu_context_load.S:29-43 | leave, popf and ret take ebp, flags and program counter from the three words just written |
| ContextSwitch.Processor.CpuContextInit | Sources/cpu_context.c:9-49 | Stack and context block of a new thread |
| ContextSwitch.Memset | Sources/cpu_context.c:13-13 | Every word of the block is set to 0 |
| TrapFrames.TrapRestores | Sources/cpu_exceptions_irq.S:8-34 | For every finite tree of nested traps and interrupts, with handlers that may overwrite the arguments made up by their stub but not the saved registers, each `iret` gives back every general register, the segment registers and the stack pointer; only eip and eflags can differ, by the handler's last writes to esp[0] and esp[2]; live memory is untouched |
| TrapFrames.ActsKeep | Sources/cpu_exceptions_irq.S:22-34 | Everything a handler does before it returns keeps live memory and its frame |
| TrapFrames.EnterFrames | Sources/cpu_exceptions_irq.S:8-22 | Each stub leaves every register where its exit looks for it and writes only its frame |
| TrapFrames.HandlerIsCalled | Sources/i8259_irq.S:1-23 | The called handler finds the way back on top of the stack and above it the number of the line, from a controller's stub; 1, with the local APIC acknowledged, from a local stub; the address of the interrupted eip and the error code from a trampoline |
| TrapFrames.ExitRestores | Sources/cpu_exceptions_irq.S:23-34 | The exit sequence gives the registers of an intact frame back |
| TrapFrames.HandlerSeesTheProgram | Sources/cpu_exceptions.c:43-68 | Through hardware frame, trampoline and argument list the handler obtains the interrupted program's registers, esp being the value before the trap, fs and gs 0, ss KERNEL_DS |
| TrapFrames.ReplyShowsTheProgram | Sources/gdb.c:240-258 | End to end: the first 128 characters of a `g` reply decode to the registers the interrupted program had, eip adjusted for the kind of trap and the phase |
| TrapFrames.StoppedRegisters | Sources/gdb.c:177-199 | The adjustment of eip at the entry, in reply order |
| TrapFrames.WrittenBackByHandler | Sources/cpu_exceptions.c:72-74 | After anything a well-behaved handler does and any interrupts it takes, if it has kept its first argument, that still points to the interrupted eip and eflags, and its two writes land there |
| TrapFrames.DebuggedProgramGoesOn | Sources/cpu_exceptions.c:70-75 | For any handler activity, nested traps included, followed by the two writes, the program continues where and with the flags the debugger says, everything else as before the trap |
| TrapFrames.DoTrap | Sources/cpu_exceptions.c:43-115 | `do_int3` and `do_debug`: registers gathered from the stack, the conversation held, eip and eflags written back |
| TrapFrames.DoInt3 | Sources/cpu_exceptions.c:43-75 | The breakpoint handler converses as trap 3 |
| TrapFrames.DoDebug | Sources/cpu_exceptions.c:83-115 | The debug handler converses as trap 1 |
| TrapFrames.Processor.NoErrorCode | Sources/cpu_exceptions_irq.S:8-22 | The trampoline without error code up to its call |
| TrapFrames.Processor.ErrorCode | Sources/cpu_exceptions_irq.S:78-92 | The trampoline with error code up to its call |
| TrapFrames.Processor.TrapExit | Sources/cpu_exceptions_irq.S:23-34 | Both trampolines from the handler's return on |
| TrapFrames.Processor.IrqStub | Sources/i8259_irq.S:1-23 | A controller stub up to its call |
| TrapFrames.Processor.IrqExit | Sources/io_apic_irq.S:1-12 | Every interrupt stub from the handler's return on |
| TrapFrames.Processor.LocalStub | Sources/reset_handler.S:114-144 | The timer and interprocessor stubs: acknowledgement first, argument 1 |
| SmpBoot.CounterIsExact | Sources/cpu_start.c:45-61 | Under every interleaving, timeouts and late starters included, `no_cpus_up` is one more than the processors that incremented it, and at most one started processor has not, although the increment is not atomic |
| SmpBoot.SilentProcessorEndsTheLoop | Sources/cpu_start.c:52-60 | A processor that has not counted itself after a thousand polls ends the loop |
| SmpBoot.LoopEnds | Sources/cpu_start.c:47-60 | The loop ends behind processor 32 or behind a silent one, and nowhere else |
| SmpBoot.StepIsSerial | Sources/cpu_start.c:47-61 | Each step of the boot processor or a secondary keeps the serialisation that makes it so |
| SmpBoot.CountSerial | Sources/cpu_start.c:88-88 | In a serialised state the number of processors that have counted is determined by the messages sent |
| SmpBoot.MaskNamesOnlyCounted | Sources/cpu_start.c:89-89 | `cpus_up_mask` always keeps bit 0 and names only processors that have counted |
| SmpBoot.MaskCompleteUnlessRaced | Sources/cpu_start.c:89-89 | For ids up to 31 the mask names everyone who is up if and only if in the schedule no processor's mask update has another processor's mask store between its load and its store |
| SmpBoot.RunIsRecorded | Sources/cpu_start.c:89-89 | The proof's history variables say of every run exactly what its schedule says |
| SmpBoot.MaskCanLoseAProcessor | Sources/cpu_start.c:89-89 | Such a run exists: two processors up, the counter 3, the mask without processor 1 |
| SpinLock.MutualExclusion | Headers/Public/Processor/Synchronization.h:20-42 | At most one processor holds the lock in every reachable state if and only if 255 is not among the ids or is alone: the bound that makes the one-byte result harmless |
| SpinLock.AttemptTellsTheHolder | Headers/Public/Processor/Synchronization.h:25-41 | With ids up to 254, in every reachable state an attempt returns 0 if and only if nobody holds the lock and then takes it; the port is written if and only if somebody else holds it, with that holder's number |
| SpinLock.LastIdSharesTheLock | Headers/Public/Processor/Synchronization.h:7-18 | Processor 255 stores 256, whose low byte is 0: another processor then gets the lock too |
| SpinLock.Lock.CompareAndSwap | Headers/Public/Processor/Synchronization.h:7-18 | The exchange happens exactly on a match; the result is the low byte of the previous value |
| SpinLock.Lock.TestAndSet | Headers/Public/Processor/Synchronization.h:20-42 | New word, result and port write of one attempt |
| Idt.Table.CpuIdtInit | Sources/cpu_idt.c:89-125 | Afterwards decoding any of the 256 gates gives the intended stub's address, the kernel selector, gate type, privilege level and presence, later tables winning where offsets collide |
| Idt.EveryGate | Sources/cpu_idt.c:89-125 | Vector by vector what such a gate means: exceptions 0 to 16 but 14 lead to their stubs, 3 to 5 through interrupt gates open to level 3 and the others through trap gates; 0xED, 0xEE, 0xEF, the two ranges and all the rest lead to their stubs through interrupt gates; selector 0x10, present |
| Idt.GateRoundTrip | Sources/cpu_idt.c:43-48 | A packed gate decodes to what was asked for if and only if the type fits 4 bits and the privilege level 2 |
| Idt.Table.SetEarlyExceptions | Sources/cpu_idt.c:97-104 | Exceptions 0 to 7 by their gates, nothing else changed |
| Idt.Table.SetLateExceptions | Sources/cpu_idt.c:105-113 | Exceptions 8 to 16 but 14 |
| Idt.Table.SetGate | Sources/cpu_idt.c:50-57 | One gate written, read back by decoding |
| Idt.Table.SetIntrGate | Sources/cpu_idt.c:59-61 | An interrupt gate for the kernel |
| Idt.Table.SetSystemIntrGate | Sources/cpu_idt.c:63-65 | An interrupt gate open to privilege level 3 |
| Idt.Table.SetTrapGate | Sources/cpu_idt.c:67-69 | A trap gate |
| IrqRouting.InterruptCallsTheLatest | Sources/cpu_trap_attach_isr.c:12-28 | After any history of attachments and initialisations, interrupt v of either range calls exactly the non-null routine attached to v last and not cleared since, with argument v, 8259s acknowledged before and the local APIC after |
| IrqRouting.RoutedExactly | Sources/cpu_trap_attach_isr.c:12-28 | A vector reaches what is attached for it if and only if it lies in one range only and is not 0 or 1 |
| IrqRouting.UnclaimedVectors | Sources/reset_handler.S:97-111 | Vectors nobody claims are acknowledged and call nothing; the error vector is not acknowledged |
| IrqRouting.TablesHoldTheLatest | Sources/cpu_trap_attach_isr.c:15-27 | Each table entry is the last attachment to its id since the table was cleared |
| IrqRouting.LocalInterruptsCallTheLatest | Sources/reset_handler.S:114-144 | Timer and interprocessor interrupts call what is attached to ids 1 and 0 with argument 1, without a null check |
| Controllers.Board.Interrupt | Sources/i8259.c:49-74 | Following gate v, the stub there and the handler it calls emits exactly the acknowledgements and the call that `Response` gives for the intended stub |
| Controllers.Board.CpuTrapAttachIsr | Sources/cpu_trap_attach_isr.c:12-28 | The table entry chosen by id, and no other |
| Controllers.Board.I8259MasterHandler | Sources/i8259.c:49-60 | Acknowledge the master, then call |
| Controllers.Board.I8259SlaveHandler | Sources/i8259.c:62-74 | Acknowledge slave and master, then call |
| Controllers.Board.IoApicHandler | Sources/io_apic.c:110-119 | Call, then acknowledge the local APIC |
| IrqMasks.OneSetOfIds | Sources/cpu_trap_enable.c:12-32 | Any sequence of `cpu_trap_enable` and `cpu_trap_disable` acts as insertions into and removals from one set of ids over the bits of local APIC, 8259 masks and redirection entries, and changes no bit that is not a mask bit |
| IrqMasks.SwitchesOnlyItsOwn | Sources/cpu_trap_disable.c:12-32 | One call decides its own id's bit and no other, on every device |
| IrqMasks.SwitchReaches | Sources/cpu_trap_enable.c:12-32 | What reaches the processor after a call: an id's own bit and, for the lines of the slave 8259, the master's line 2 |
| IrqMasks.OnlyTheCascadeTouchesOthers | Sources/cpu_trap_disable.c:12-32 | A call changes what reaches the processor for another id if and only if it is for the master's line 2, moves its bit, and some line of the slave is open |
| IrqMasks.KeepsTheRest | Sources/io_apic.c:121-133 | One call leaves every register as it was up to mask bits, and both chips in operation |
| IrqMasks.LineSwitched | Sources/i8259.c:76-91 | The read, change and write of a mask byte moves one line's bit |
| IrqMasks.PinSwitched | Sources/io_apic.c:121-133 | The same for one pin's redirection entry |
| IrqMasks.InitLeavesTheCascade | Sources/i8259.c:42-45 | After `i8259_init` exactly line 2, the slave's, is open |
| IrqMasks.InitMatchesTheWiring | Sources/i8259.c:27-37 | The initialisation words agree with the wiring: slave on line 2, 8086 mode, no automatic acknowledgement |
| IrqMasks.LocalBits | Sources/cpu_trap_enable.c:14-23 | Which bits of which local APIC registers decide for ids 0 and 1 |
| IrqMasks.ShutdownClosesAll | Sources/i8259.c:93-96 | After `i8259_shutdown` no line is open and nothing else has changed |
| IrqMasks.VectorsAreInOrder | Sources/i8259.c:27-37 | The chips then send offset + irq for all sixteen lines if and only if the offset is a multiple of eight |
| Controllers.Board.CpuTrapEnable | Sources/cpu_trap_enable.c:8-32 | Dispatch by id to the device's unmasking, new state of all devices |
| Controllers.Board.CpuTrapDisable | Sources/cpu_trap_disable.c:8-32 | Dispatch by id to the device's masking |
| Controllers.Board.I8259Init | Sources/i8259.c:20-47 | The twelve port writes take both chips through initialisation; the table of routines is cleared |
| Controllers.Board.I8259Enable | Sources/i8259.c:76-82 | One bit cleared in the mask of the line's chip |
| Controllers.Board.I8259Disable | Sources/i8259.c:84-91 | One bit set in it |
| Controllers.Board.I8259Shutdown | Sources/i8259.c:93-96 | Both masks all ones |
| Controllers.Board.IoApicEnable | Sources/io_apic.c:121-126 | One entry rewritten through the window with its mask bit clear |
| Controllers.Board.IoApicDisable | Sources/io_apic.c:128-133 | With its mask bit set |
| Controllers.Board.IoApicWriteBack | Sources/io_apic.c:43-49 | An entry written back changes only its low word |
| Controllers.Board.IoApicReadEntry | Sources/io_apic.c:33-41 | The two words of the pin's entry, read through the window |
| Controllers.Board.IoApicWriteEntry | Sources/io_apic.c:43-49 | The two words written, high word first, and no other register |
| Controllers.Board.IoApicWrite | Sources/io_apic.c:18-21 | Select and write one register of the window |
| Controllers.Board.IoApicRead | Sources/io_apic.c:23-26 | Select and read one register of the window |

## Left out

- The serial chip's registers, port instructions other than the 8259's, and all printing: the line is a sequence of input and of output characters.
- A dump longer than 511 bytes would run over the end of the send buffer; it is the outcome `Overrun`, after which nothing is claimed. The loops that halt on a bad breakpoint kind or a full ring are outcomes too.
- The stub's own variables are not part of the memory that breakpoints patch, so a breakpoint set inside the stub is not modelled.
- `remove_all_breakpoints`, which is never called and frees only the first occupied slot.
- The `sti` inside `gdb_converse` and interrupts taken during a conversation, other than arrivals of characters in the ring.
- Trap handlers that print and spin never return and are not part of the trees of traps; `device_not_available`, `ignore_int` and `lapic_error_int` call no routine of interest.
- Changes the hardware makes to the flags on delivery (clearing TF and IF), and flags set by address arithmetic in stubs; privilege changes on `iret`.
- Memory of the context switch and the trap frames is by aligned words; a misaligned stack pointer is outside the model.
- Context switches inside trap handlers; which label of the exception stubs names which handler and jumps to which trampoline.
- `smp_init` and the secondary branch of `cpu_start` are steps on shared values rather than methods, because what matters is how their loads and stores interleave. The startup code copied to low memory, the INIT message and the delays are a step that may or may not start a processor's work.
- `IrqMasks.OneSetOfIds` starts from a pair of 8259s that has been initialised, since a data port write before that is not a mask.
- `io_apic_init`, whose call is compiled out; the value of the descriptor loaded by `lidt`; hardware-owned status bits of redirection entries.
- `InterruptCallsTheLatest` counts a call as an event; what the service routine then does is outside the routing model.
- Caches, power states, timers, calibration, byte swaps and the global descriptor table.
