# guwah core, modelled in Dafny

guwah is a small network simulator written in Rust. Its core reads two text
files and builds what the simulation runs on:

- a topology file: nodes, the connections of each node, and `endNode`/`endNet` markers;
- an instruction file: `time,msg,id,start,end`, `time,rep[,id]` and `time,endSim` lines.

This project models that core and proves properties of it:

- the command-line switch scanner that picks the two files (`Settings`);
- the comment stripper shared by both loaders (`Comments`);
- the topology loader, which is a line-driven state machine (`NtwkCodes`, `NtwkNodes`, `NtwkFileUtils`, `NtwkLoad`);
- the instruction types and the instruction line parser (`Instrs`, `LegacyInstrs`, `InstrParse`);
- the instruction store, which groups equal-timestamp instructions into buckets (`SimStore`);
- the clock that yields one bucket or an empty tick per time step (`SimTimeline`);
- the conversion from a message instruction to a packet (`Packets`);
- the explicit-stack in-order iterator of the message tree (`AvlTrees`).

Code that updates state in place is modelled imperatively:

- The store, the network, its nodes and the iterators are classes whose methods change their fields.
- The loaders are methods with loops.
- Each of them is proved against a pure function of the input (`LoadSpec`, `RunFrom`, `Ticks`, `InOrder`, …).
- The properties the source promises are proved as lemmas about those functions.

`Text` holds the shared text helpers: `str::split` on one character, and a decimal `u32` recogniser.

The crate compiles the `src/timeline/` tree. The older `src/ntwk/*` and `src/sim*` files are earlier copies of the same logic. Where an operation has two copies, its Dafny member models both, and the table below cites the newer file. The command-line scanner, the comment stripper and the instruction parser have only one copy each. The earlier spans are:

- `NtwkNode::new`: src/ntwk/node.rs:12-29.
- `push`: src/ntwk/node.rs:33-35.
- `parse_new_node`: src/ntwk/file_utils.rs:23-51.
- `parse_conn_list`: src/ntwk/file_utils.rs:53-74.
- `handle_end_node`: src/ntwk/file_utils.rs:76-84.
- `handle_end_net`: src/ntwk/file_utils.rs:86-94.
- `Sim::from_file`: src/sim.rs:59-111.
- `insert`: src/sim.rs:113-127.
- `insert_helper`: src/sim.rs:157-169.
- The bucket iterator's `next`: src/sim.rs:40-51.
- The clock's `next`: src/sim.rs:177-198.
- `Instr`: src/sim/instr.rs.

## Model

| member | source | states |
|---|---|---|
| Settings.FromArgs | src/lib.rs:20-82 | the scanning loop, with its early breaks and the check after the loop, returns exactly `FromArgsSpec` of the arguments after the program name |
| Settings.Finish | src/lib.rs:74-81 | a pending switch turns any status into SwitchHasNoArg; the result is Ok with the settings exactly when the status is Okay and nothing is pending; otherwise it is Err with the status |
| Settings.NoArguments | src/lib.rs:20-31 | with nothing after the program name, the result is Ok(`config/basic.ntwk`, `config/basic.sim`) |
| Settings.ScanAcceptsExactlyPairs | src/lib.rs:31-72 | scanning from a state with nothing pending succeeds exactly on lists of `-n`/`-s` switch-value pairs; it then yields the files they name, with later pairs winning |
| Settings.FromArgsAcceptsExactlyPairs | src/lib.rs:20-82 | a command line is accepted if and only if its arguments are switch-value pairs; the settings are the defaults updated by those pairs |
| Settings.FilePair | src/lib.rs:41-65 | `-n X` sets only the topology file to X; `-s X` sets only the instruction file |
| Settings.LaterPairWins | src/lib.rs:60-65 | a later `-n` pair overwrites an earlier one, and the instruction file keeps its default |
| Settings.RunKeepsFlagsExclusive | src/lib.rs:41-53 | no argument raises both pending flags, from any state where at most one is raised |
| Settings.NeverBothFlags | src/lib.rs:29-53 | `ntwk_flag` and `sim_flag` are never both true |
| Settings.SwitchWhilePending | src/lib.rs:33-53 | `-h`, `-n` or `-s` while a switch awaits its value stops scanning with SwitchHasNoArg |
| Settings.HelpStops | src/lib.rs:33-39 | `-h` with nothing pending gives ShowHelpSign, whatever follows |
| Settings.ShortDashIsUnknownSwitch | src/lib.rs:55-59 | any other argument of at most two bytes starting with `-` is UnknownSwitch; a pending switch then overrides it with SwitchHasNoArg |
| Settings.LongDashIsValue | src/lib.rs:56-65 | a longer dash argument such as `--x` is taken as a file name |
| Settings.ValueWithoutSwitch | src/lib.rs:66-69 | a value with no pending switch gives NoSwitchSpecified |
| Settings.PendingAtEnd | src/lib.rs:74-76 | a switch still pending when the arguments run out gives SwitchHasNoArg |
| Comments.StripComment | src/timeline/utils/internal_utils.rs:13-19 | a line without `#` is unchanged; otherwise the result is the prefix that ends just before the first `#`; the result never holds `#` |
| Comments.StripCommentIdempotent | src/timeline/utils/internal_utils.rs:13-19 | stripping twice is stripping once |
| Comments.StripCommentAtFirstHash | src/timeline/utils/internal_utils.rs:14-16 | only the first `#` matters: `before#after` strips to `before` whatever `after` holds |
| Comments.StripCommentKeepsBlanks | src/timeline/utils/internal_utils.rs:16 | blanks are not trimmed: `"  # x"` strips to `"  "`, which is not empty |
| Text.Split | src/sim/file_utils.rs:23 | `str::split` yields at least one piece and no piece holds the separator |
| Text.JoinSplit | src/sim/file_utils.rs:23 | gluing the pieces back with the separator gives the line |
| Text.SplitJoin | src/sim/file_utils.rs:23 | splitting pieces glued with the separator gives the pieces back, when no piece holds it |
| Text.ParseU32 | src/sim/file_utils.rs:70-75 | a token that parses is non-empty and is made of decimal digits after an optional leading `+` |
| Text.RenderParse | src/sim/file_utils.rs:70-75 | the decimal text of every `u32` parses back to it and holds no non-digit |
| NtwkNodes.NtwkNode.constructor | src/timeline/ntwk/node.rs:18-23 | a node stores the id, count and delay given, with an empty connection list |
| NtwkNodes.NtwkNode.New | src/timeline/ntwk/node.rs:14-32 | fails with HasZeroConnections exactly when the count is 0; otherwise it is a fresh node holding the id, count and delay, with no connections |
| NtwkNodes.NtwkNode.ConnLen | src/timeline/ntwk/node.rs:39-41 | `conn_len` is the length of the connection list |
| NtwkNodes.NtwkNode.Push | src/timeline/ntwk/node.rs:42-44 | one id is appended at the end; earlier entries are untouched and the length grows by one |
| NtwkNodes.Ntwk.constructor | src/timeline/ntwk.rs:23-25 | loading starts with an empty node list |
| NtwkFileUtils.ScanRenderedHeader | src/timeline/ntwk/file_utils.rs:71 | the header line `id,count,delay` written for a node scans back to the same three numbers |
| NtwkFileUtils.NewNodeSpec | src/timeline/ntwk/file_utils.rs:63-88 | the next state is always GetConnections; a bad header gives BadLine and a zero count gives HasZeroConnections, with no node added; otherwise exactly one node is appended, with the scanned fields and no connections |
| NtwkFileUtils.ConnListSpec | src/timeline/ntwk/file_utils.rs:43-61 | only the last node changes; an unparsable line gives BadLine, stays in GetConnections and changes nothing; otherwise the id is appended and the state is EndNode exactly when the list has reached the count |
| NtwkFileUtils.HandleEndNode | src/timeline/ntwk/file_utils.rs:33-41 | exactly `endNode` gives Okay, anything else MismatchEndNodeToken; the next state is EndNet either way |
| NtwkFileUtils.EndNetSpec | src/timeline/ntwk/file_utils.rs:23-31 | exactly `endNet` gives (Okay, StopParse) and leaves the nodes; anything else is read as the header of another node |
| NtwkFileUtils.ParseNewNode | src/timeline/ntwk/file_utils.rs:63-88 | the network afterwards holds `NewNodeSpec`'s records, with earlier nodes unchanged and any new node fresh; status and state are the function's |
| NtwkFileUtils.ParseConnList | src/timeline/ntwk/file_utils.rs:43-61 | pushes onto the last node in place: the network afterwards holds `ConnListSpec`'s records, and the node list itself is unchanged |
| NtwkFileUtils.HandleEndNet | src/timeline/ntwk/file_utils.rs:23-31 | the network afterwards holds `EndNetSpec`'s records; status and state are the function's |
| NtwkLoad.Dispatch | src/timeline/ntwk.rs:49-55 | each handler keeps the parser consistent: while the status is Okay, GetConnections implies a last node with room for another connection, so `last().unwrap()` cannot fail |
| NtwkLoad.ConnListConsistent | src/timeline/ntwk.rs:51 | a connection line keeps the parser consistent; a node leaves GetConnections holding exactly its declared count |
| NtwkLoad.RunFrom | src/timeline/ntwk.rs:36-56 | the loop's `(status, state)` and records stay consistent over any input |
| NtwkLoad.FromLines | src/timeline/ntwk.rs:19-62 | the loader succeeds exactly when `Load` does, fails with the same status, and on success returns a fresh network holding `Load`'s records |
| NtwkLoad.BlankLineSkipped | src/timeline/ntwk.rs:41-45 | a line that is blank after stripping changes neither state nor nodes |
| NtwkLoad.FailureIsFinal | src/timeline/ntwk.rs:37-39 | a failing status stops processing and is the answer |
| NtwkLoad.StopParseIgnoresRest | src/timeline/ntwk.rs:54 | once StopParse is reached, the remaining lines are ignored |
| NtwkLoad.RunFromAppend | src/timeline/ntwk.rs:36-56 | running over `a + b` is running over `a`, then over `b` |
| NtwkLoad.FailingPrefixFailsLoad | src/timeline/ntwk.rs:36-61 | the first failing status on any prefix of the input is the load's error |
| NtwkLoad.EndNetEndsLoad | src/timeline/ntwk.rs:49-56 | input that reaches `endNet` loads as if it ended there |
| NtwkLoad.LoadedNodesWellFormed | src/timeline/ntwk.rs:36-61 | every loaded node declares at least one connection; all nodes but the last are complete, and the last is too unless input ended inside its connection list |
| NtwkLoad.TruncatedInputLoads | src/timeline/ntwk.rs:58-60 | input that ends before `endNode`/`endNet` still loads (`1,1,0` then `2` gives one node) |
| Instrs.Instr.Timestamp | src/timeline/sim/instr.rs:26-32 | the time stored in the Msg, Rep or EndSim instruction |
| Instrs.Instr.IsEndSim | src/timeline/sim/instr.rs:34-40 | true exactly for the EndSim variant |
| Instrs.ConstructorsThenGetters | src/timeline/sim/instr.rs:43-94 | the constructors' arguments come back from the getters; only `EndInstr` is an end marker |
| LegacyInstrs.Instr.Timestamp | src/sim/instr.rs:22-29 | the time stored in each variant, the bare `u32` for EndSim |
| LegacyInstrs.FromCurrent | src/sim/instr.rs:16-20 | the source has no such conversion: this bridge maps the newer `Instr` shape onto the earlier enum, keeping the timestamp and the end-marker kind |
| LegacyInstrs.ToCurrent | src/sim/instr.rs:16-20 | the source has no such conversion: this bridge maps the earlier enum onto the newer `Instr` shape, keeping the timestamp and the end-marker kind |
| LegacyInstrs.RoundTrips | src/sim/instr.rs:16-20 | the two bridges are mutually inverse, so the earlier enum carries the same information as the newer one |
| LegacyInstrs.ConstructorsKeepTime | src/sim/instr.rs:22-43 | `MsgInstr::new`, `RepInstr::new` and `EndSim(t)` report the time they were given, and `RepInstr` keeps its optional id |
| InstrParse.ParseInstr | src/sim/file_utils.rs:17-67 | the line is split at every comma; NoTimestamp exactly when the first token is not a `u32`; a parsed instruction has that token as its timestamp, and the second token is exactly its kind (`msg`, `rep` or `endSim`) |
| InstrParse.Field | src/sim/file_utils.rs:25-34 | the k-th token's number is present exactly when there is a k-th token and it parses |
| InstrParse.ParseTokens | src/sim/file_utils.rs:36-66 | a missing timestamp is NoTimestamp before anything else; no second token is BadLine; the kinds are checked exactly (UnknownInstrKind otherwise); `msg` checks id, then start, then end; `rep` always succeeds with an optional id; on success the timestamp is the first token |
| InstrParse.FirstFiveTokensOnly | src/sim/file_utils.rs:25-34 | tokens after the fifth are never read |
| InstrParse.BadLineIffNoComma | src/sim/file_utils.rs:23-64 | BadLine exactly when the line has no comma and the whole line is a valid timestamp |
| InstrParse.ParseRendered | src/sim/file_utils.rs:17-67 | every instruction parses back from its own text |
| SimStore.Push | src/timeline/sim.rs:115-130 | one insertion keeps buckets non-empty and leaves the instruction last; the bucket count stays or grows by one |
| SimStore.Group | src/timeline/sim.rs:115-130 | the buckets of an input are non-empty, empty exactly for empty input, and end with the last instruction |
| SimStore.PushKeepsGrouping | src/timeline/sim.rs:115-130 | inserting one more instruction keeps the buckets a grouping of the input |
| SimStore.GroupIsGrouping | src/timeline/sim.rs:179-188 | the store's buckets are non-empty, each shares one timestamp, neighbouring buckets differ, and their concatenation is the input in order |
| SimStore.GroupingIsUnique | src/timeline/sim.rs:115-130 | any bucketing with those four properties is the one the store builds |
| SimStore.PopGrouping | src/timeline/sim.rs:115-130 | every non-empty grouping is the grouping of the input without its last instruction, with that instruction pushed |
| SimStore.PushIncreasing | src/timeline/sim.rs:115-130 | pushing an instruction no earlier than the last keeps bucket timestamps strictly increasing |
| SimStore.SortedInputGivesIncreasingBuckets | src/timeline/sim.rs:115-130 | input in time order gives buckets in strictly increasing time order |
| SimStore.Kept | src/timeline/sim.rs:80-90 | a line contributes nothing when it is blank after stripping or `parse_instr` rejects it; otherwise it contributes the parsed instruction |
| SimStore.LoadOutcomes | src/timeline/sim.rs:95-112 | EmptyContents exactly when nothing was accepted; MismatchEndSimToken exactly when the last accepted instruction is not endSim; Ok otherwise, with buckets that group the accepted instructions |
| SimStore.LineStep | src/timeline/sim.rs:80-93 | a skipped line adds nothing to the accepted instructions; a parsed line adds exactly its instruction |
| SimStore.SkippedLine | src/timeline/sim.rs:83-90 | a blank, comment-only or rejected line is skipped and loading goes on |
| SimStore.Sim.constructor | src/timeline/sim.rs:74-76 | the store starts with no buckets |
| SimStore.Sim.InsertHelper | src/timeline/sim.rs:179-188 | the instruction goes onto the bucket at the index when there is one, else onto a new bucket at the end |
| SimStore.Sim.Insert | src/timeline/sim.rs:115-130 | a changed timestamp moves the index past an existing bucket; when the cursors track the input so far, afterwards they track it with the instruction appended |
| SimStore.InsertTracks | src/timeline/sim.rs:115-130 | once a bucket exists the index points at the last one, and the previous timestamp is the last instruction's |
| SimStore.Sim.FromLines | src/timeline/sim.rs:62-113 | the load succeeds exactly when `LoadSpec` does, fails with the same code, and on success the store's buckets are `LoadSpec`'s |
| SimStore.InstrAsIter.constructor | src/timeline/sim.rs:17-22 | a bucket's iterator has the whole bucket still to come |
| SimStore.InstrAsIter.Next | src/timeline/sim.rs:45-53 | yields the instruction at the index and advances it, or None once the bucket is exhausted; what remains shrinks by the yielded item |
| SimTimeline.Ticks | src/timeline/sim.rs:199-216 | with buckets in increasing time order, the clock yields last timestamp + 1 − start time items; an item at tick k is a remaining bucket stamped start + k |
| SimTimeline.EveryBucketOnce | src/timeline/sim.rs:199-216 | every remaining bucket is yielded exactly once, in order |
| SimTimeline.BucketAtItsTime | src/timeline/sim.rs:206-212 | a bucket is yielded at the tick equal to its timestamp |
| SimTimeline.InstructionsMatchTheClock | src/timeline/sim.rs:132-164 | from time 0, tick t yields a bucket exactly when some bucket is stamped t, and every instruction in it has timestamp t |
| SimTimeline.Timeline | src/timeline.rs:69-71 | `timeline(start, sims)` pairs the k-th tick with the number `start + k`; this zip only numbers the ticks, and what the numbering means is stated by `SimTimeline.TimelineFromZero` |
| SimTimeline.TimelineFromZero | src/timeline.rs:69-71 | for input in time order, over the whole run to the last bucket, numbered from 0, each tick's number is the timestamp of every instruction yielded with it; `SimTimeline.ClockStampsAnyInput` states the same for any order over the first n calls |
| SimTimeline.RunStamps | src/timeline/sim.rs:206-213 | in any bucket order, the k-th call from a clock state yields only instructions stamped with that state's time + k, because a bucket is taken only when its timestamp equals the clock |
| SimTimeline.ClockStampsAnyInput | src/timeline/sim.rs:132-164 | for every instruction file, in time order or not, every instruction yielded by call t (numbered from 0) has timestamp t |
| SimTimeline.BehindNeverYielded | src/timeline/sim.rs:206-213 | a bucket already behind the clock is not yielded by any later call of the unbounded clock: every call is an empty tick and the time advances by one |
| SimTimeline.SimIntoTimeline.constructor | src/timeline/sim.rs:165-171 | the clock starts at the first bucket and time 0 |
| SimTimeline.SimIntoTimeline.Next | src/timeline/sim.rs:199-216 | None once every bucket is out; otherwise one item per call, the bucket when its timestamp is the current time (moving past it) or an empty tick, and time advances by one; what remains shrinks by the yielded item |
| SimTimeline.LastTickLoads | src/timeline/sim.rs:62-113 | the single line `4294967295,endSim` loads into one bucket holding that endSim |
| SimTimeline.StepAsWritten | src/timeline/sim.rs:199-216 | one call of `next` with the `u32` clock: Finished exactly when every bucket is out; Overflow exactly when a bucket remains and the time is 2^32 − 1; otherwise the same item and next state as the unbounded clock's step |
| SimTimeline.OverflowAtLastTick | src/timeline/sim.rs:213 | as written, the `u32` clock reaches that bucket's tick and then overflows on `time += 1` |
| SimTimeline.UnboundedClockYieldsLastTick | src/timeline/sim.rs:199-216 | with an unbounded clock, the same store yields its bucket on the last of 2^32 ticks |
| Packets.FromMsgInstr | src/timeline/msg/packet.rs:20-30 | the packet copies timestamp, start node, end node and id from the instruction, and its current node is its start node |
| Packets.PacketRoundTrip | src/timeline/msg/packet.rs:20-30 | the conversion loses nothing, and it makes exactly the packets still at their start node |
| AvlTrees.NewNodeGet | src/timeline/msg/avl_tree/tree_node.rs:17-28 | a new node is a leaf, and `get` returns the item it was made with |
| AvlTrees.NewTree | src/timeline/msg/avl_tree.rs:13-18 | a new tree has nothing to iterate |
| AvlTrees.TreeAsIter.constructor | src/timeline/msg/avl_tree.rs:19-30 | `iter` starts at the root with an empty stack, with the whole in-order listing to come and the stack within the tree's height |
| AvlTrees.TreeAsIter.Next | src/timeline/msg/avl_tree.rs:41-67 | each call yields the next item of the in-order listing, and None once it is exhausted, so an empty tree gives None first; the parent stack never grows beyond the tree's height, and before a pop that yields an item, when it is at its largest, it still fits the height |
| AvlTrees.SearchTreeInOrderAscending | src/timeline/msg/avl_tree.rs:42-65 | a binary search tree under a transitive order is listed in ascending order |

## Left out

- File I/O is not modelled. This covers `read_lines`, the BadFile paths, and read errors turned into empty lines. The loaders take the file's lines as a sequence of strings.
- Diagnostic printing (`eprintln!`, `println!`) is not modelled.
- Text.ParseU32: an approximation of `u32::from_str` and of the `scanf` crate's `sscanf!` placeholders. It accepts an optional `+` and then decimal digits with a value below 2^32. The `scanf` crate is foreign code whose exact tokenising is not modelled. `{},{},{}` is modelled as exactly three comma-separated fields.
- Capacity calls (`with_capacity`, `shrink_to`, `shrink_to_fit`) change no contents and are not modelled. The `height` capacity hint of `AvlTree` is kept as a field but never read.
- SimStore.Sim.Insert: the current index is a `nat`, not a `u32`; its wrap-around would need 2^32 buckets.
- SimTimeline.SimIntoTimeline.Next: the clock is unbounded. It is the corrected clock of the Findings row; the `u32` clock as written is `StepAsWritten`.
- SimTimeline.Timeline: the `RangeFrom<u32>` counter is unbounded. In the source it would overflow at the same point as the clock.
- AvlTrees.TreeAsIter.Next: the stack bound is stated for any height `h` that the state already respects, given as a ghost parameter. The constructor establishes it for the tree's height.
- NtwkNodes.NtwkNode.New: the `u32` to `usize` conversion of the count cannot fail on a 32- or 64-bit target. Its fallbacks (20, or 10 in the earlier copy) are not modelled.
- Tree nodes are immutable values: the `Rc<RefCell<…>>` sharing, the borrow guards of `TreeNodeWrapper` and the `Weak` parent pointer are not modelled. The iterator never reads the parent pointer and never mutates a node.
- There is no AVL insert, find, remove or rebalancing in the code, so none is modelled.
- The `PartialEq`, `PartialOrd` and `Display` implementations of `Packet` are `todo!()`. They are not modelled.
- `src/timeline.rs` `start` is not modelled, apart from the `timeline` helper. It is an unfinished driver: the packet it builds is dropped, the tree is never filled, and two branches are `todo!()`.
- `src/main.rs` is not modelled: it is process exit and printing.
- `src/ntwk.rs` is not part of this model. Its loader only echoes lines, and it calls a `strip_comment` that no file defines.
- The message type files (`src/msg/*`) are plain declarations with no behaviour.
- Loading a topology that ends before `endNet` (or before `endNode`) succeeds. The model follows the code here (`NtwkLoad.TruncatedInputLoads`); no error is invented for it.
- Instruction files out of time order: the clock stalls behind the first out-of-order bucket (`SimTimeline.BehindNeverYielded`). In the source it stalls until the `u32` clock overflows at 2^32 − 1 (see Findings): a debug build panics there, and a release build wraps to 0 and later yields the stalled bucket. The model's unbounded clock never ends, and the wrapped clock of a release build is not modelled. The clock's promise that every instruction yielded at tick t has timestamp t holds for any order (`SimTimeline.ClockStampsAnyInput`), and so it holds through the stall too. The lemmas that every bucket is yielded, and at its own tick (`Ticks`, `EveryBucketOnce`, `BucketAtItsTime`, `InstructionsMatchTheClock`, `TimelineFromZero`), assume strictly increasing buckets, because out of order some buckets are never yielded. Input in time order provides that (`SimStore.SortedInputGivesIncreasingBuckets`).

## Findings

| source | as written | input that shows it | evidently intended | confidence | as-written member | corrected member |
|---|---|---|---|---|---|---|
| src/timeline/sim.rs:213 | `self.time += 1` on the `u32` clock after every tick, also after yielding a bucket at time 2^32 − 1 (the earlier copy does the same at src/sim.rs:194) | the instruction file holding the single line `4294967295,endSim` | yield that bucket on its tick, then end | not executed | SimTimeline.OverflowAtLastTick | SimTimeline.UnboundedClockYieldsLastTick |

On that input, the clock as written ticks 2^32 − 1 times with no bucket to yield. The next call would yield the bucket, but `time += 1` on 2^32 − 1 overflows first, which panics in a debug build. The corrected clock (`SimTimeline.SimIntoTimeline.Next`, over `Ticks`) yields the bucket on that tick and ends on the next call.
