# Model of omarchy-ane

The repository turns neural-engine programs into driver packages, checks them on the host and runs them. This project
models its device-independent logic in Dafny and proves what that logic promises.

- **Fusion check** (`MilGraph`, `FusionCheck`, `FusionTheorems`, `FusionExact`, `FusionDepth`). The translation
  validator that compares a fused MIL program with a chain of two. A label is a datatype standing for the hashed text;
  the meaning of an op is an arbitrary function of its text, literals and keyed operands.
- **Folded layouts** (`FoldLayout`, `FoldComplete`, `FoldRun`, `FoldSimulation`, `FoldRecord`). Matching a folded layout
  against its control, which layouts pass, and the simulation of a whole run of one by the other.
- **H14 packages** (the modules named `H14...`). The task stream and its walkers, the records inside a task, the
  port-table builder, the builder that infers its ref set, the two Python producers that feed them, and the pipeline
  from one to the other.
- **Resident session** (`SessionPorts`, `SessionSpec`, `SessionKeys`, `SessionSafety`, `SessionHistory`, `SessionDevice`,
  `Session`). The command state machine as a class, against a stateless server and a client that keeps the states
  itself, what its cache keys add, and what every run of commands leaves.
- **SHA-256** (`Sha256Block`, `Sha256`, `Sha256Constants`, `Sha256Known`, `ProgramDigest`). The streaming hash against
  FIPS 180-4, its constants from the primes, and what the program digest hashes.
- **Binding and tiling** (`Bind`, `BindStream`, `Tiling`). The linked H13 task walk, the overrun check, the role map, the
  strided tile layout and its span.
- **Arithmetic and tables** (`F16`, `Q6K`, `EditDistance`). Rounding half away from zero, the grouped Q6_K kernel with
  its thread split, and the edit-distance table.

Points where the code and its comments differ, and the model follows the code. The chunk of a BAR slot is the smallest
distance between *consecutive* offsets, which may be 0, not the smallest positive gap between sorted distinct offsets.
The refusal of a scratch merge on an ineligible register cannot be reached. A slot read more than once through source B
is listed again each time, so the channels ranked after it move up. Sources are never placed by extent: a program with
two source A slots takes the slot number as the channel, and a blend takes ranks.

Where a natural claim is false, the model gives an input that shows it and says when it holds.

- EQUAL means equal programs exactly up to the depth the rounds reach (`FusionDepth.DeeperIsUnsound`).
- A converted package passes the builder's stream checks exactly when the bytes between its tasks are zero
  (`H14Convert.GapRefused`).
- A port table derived without exceptions passes the bound check exactly when no record overruns its task
  (`H14Overrun.OverrunDecides`).
- The session answers as the stateless reference while no two LOADed pairs of files share a cache key
  (`SessionKeys.CollisionShows`).
- The converter and the port derivation give a tensor one channel exactly when it is an output or there is an output
  (`H14PortRows.ChannelsAgree`).
- In a blend a source B slot gets channel 5 plus the number of source B slots above it exactly when no slot from it
  upward is read twice (`H14Channels.BlendBySlots`, with `H14Channels.RepeatedRead`).
- Scratch is sized by the lowest scratch slot and holds another exactly when its offsets need no more tiles
  (`H14Scratch.SecondSlotOutside`).
- Untiling a tiled surface gives the data back exactly when rows that share a place agree (`Tiling.PlacesShared` says
  when two do), the dense path reads only the dense data exactly when planes hold nothing but rows
  (`Tiling.DenseReads`), and the span bounds an empty shape only when it has nothing to clear (`Tiling.SpanBounds`).
- The tiling guard lets every shape with a zero dimension through, whatever its row size. Such a shape can be tiled
  exactly when its row size, which is divided by, is not zero and the planes it clears fit the mapping
  (`Tiling.GuardSuffices`, `Tiling.GuardPassesTooMuch`).

`dafny verify dfyconfig.toml` checks the project.

## Model

| member | source | states |
|---|---|---|
| `MilGraph.ComputeLabels` | tools/mil_graph_equiv.py:117-128 | The dictionary left after the refinement rounds maps every op and argument to its label of that round. |
| `MilGraph.EqualLabelsEqualValues` | tools/mil_graph_equiv.py:117-128 | Two tensors with equal labels after r rounds have equal values in any two runs on the same lanes, under every meaning of the ops, when one of them is no deeper than r. |
| `MilGraph.RenamedLabel` | tools/mil_graph_equiv.py:117-128 | Renaming a graph leaves every label as it was, for any number of rounds. |
| `FusionCheck.Compare` | tools/mil_graph_equiv.py:131-176 | The whole comparison, its two refusals included, against the report defined on the labels of 64 rounds. |
| `FusionTheorems.VerdictMeans` | tools/mil_graph_equiv.py:153-176 | When a report comes out, EQUAL holds exactly when the op labels match as multisets, some lane is compared, and the fused lanes and the chain lanes are the same lanes with the same labels. |
| `FusionTheorems.ReportCounts` | tools/mil_graph_equiv.py:153-176 | The report's counts: ops on either side, the op labels left over on each side as multisets, and for every lane whether its labels agree. |
| `FusionTheorems.FusionSound` | tools/mil_graph_equiv.py:117-176 | EQUAL with no fused op deeper than the rounds: fused and chain write the same lanes, each with the value of running FIRST, handing its linked output to SECOND and reading that lane, for every op semantics and every lane content. |
| `FusionExact.VerdictDone` | tools/mil_graph_equiv.py:131-176 | A report comes out exactly when the link names an op of FIRST and an argument of SECOND and every compared output is a tensor. |
| `FusionExact.VerdictExact` | tools/mil_graph_equiv.py:153-176 | Within the depth bound, EQUAL holds exactly when the fused ops compute, as a multiset, the same expressions over the lanes as the ops of FIRST and SECOND, and every lane is left the same expression on both sides. |
| `FusionExact.RenamedCopyEqual` | tools/mil_graph_equiv.py:131-176 | A renamed copy of the chain is reported EQUAL, at any depth, for any number of rounds and any op order. |
| `FusionDepth.DeeperIsUnsound` | tools/mil_graph_equiv.py:53 | The depth bound is needed: for every number of rounds r a well-formed, fully labelled program of depth r + 1 with two swapped outputs is reported EQUAL although a lane differs. |
| `FoldLayout.CheckChain` | tools/qwen_fold_layout.py:145-160 | The link is the input and the output labelled o; the check passes exactly when both exist and the comparison says EQUAL. |
| `FoldLayout.CheckFold` | tools/qwen_fold_layout.py:178-199 | No problem exactly when o stays inside, every lane of the pair is there with its shape, the state counts add up and the MIL is the chain. |
| `FoldComplete.StateBlockIs` | tools/qwen_fold_layout.py:119-121 | A program is the state block exactly when its lane inputs are beta, gt, k, q and v, each once, and its one output is o; context tables and states do not count. |
| `FoldComplete.FoldRefuses` | tools/qwen_fold_layout.py:178-199 | A fold without problems reads no lane o, reads every lane of the block and every other lane of the second program, writes every output lane of the second program with the shape it last has there, and has the states of both. |
| `FoldComplete.KeepIs` | tools/qwen_fold_layout.py:109-117 | A kept program passes exactly with the control program's MIL hash, input rows up to the position of states, output rows, state pairs and group marks, each as often, in any order. |
| `FoldLayout.Build` | tools/qwen_fold_layout.py:163-222 | The problem list is empty exactly when the layout fits the control programs from first to last, and then the programs are the kept and folded pieces. |
| `FoldComplete.MadeFits` | tools/qwen_fold_layout.py:163-222 | Completeness: a layout that keeps control programs as they are and replaces some state blocks and their successors by a program with their rows and a renamed chain of their MIL has no problems. |
| `FoldComplete.FoldTaken` | tools/qwen_fold_layout.py:163-222 | A five-lane state block and its successor, whose fold is taken as a fold and has no problems. |
| `FoldLayout.MappingCovers` | tools/qwen_fold_layout.py:172-216 | The mapping pieces of a layout without problems concatenate to 0 .. n-1 in order. |
| `FoldRun.FoldAgrees` | tools/qwen_fold_layout.py:180-204 | One fold: from memories that agree off lane o, the control pair and the fused program leave the same states and the same lanes off o, and the same o when the second program writes it. |
| `FoldRun.KeptAgrees` | tools/qwen_fold_layout.py:205-215 | Two programs of equal MIL and equal labels take agreeing memories to agreeing memories when o is read only if it agrees. |
| `FoldSimulation.LayoutComputesControl` | tools/qwen_fold_layout.py:163-222 | Whole run, every layout program running itself: a layout without problems (`Fits`) ends with every state and every lane but o as the control run ends. Assumes entries that list the lanes used (`AllDescribed`), no layout op deeper than the 64 rounds (`AllShallow`), o read only right after it is written, state labels of each pair apart, and that programs passing the keep check have equal MIL and labels (`KeptAlike`). |
| `FoldRecord.MatchStates` | tools/qwen_fold_layout.py:93-104 | State inputs and outputs pair up exactly when every shape occurs equally often among both, and each input is paired with the output of its shape and rank. |
| `FoldRecord.EntryFromRecord` | tools/qwen_fold_layout.py:71-106 | Refused exactly when an input is in no lane or the states do not pair up; otherwise the rows of the record. |
| `FoldRecord.InputRow` | tools/qwen_fold_layout.py:71-87 | The row of every input: states numbered in order whatever lane they are in, else the lane of the last context pair, else of the last lane pair; a context table exactly in the five context lanes. |
| `FoldRecord.PairedByLabel` | tools/qwen_fold_layout.py:124-142 | Labelling states by shape and position gives a state input and the output it is paired with one label. |
| `FoldRecord.RecordDescribed` | tools/qwen_fold_layout.py:124-142 | A unit built from a record, under an entry equal up to order to the one the record gives, lists in that entry every lane its labelled program reads and writes, and lane o names one input and one output. |
| `FoldRecord.SameRecordLabels` | tools/qwen_fold_layout.py:109-142 | Two records of one MIL signature whose entries are equal up to order label every input and every output alike, state tensors included. |
| `FoldRecord.KeptIsControl` | tools/qwen_fold_layout.py:205-215 | The keep check suffices: a layout program with the file and the entry of a control program has its MIL and its labels. |
| `FoldRecord.RecordedLayoutComputesControl` | tools/qwen_fold_layout.py:163-222 | The whole-run simulation from the compile records on, `AllDescribed` and `KeptAlike` derived: it holds when the hash in a file name tells the files of this control and this layout apart, layout ops lie within the depth bound, o has no other reader and each pair keeps its states apart. |
| `H14Stream.SplitTasks` | libane/ane_m2.c:90-149 | The cursor loop against the recursive split. |
| `H14Stream.SplitMeans` | libane/ane_m2.c:90-149 | The split succeeds with a task list exactly when the list is the disjoint, in-order task frames with zero gaps, every uncovered frame position is filler, and the list fits the capacity. |
| `H14Laid.StreamBack` | libane/ane_m2.c:90-149 | A stream laid out from any list of tasks splits into exactly these tasks, in order, whenever there is room for them. |
| `H14Stream.TdpropBlockCount` | libane/ane_m2.c:1291-1322 | The block walk, with its zero-block and tail-word refusals. |
| `H14Stream.BlockCountMeans` | libane/ane_m2.c:1291-1322 | The count is n exactly when n blocks follow each other from offset 16, or 48 by bit 2 of the first word, to the end of the stream, and, by bit 0, word 6 of the last one is zero. |
| `H14Stream.BlockCountIsTaskCount` | libane/ane_m2.c:1291-1322 | On a split stream with a zero frame the block count is defined exactly when the tasks tile the stream from offset 16, and then it is the number of tasks. |
| `H14Stream.SplitSizes` | tools/hwx_h14_staged_to_anec.py:125-145 | The Python cursor loop against its recursive form. |
| `H14Stream.SplittersAgree` | tools/hwx_h14_staged_to_anec.py:125-145 | With room for all tasks the C splitter returns the Python list exactly when the gap bytes after every task are zero, and refuses the gap otherwise; and the Python list is the C list whenever no task is shorter than the 10 words Python asks for. |
| `H14Records.CheckBoundSlots` | libane/ane_m2.c:1461-1522 | Passes exactly when every record of every task fits its task and every BAR reference names a bound slot at an offset below the size of the tagged buffer. |
| `H14Laid.DenseHeader` | libane/ane_m2.c:1461-1522 | The fields of a dense record header, whatever the others hold: register, payload count, slot, BAR bit and bit 28. |
| `H14Laid.MaskedHeader` | libane/ane_m2.c:1461-1522 | A masked record has one payload word and one more for each bit of its mask, and is no BAR reference. |
| `H14Laid.RecordsReadBack` | libane/ane_m2.c:1461-1522 | Each task of a laid-out stream is walked into exactly the records laid out in it, with or without the extra header word. |
| `H14Sort.InsertionSort` | libane/ane_m2.c:1670-1679 | In place: the prefix ends sorted by key and a permutation of what it was, the rest untouched. |
| `H14Ports.CheckPorts` | libane/ane_m2.c:1582-1616 | Accepts exactly the tables whose ports are each valid, share no id and no slot, and have the header's inputs, an output and at most one scratch. |
| `H14Ports.BuildIoTable` | libane/ane_m2.c:1622-1638 | Inputs, then outputs, then scratch, each in table order. |
| `H14Ports.BuildRefs` | libane/ane_m2.c:1640-1683 | The kernel pair and one pair per port, strictly ascending by slot. |
| `H14Build.BuildPorts` | libane/ane_m2.c:1530-1747 | Succeeds exactly on the packages and tables that meet every header, port, stream, bound and block condition, with the model those determine. |
| `H14Build.BuiltTable` | libane/ane_m2.c:1582-1638 | The io table of an accepted package: one record per port, inputs before outputs before scratch, distinct ids, whole tiles, as many inputs as word 0x20 says, an output, at most one scratch. |
| `H14Build.BuiltParts` | libane/ane_m2.c:1530-1747 | Where the parts of an accepted package lie: the header fields by offset, the stream after the header, the constants at the end on a 64-byte boundary, the block count equal to word 12. |
| `H14Build.BuiltRefs` | libane/ane_m2.c:1640-1683 | The ref set binds slot 1 to the kernel constants, the slot of every port to its id, and nothing else. |
| `H14Build.CountsAgree` | libane/ane_m2.c:1714-1723 | For an accepted package the emitted block count, the tasks found and the header taskCount are one number and the tasks tile the stream. |
| `H14Build.Containment` | libane/ane_m2.c:1461-1522 | Every BAR reference of an accepted package names a slot bound once in a strictly ascending ref set, and its offset, the first payload word with the second as its high half when there is one, is below the size of the one buffer that tag denotes. |
| `H14Convert.MatchedMeans` | tools/hwx_h14_staged_to_anec.py:178-186 | Matching by size takes one buffer of the exact size per tensor, without reuse, and fails exactly when the sizes cannot be served. |
| `H14Convert.Convert` | tools/hwx_h14_staged_to_anec.py:148-242 | The conversion, refusals included, against the package it defines. |
| `H14Emit.PlanMeans` | tools/hwx_h14_staged_to_anec.py:148-242 | Every input and output tensor is planned: the first output on channel 4, inputs from 5 in order, the other outputs after them. |
| `H14Emit.TensorEmitted` | tools/hwx_h14_staged_to_anec.py:148-242 | In an emitted package every input and output tensor has, at its channel, the fewest tiles that hold it and its shape, plane and row stride at the documented offsets. |
| `H14Emit.EmittedExactly` | tools/hwx_h14_staged_to_anec.py:148-242 | The converter refuses exactly when the stream has no zero frame, does not split or has another task count, a buffer is unbacked, a channel is above 31 or some tensor has no buffer of its size. |
| `H14Convert.PackedReadBack` | tools/hwx_h14_staged_to_anec.py:226-242 | The builder reads back from an emitted package exactly the header, stream, constants, tile counts and layout words it was made of. |
| `H14Convert.ConvertMeetsBuilder` | tools/hwx_h14_staged_to_anec.py:148-242 | A converted package passes the builder's header, alignment, zero-frame, task-count and first-task checks exactly when the gap bytes after its tasks are zero (`GapsZero`); every planned channel reads back with the tiles and the layout of its tensor, every other with none. |
| `H14Convert.GapRefused` | tools/hwx_h14_staged_to_anec.py:125-145 | A package whose one gap holds a nonzero byte is emitted by the converter and refused by the builder. |
| `H14PortTable.DeriveEntries` | tools/hwx_ports.py:187-218 | The port rows of the io slots and the scratch slot, with the refusals. |
| `H14PortRows.RowExactly` | tools/hwx_ports.py:187-206 | A slot has a row exactly when its address has a section and the name of an fp16 tensor whose binding and symbol agree, on a channel of the package; the row it then has. |
| `H14PortRows.RowsExactly` | tools/hwx_ports.py:187-218 | The derivation gets through exactly when every io slot has a row, there are as many as tensors and scratch has a section; the rows in slot order, scratch last and in whole tiles. |
| `H14PortRows.ChannelsAgree` | tools/hwx_ports.py:168-172 | The tool numbers a tensor as the converter does exactly when the tensor is an output or there is one. |
| `H14PortRows.PortHolds` | tools/hwx_ports.py:187-206 | End to end: with an output, the row derived for a tensor on the converter's package has the converter's channel and exactly the tiles the tensor needs. |
| `H14PortTable.ScanUses` | tools/hwx_ports.py:86-122 | The task walk and the record walk of the tool, short reads raising: the largest offset per slot. |
| `H14PortTable.WalkMeetsSplit` | tools/hwx_ports.py:92-122 | Wherever the C splitter succeeds the tool walks the same tasks, unless the stream ends one to three bytes into a frame, where it always raises. |
| `H14PortTable.BoundByUses` | libane/ane_m2.c:1461-1522 | The bound check of the builder passes exactly when the largest offset of every slot is inside the buffer the slot is bound to. |
| `H14PortTable.DerivedIsBound` | tools/hwx_ports.py:233-251 | On a stream the C splitter takes, producer and checker each walking it themselves, a table derived without exceptions passes the bound check exactly when no record overruns its task. |
| `H14Overrun.OverrunDecides` | tools/hwx_ports.py:100-120 | The condition is needed: for every record header that is no BAR reference there is a package that converts, on which the derivation of a table with an output reports no exception, with zero gaps and tiled tasks; the builder accepts it exactly when the record claims the one payload word left to it. |
| `H14Overrun.OverrunRefused` | libane/ane_m2.c:1461-1522 | One of them: a record that claims 64 payload words is passed by converter and port derivation and refused by the builder. |
| `H14Pipeline.TableAccepted` | libane/ane_m2.c:1582-1616 | A derived table meets the port checks exactly when slots are below 0x3d, each names its own tensor and there is an output. |
| `H14Pipeline.PipelineBuilds` | libane/ane_m2.c:1530-1747 | End to end: when the converter emits a package and the port derivation reports no size, binding, offset, unreferenced-port or input-count exception on it, the builder accepts the two exactly when gaps are zero, records fit, tasks tile the stream, BAR slots are below 0x3d, no two slots name one tensor and there is an output. |
| `H14Scan.ScanTasks` | libane/ane_m2.c:702-899 | Pass 1 over all tasks succeeds exactly when the records fit and scan, with the scan of all records in order. |
| `H14Scan.TrackMeans` | libane/ane_m2.c:739-775 | The tracked maximum is the largest offset and the tracked chunk the smallest distance between consecutive offsets. |
| `H14Scan.ScanMeans` | libane/ane_m2.c:702-899 | Slot by slot, pass 1 holds the tracked offsets of the destination and source references, whether each class occurs, and exactly the input slots of source A and of source B. |
| `H14Tags.PickSmallestFit` | libane/ane_m2.c:191-217 | The loop against the recursive pick. |
| `H14Tags.SmallestFitMeans` | libane/ane_m2.c:191-217 | The picked channel fits and no fitting channel is smaller, nor equal with a lower id; none is picked only when none fits. |
| `H14Tags.MaxInMeans` | libane/ane_m2.c:670-689 | The largest input size a source may reach is the largest of the input sizes, each reduced to 32 bits. |
| `H14Tags.BlendMeans` | libane/ane_m2.c:950-966 | The blend pipeline is recognised exactly when some source B input slot lies below some source A input slot. |
| `H14Tags.RankOrdered` | libane/ane_m2.c:966-979 | Source B slots rank first, from the highest down; source A slots follow, ascending. |
| `H14Tags.ExtentsCover` | libane/ane_m2.c:245-362 | Under the extents rule a destination goes to the smallest output holding its last write and a chunk, else to the smallest holding its offset, else to scratch, and with a single write to the smallest output; a source to the smallest input holding its reach, refused only when none does. |
| `H14Channels.TagIsRole` | libane/ane_m2.c:245-362 | Every tag that is given is the role of its register, from the records alone: kernel, output or scratch by the extent written, the rank in a blend, the slot number in a matmul, 5 or 6 in an elementwise program. |
| `H14Channels.ChannelModel` | libane/ane_m2.c:612-1135 | In the built model of any accepted package, elementwise, matmul or blend, a slot is bound to a channel exactly when all tasks naming it first name it through a register of that role, or two differ and the channel is scratch. |
| `H14Channels.MatmulModel` | libane/ane_m2.c:336-338 | In a matmul a slot above 1 is bound to the channel of its own number exactly when all tasks naming it first read it as a source (or as the kernel at 2, or write a fitting output at 4); that channel exists in the package. |
| `H14Channels.BlendModel` | libane/ane_m2.c:910-990 | In a blend a slot that is only read is bound to exactly one channel: 4 plus the source B reads at this slot and above; for a source A slot 5 plus all source B reads plus the source A slots below; scratch when it was written first. |
| `H14Channels.BlendBySlots` | libane/ane_m2.c:966-979 | Counting slots in place of reads gives the channel exactly when no source B slot from this one upward is read twice. |
| `H14Channels.RepeatedRead` | libane/ane_m2.c:966-979 | A blend that reads slot 5 twice and slot 4 once through source B and slot 6 through source A: they get channels 6, 7 and 8. |
| `H14Tags.TaggedIsEligible` | libane/ane_m2.c:566-578 | Every register that receives a tag may be merged to scratch. |
| `H14Derive.BlendOfRecords` | libane/ane_m2.c:950-966 | From the records on: a program is a blend exactly when some slot first read through source B lies below one first read through source A, neither written before. |
| `H14Derive.RefsOfTask` | libane/ane_m2.c:418-550 | One task: succeeds exactly when its records fit and every BAR reference has a tag; distinct slots, first tag kept. |
| `H14Derive.TagAllMeans` | libane/ane_m2.c:519-547 | A slot's ref is the tag of the first record of the task that names it. |
| `H14Derive.MergeRefMeans` | libane/ane_m2.c:1012-1072 | Merging one ref changes one slot and refuses only a conflict without scratch: the ineligible-register refusal is unreachable. |
| `H14Derive.SlotTagMeans` | libane/ane_m2.c:996-1072 | A slot no task names is unused; tasks that agree give it their first-record tag; tasks that disagree give it the scratch id, or a conflict when scratch is disabled. |
| `H14Derive.DeriveRefs` | libane/ane_m2.c:612-1135 | Succeeds exactly when records fit and scan, every reference has a tag, no slot conflicts, every tag is known and some slot is named; the refs are then strictly ascending and hold exactly the slot tags. |
| `H14Derive.DerivedMeans` | libane/ane_m2.c:612-1135 | Derived refs are a function: exactly the named slots, each once, with a known tag that its tasks agree on, or scratch where they disagree. |
| `H14DerivedBuild.ScratchSize` | libane/ane_m2.c:1143-1195 | The largest first payload word at the slot plus the output size, rounded up to a tile. |
| `H14DerivedBuild.BuildDerived` | libane/ane_m2.c:1772-2017 | Succeeds exactly on the packages that meet its header, channel, stream, derivation and block conditions, with the model those determine. |
| `H14DerivedBuild.ChannelsAre` | libane/ane_m2.c:1772-2017 | The channel check: every tile count from word 0x38 on, for the output and the inputs, is 1 to 0x100000. |
| `H14DerivedBuild.DerivedTable` | libane/ane_m2.c:1772-2017 | The io table of a derived build: one to three inputs on channels 5 to 7, the output on 4, each 0x4000 bytes per tile, scratch exactly when some slot is bound to it; at most 128 tasks. |
| `H14DerivedBuild.DerivedCountsAgree` | libane/ane_m2.c:1874-1890 | For the derived builder too, block count, tasks and taskCount are one number and the tasks tile the stream. |
| `H14DerivedBuild.DerivedTagsBound` | libane/ane_m2.c:1099-1127 | Every tag of a built model denotes the kernel section or an io record of its table. |
| `H14DerivedBuild.ElementwiseModel` | libane/ane_m2.c:370-398 | In the built model of an elementwise program a slot is bound to 4, 5, 6 or the kernel exactly when all tasks naming it first name it through destination, source A, source B or kernel registers, and to scratch exactly when two differ; sources need slots above 3, and source B a second input. |
| `H14DerivedBuild.ScratchCovers` | libane/ane_m2.c:1973-2004 | The scratch buffer holds an output and a guard tile at every offset of the lowest slot bound to it, and at those of another slot exactly when its largest offset plus an output rounds up to no more tiles. |
| `H14Scratch.SecondSlotOutside` | libane/ane_m2.c:1973-2004 | An accepted package with two scratch slots, the second written at offset 0x10000 of a scratch buffer of 0x8000 bytes. |
| `SessionPorts.PortDirIndex` | tools/ane-session.c:120-129 | The position of a port among the ports of its direction. |
| `SessionPorts.PortAt` | tools/ane-session.c:437-451 | The idx-th port of a direction, or none exactly when there are not that many. |
| `SessionPorts.NthIo` | libane/ane_m2.c:2416-2432 | The idx-th io record of a direction. |
| `SessionPorts.NumberedAlike` | libane/ane_m2.c:2416-2432 | The session's port index and the io-table lookup meet at the record of that port. |
| `SessionKeys.KeyedIsStateless` | tools/ane-session.c:247-275 | As long as no two different pairs of LOADed files share a key, finding programs by key changes no reply. |
| `SessionKeys.CollisionShows` | tools/ane-session.c:342-354 | Whenever two loadable programs share a key and the device answers differently for them, a run of three commands is answered differently from the reference. |
| `SessionSafety.WireTotal` | tools/ane-session.c:643-650 | Held tiles and wire bytes make up the total, so the wire size never underflows. |
| `SessionSafety.RunSound` | tools/ane-session.c:310-434 | After every command list, programs told apart by files or by keys: names and programs at most max-progs, no program loaded twice, a known cap never exceeded once something is loaded, every pair consistent with its program; and in the keyed session no two loaded programs share a key. |
| `SessionSafety.ReplyLength` | tools/ane-session.c:643-724 | The payload of a CALL that runs is exactly as long as all outputs together less the resident tiles. |
| `SessionSafety.OthersKeep` | tools/ane-session.c:620-756 | After any run of commands about other names this name carries what it carried, whatever programs they share, in the reference and in the keyed session. |
| `SessionSafety.CarriesLastCall` | tools/ane-session.c:735-753 | After a call and any commands about other names, each held input is zeros plus the runs of this name's own last output, in the reference and in the keyed session. |
| `SessionHistory.HeldInput` | tools/ane-session.c:665-678 | A CALL sends at the input of a resident pair what is carried for it. |
| `SessionHistory.StreamInput` | tools/ane-session.c:665-678 | At every other input it sends the next tile of the stream, in port order. |
| `SessionHistory.ReplyAt` | tools/ane-session.c:713-724 | Byte j of an output that is not resident is the byte the device computes, at its place among the outputs on the wire. |
| `SessionHistory.ZerosAfterReset` | tools/ane-session.c:587-618 | After every run in which a RESET of a name or of all is followed by commands about other names, the next CALL of the name sends zeros at every resident input. |
| `SessionHistory.ZerosAfterDeclare` | tools/ane-session.c:497-585 | After every run in which a STATE is followed by commands about other names, the next CALL of the name sends zeros at the declared input. |
| `SessionHistory.RunsAfterCall` | tools/ane-session.c:735-753 | After every run in which a CALL is followed by commands about other names, the next CALL sends at each resident input, inside the runs, the bytes the device computed for the paired output, and zeros outside. |
| `SessionHistory.BoundByLoad` | tools/ane-session.c:277-434 | After every run a name is bound exactly when some LOAD of it succeeded and no FREE of it since, to the program of that LOAD. |
| `SessionHistory.FailedByRefusal` | tools/ane-session.c:497-756 | The session has failed exactly when some command was refused, and then every STATE and CALL is refused. |
| `SessionHistory.LoadSucceeds` | tools/ane-session.c:310-434 | LOAD succeeds exactly when its name is free, the files parse and read, there is room below max-progs and 250, and the program is cached or can be built and opened within the cap. |
| `SessionHistory.DeclareSucceeds` | tools/ane-session.c:497-585 | STATE succeeds exactly when the session has not failed, the name is bound, 1 to 0x400000 runs are given and the two ports exist, have one size, are not resident and hold the runs. |
| `SessionHistory.OthersSucceed` | tools/ane-session.c:587-756 | FREE and RESET succeed exactly when the name is bound, RESET of all always; CALL exactly when the session has not failed, the name is bound, the stream holds all inputs less the resident tiles and the program runs. |
| `SessionDevice.SendInputs` | tools/ane-session.c:665-678 | Whatever the buffers held, after the send loop they hold exactly the inputs the stateless client would send. |
| `SessionDevice.ReadOutputs` | tools/ane-session.c:713-724 | The reply is the outputs that are not resident, in port order. |
| `SessionDevice.CopyRuns` | tools/ane-session.c:747-752 | The buffer ends as zeros plus the runs of the output. |
| `SessionDevice.CarryStates` | tools/ane-session.c:735-753 | Every resident pair carries the runs of its output of this call. |
| `Session.WireLess` | tools/ane-session.c:643-650 | The total less the resident tiles is the wire size of the others. |
| `Session.CheckPair` | tools/ane-session.c:531-551 | The refusals of STATE that look at the program, in order. |
| `Session.Session.constructor` | tools/ane-session.c:812-816 | A new session stands for a client without names, under any hash. |
| `Session.Session.LoadProgram` | tools/ane-session.c:310-434 | LOAD: all eight refusals in order, the hit on the first cached program of the same key and the open; opens equal cached keys. |
| `Session.Session.FreeProgram` | tools/ane-session.c:277-292 | FREE drops the name and keeps the cached program. |
| `Session.Session.DeclareState` | tools/ane-session.c:497-585 | STATE adds a zero pair or refuses, as the client does. |
| `Session.Session.ResetStates` | tools/ane-session.c:596-618 | RESET of one name or of all forgets the carried outputs. |
| `Session.Session.CallProgram` | tools/ane-session.c:620-756 | CALL replies and carries as the client that sends every input itself, and its payload has exactly the wire length subtracted up front. |
| `Session.RunSession` | tools/ane-session.c:620-756 | Resident state refines a stateless session, for every command list and every hash: replies equal those of a client that itself sends zeros plus the runs of the name's last output and finds programs by key; without colliding LOADed files they equal the reference's. Every payload has the wire length of its binding. |
| `Sha256Block.CompressBlock` | libane/ane_sha256.c:50-103 | The in-place schedule and rounds compute the compression of section 6.2.2 of FIPS 180-4. |
| `Sha256Constants.FirstPrimes` | libane/ane_sha256.c:28-42 | The list the constants are taken from is the first 64 primes. |
| `Sha256Constants.RoundConstants` | libane/ane_sha256.c:28-42 | Each of the 64 round constants is the first 32 bits of the fraction of the cube root of its prime. |
| `Sha256Constants.InitialValue` | libane/ane_sha256.c:284-298 | The initial hash words are the first 32 bits of the fractions of the square roots of the first eight primes. |
| `Sha256Known.HashOfAbc` | libane/ane_sha256.c:50-103 | The hash of abc is the one FIPS 180-4 publishes, from padding to output bytes. |
| `Sha256.PadLeast` | libane/ane_sha256.c:343-368 | The padding has the least number of zero bytes that leaves eight for the length, section 5.1.1 of FIPS 180-4. |
| `Sha256.PaddedIs` | libane/ane_sha256.c:343-368 | The padded message: the message, 0x80, zeros, and the bit length as a big-endian 64-bit word at the end of a block. |
| `Sha256.Context.Update` | libane/ane_sha256.c:316-341 | The context holds the message so far extended by the data: whole blocks compressed, the rest buffered. |
| `Sha256.Context.Final` | libane/ane_sha256.c:343-368 | The 32 output bytes are the hash of the padded message, for fewer than 2^61 bytes. |
| `Sha256.HashOnce` | libane/ane_sha256.c:370-377 | Init, one update and final give the hash of the data. |
| `Sha256.HashParts` | libane/ane_sha256.c:316-368 | However a message below 2^61 bytes is cut into updates, the result is its hash. |
| `Sha256.OutputInjective` | libane/ane_sha256.c:362-367 | The big-endian output bytes determine the eight hash words. |
| `ProgramDigest.Compute` | libane/ane_m2.c:2161-2185 | Refused exactly when a section is empty; otherwise the hash of the sections' encoding. |
| `ProgramDigest.SectionHeader` | libane/ane_m2.c:2161-2185 | What precedes each section in the hashed bytes: its id, 1 to 5 and then 7, and its size, each as a 64-bit little-endian word. |
| `ProgramDigest.EncodedInjective` | libane/ane_m2.c:2161-2185 | The hashed bytes determine all six sections. |
| `F16.RoundHalfAway` | tools/ane_f16_add.h:43-93 | NaN and infinities as the source maps them; a finite value gets its sign and the code whose rounding interval holds its magnitude. |
| `F16.RoundsNearest` | tools/ane_f16_add.h:43-93 | No finite fp16 value is nearer, and an equally near one is smaller in magnitude: nearest, ties away from zero. |
| `F16.RoundsToInfinity` | tools/ane_f16_add.h:81-89 | Infinity exactly from 65520 upward in magnitude. |
| `F16.RoundingMonotone` | tools/ane_f16_add.h:43-93 | Rounding keeps the signed order of doubles, infinities included. |
| `F16.RoundTrip` | tools/ane_f16_add.h:21-36 | Rounding the value of a finite fp16 code gives the code back. |
| `F16.SumExact` | tools/ane_f16_add.h:95-99 | Two finite fp16 values add up to whole quanta below 2^53, so the double sum is exact. |
| `F16.AddHalfAway` | tools/ane_f16_add.h:95-99 | The sum of two finite operands is the correctly rounded exact sum with its sign, a zero sum negative exactly when both operands are; NaN, and infinities with opposite or equal signs, as IEEE addition gives them. |
| `F16.AddZero` | tools/ane_f16_add.h:95-99 | Two finite codes add up to -0 exactly when both are -0, and to +0 exactly when they are opposite or both zeros and not both -0. |
| `F16.AddMonotone` | tools/ane_f16_add.h:95-99 | Of two addends the larger gives no smaller a sum, for all operands, infinities included, whose sums are not NaN. |
| `Tiling.Tile` | libane/ane.c:862-892 | For every shape with rows wide enough and every empty shape with a nonzero row size, on a surface that holds the span and the planes of an empty shape: the last row written to each place is there, bytes under no row are cleared inside the planes (copied on the dense path), and no byte outside `TileTouches` changes. |
| `Tiling.ElementPlaced` | libane/ane.c:862-892 | Each element of the data lies, both bytes, at its place in the tiled surface when planes hold the rows or there is one plane. |
| `Tiling.StridedAddress` | libane/ane.c:866-874 | On a surface of whole, even rows that place is plane times plane size plus row times row size plus two times column. |
| `Tiling.Untile` | libane/ane.c:894-924 | For the same shapes, on a surface at least as long as the span: every row of the data is the row at its place, and nothing past the dense data changes. |
| `Tiling.RoundTrip` | libane/ane.c:862-924 | Untiling a tiled surface gives the data back exactly when rows that share a place carry the same data. |
| `Tiling.PlacesShared` | libane/ane.c:866-874 | Two rows share a place exactly when a surface plane has fewer rows than the data and another plane follows. |
| `Tiling.TileAndBack` | libane/ane.c:862-924 | The two methods composed: the data comes back exactly when rows that share a place agree, so always when none do. |
| `Tiling.SpanExact` | libane/ane_bind.h:272-287 | For nonzero shapes with rows wide enough the span is the least bound on the bytes `Tile` may change, and bounds the bytes `Untile` reads. |
| `Tiling.SpanBounds` | libane/ane_bind.h:272-287 | The span bounds what tiling touches exactly for shapes without a zero and for empty shapes, of any nonzero row size, with nothing to clear: an empty shape has span 0, yet its planes are cleared. |
| `Tiling.GuardPasses` | libane/ane.c:937-955 | The guard lets a shape through exactly when it is empty or has rows wide enough and a span within the mapping; with row size 0 exactly when it is empty. |
| `Tiling.GuardSuffices` | libane/ane.c:937-955 | A shape let through can be untiled inside the mapping exactly when its row size is nonzero, and tiled exactly when, besides, the planes of an empty one fit. |
| `Tiling.GuardPassesTooMuch` | libane/ane.c:937-955 | For every mapping size an empty shape with row size 0, and an empty shape with planes longer than the mapping, are let through. |
| `Tiling.DenseReads` | libane/ane.c:876-879 | The dense path stays inside the dense data exactly when a plane is no longer than its rows. |
| `Bind.TaskDma` | libane/ane_bind.h:76-122 | Succeeds exactly when the record walk stays inside the task; each surface gets the last configuration written and the largest size written. |
| `Bind.MaxSizeMeans` | libane/ane_bind.h:103-117 | The size is the largest value written to the size registers. |
| `Bind.LastConfigMeans` | libane/ane_bind.h:103-117 | The configuration is the last value written to its register. |
| `Bind.Walk` | libane/ane_bind.h:127-183 | Succeeds exactly when the linked stream walks, and marks exactly the channels its live transfers name, with the largest extent of each. |
| `BindStream.StreamBack` | libane/ane_bind.h:127-183 | A linked stream laid out from any tasks, with or without extra header words and with bursts of any length, is walked into exactly their selectors and register writes. |
| `BindStream.SelectorBits` | libane/ane_bind.h:54-66 | Source 1 is selected by bits 4:0, source 2 by bits 10:6 and the destination by bits 16:12, whatever the other bits are. |
| `BindStream.KnownSelectors` | libane/ane_bind.h:40-45 | The two selector words of the known program families: destination on channel 4, sources on 5 and 6 in either order. |
| `BindStream.LiveSurface` | libane/ane_bind.h:48-66 | Which registers configure and size each surface, and that it is moved exactly when its last configuration is not 0x8880 and its selector names a channel from 4 on. |
| `Bind.SecondSourceUnmeasured` | libane/ane_bind.h:60-64 | Source 2 has no size registers, so its extent is always 0. |
| `Bind.FindOverrun` | libane/ane_bind.h:296-324 | Reports exactly when the stream walks and a live transfer moves more bytes than its channel holds: the lowest such channel and the largest extent over all tasks. |
| `Bind.Init` | libane/ane_bind.h:187-265 | A map is derived exactly when both counts fit, the stream walks, it names no more destinations and sources than counted and enough unnamed allocated channels are left; it is then the map the stream determines, followed by the positional entries, and otherwise the positional map. |
| `Bind.DerivedMap` | libane/ane_bind.h:223-257 | In that map every role has an allocated surface of its own, named surfaces come first and ascending in the list of their direction, and an unnamed one is used only after all lower ones, destinations before sources. |
| `Bind.PositionalExactly` | libane/ane_bind.h:185-198 | When the stream names every counted surface, the derived map is the positional fallback exactly when destinations are the channels from 4 on and sources the next ones. |
| `Q6K.DequantBlock` | tools/q6k_head.c:72-99 | Every weight of the block is scale times sub-scale times code less 32, at its position. |
| `Q6K.PackedWeight` | tools/q6k_head.c:72-99 | Round trip: packing any 256 codes, 16 scales and a block scale into 210 bytes and reading weight p back gives scale times sub-scale of its sixteen times code less 32. |
| `Q6K.RowDotScalar` | tools/q6k_head.c:158-168 | Dequantise-then-dot is the dot product of the row. |
| `Q6K.RowDotGrouped` | tools/q6k_head.c:102-155 | The grouped form, four lanes and one scaling per sixteen codes, is the same dot product. |
| `Q6K.OwnedOnce` | tools/q6k_head.c:183-196 | Whatever the row and thread counts, every row belongs to exactly one job. |
| `Q6K.MatVec` | tools/q6k_head.c:176-201 | Under every interleaving of the jobs, row by row, that runs them all to their end, every row of the result is its dot product. |
| `EditDistance.FillTable` | tools/parakeet_encoder_islands.py:538-544 | The table, filled in place, ends in the edit distance. |
| `EditDistance.WordErrorRate` | tools/parakeet_encoder_islands.py:533-545 | The final cell over the reference length, with the two empty-reference cases. |
| `EditDistance.Optimal` | tools/parakeet_encoder_islands.py:541-544 | The final cell is the minimum number of insertions, deletions and substitutions over all edit scripts. |
| `EditDistance.RateZero` | tools/parakeet_encoder_islands.py:533-545 | For a nonempty reference the rate is zero exactly when the sequences are equal. |

## Left out

- MIL text, JSON, HWX and port-file parsing: the parsed structures are the input of the model.
- SHA-1 and FNV-1a themselves. A fusion label stands for the text it is computed from. The session takes any hash, and
  the layout theorem asks only that equal MIL hashes among the files involved mean equal files.
- `A_`/`B_` name prefixes of a chain: the two sides are a tagged union, so a name that already starts with a prefix
  cannot clash.
- Which refusal is reported: the H14 builders are modelled exactly in whether they refuse, not in the message order.
- Byte contents of the generic, operation and procedure sections: emitted from the io table and ref set by offset.
- Environment overrides (ANE_M2_OPREFS, ANE_M2_SCRATCH, ANE_M2_GUARD): taken as unset.
- Exceptions of the port-table tool about resource slots 0 to 2, the constant size, overlapping spans, unbarred base
  words, unknown registers and the direction of a port's transfers: they only make it refuse more.
- FoldLayout.SameEntry: rows are compared as multisets; the tool compares them sorted by port, which is the same when
  port names are unique, as MIL argument names are.
- H14Stream.SplitMeans: a filler frame is recognised by its zero word count, as in the code; its other bytes are free.
- Device and OS work: ioctls, mmap, locks, files, clocks, allocation failure. A device run is a function from all inputs
  to all outputs; the scratch buffer carries nothing from run to run.
- After a failed session the payload of a refused CALL stays on the stream; commands of the model carry their own bytes.
- The NEON block of SHA-256: only the portable one is modelled.
- F16.RoundHalfAway: doubles are exact reals with a sign, and frexp is not told apart below one quantum, where the code
  does not use it.
- Q6K: `half_to_float` is an arbitrary function and sums are exact; the fp16 variant of the kernel has the same shape.
- 64-bit wrap-around of sizes and offsets in tiling, binding and the session.
- `ane_exec_loop`, the encoder decode loop and the kernel driver.
