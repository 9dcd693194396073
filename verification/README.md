# Neuropilot HAL: descriptors and command buffers

This project models and proves three parts of the APU user-space code.

**Descriptor generators of the eDMA engine** (`edma/`). A generator turns a request (rotate an image, pad a
tensor, split or merge channels) into hardware descriptors. The model gives one descriptor a meaning: a read side and
a write side, each a three-level address generator over 32-bit wrapping memory or over the separate 16 KiB
internal buffer, moving a byte stream one byte at a time and in order (`Machine`). A request is correct when running
what its generator writes, whatever the memory holds, leaves the requested result and changes nothing else. The
generators themselves are methods that write words, descriptor records and binding lists in place. That a side with a
zero size moves nothing is a convention of the model: padding replaces zero sizes by a one-byte move
(`edma/3.0/edma_core.cpp:1941-1950`), a split passes the sizes of its planes on, and what is said below about empty planes rests on it.

**The APUSYS 1.0 command builder** (`midware/1.0`). A command is a mutable graph of sub-commands, serialised into one
buffer. `CmdHistory` describes every history of addSubCmd, packSubCmd, setTuneParam and setCtxId calls; the class
`ApusysCmd.Command` performs them on sub-command objects and a byte buffer, and its `Valid()` ties it to the history that
led to it. What is proved about histories (layout, round trip, scheduling) therefore holds of every command reached by calls that
did not throw.

**The APUSYS 2.0 dependency matrix** (`midware/2.0`). An adjacency matrix and a pack-id vector, updated row by row
and column by column, against the graph on packs they stand for.

The files build on each other in this order: `Words`, `Machine`; `RotationSpec`, `Rotation`, `Descriptor`,
`RotationGen`, `RotationSlot`, `TileOrder` (tiled rotation); `PadSpec`, `PadEdge`, `PadConstant`, `DescRecord`, `PadFill`,
`PadRelocate` (padding); `MvpuRotation`, `MvpuRecord`, `MvpuFill`, `LaneCopies`, `SplitMerge`, `SplitFill`,
`SplitOrder`, `MergeOrder`, `ReplaceOffsets`, `TaskFill` (MVPU requests); `CmdGraph`, `CmdHistory`, `CmdScheduler`, `CmdLayout`, `CmdRoundTrip`, `CmdBuffer`,
`SubCmd`, `CmdTune`, `CmdWriter`, `CmdLists`, `CmdLinks`, `CmdBuild`, `CmdFence`, `CmdContext`, `ApusysCmd` (command 1.0); `PackGraph`, `PackCycles`,
`DependencyMatrix` (command 2.0).

## What turned out false

Each of these is proved as an exact condition, or with a concrete input.

- Edge padding cannot be relocated by its binding lists unless both buffers move by the same base: descriptors 2 to 5 read the
  output buffer but are listed as inputs (`PadRelocate.EdgeRelocatesIff`).
- Constant padding takes any element size, but fills with a four-byte word. A request pads its border with the constant, for every
  constant and memory, exactly when elements have one or two bytes or every border pixel starts at a multiple of four bytes from the
  first (`PadFill.ConstantExact`); elements whose size is a multiple of four always do, three-byte ones need not (`PadFill.ThreeBytes`).
- The slot announced for a rotation of four-byte pixels is too small exactly when the image has more tile columns than
  tile rows (`RotationSlot.SlotHolds`, `RotationSlot.WideImage`).
- fillRPOffset looks at the format of the first info of its list for every rotation; the recorded offsets are right
  exactly when that does not matter and no colour conversion is from RGB to RGBA (`ReplaceOffsets.RecordedExactly`,
  `ReplaceOffsets.MixedTurns`).
- Outside ARGB_8 a rotation request of the standard interface is rotated as a square of its height: it rotates its own image exactly
  when that is one (`RotationSlot.TakenIff`).
- The slots of an MVPU list are filled to the last byte exactly when no rotation asks for an unknown angle; otherwise a reader meets a
  gap (`TaskFill.TaskFramed`).
- The pixel stride of a merge is kept in an unsigned char. A merge works, for every memory, exactly when a merged pixel has fewer than
  256 bytes or a line has one pixel (`MergeOrder.MergeExact`, `MergeOrder.WideMerge`).
- An output mask of four ones, which edma_info.h describes as "all enable", also turns on the lanes of a two- or three-channel split that
  have no channel. Inside the buffer these write into the pixel lane of the next line, which the channels are read from, and nothing
  in the source says in which order the lanes of a descriptor run. In a given order the channels are delivered, for every memory,
  exactly when no such lane comes before a channel it meets (`SplitOrder.OrderExact`, `SplitOrder.MeetsIff`); from lane 0 up it
  never does (`SplitOrder.UpInTime`), and every order delivers exactly when there are four channels or one line
  (`SplitOrder.AllOnes`, `SplitOrder.EveryOrder` for any mask). Nothing else is written exactly when besides the planes those lanes
  name are empty (`SplitOrder.SplitExact`, `SplitOrder.EveryExact`).
- A sub-command may name itself as its own predecessor: addSubCmd checks against the list that already holds it. Then the graph
  has a cycle, that sub-command never runs, and the buffer has an unwritten gap. Everything else about histories holds exactly
  when no call does that (`CmdHistory.HistoryAcyclic`, `CmdScheduler.HistoryRunsAll`, `CmdRoundTrip.HistoryRoundTrip`).
- Pack ids are stored in one byte, so the round trip also needs fewer than 256 packs (`CmdRoundTrip.RoundTripIff`).
- In 2.0, packing a sub-command that already has edges can drop edges and can break the graph on packs
  (`PackGraph.PackLosesIff`, `PackGraph.PackMergesIff`), and packing it with its own predecessor gives it an edge to itself
  (`PackGraph.PackedOnPredecessor`); `PackGraph.LostEdge`, `PackGraph.SplitPack` and `PackGraph.SelfEdge` are runs that do so.
- In 2.0 only cycles of two are refused, so a cycle of three can be built (`PackGraph.ThreeCycle`). A run that packs only sub-commands
  without edges ends acyclic exactly when no edge was accepted whose end already reached its start (`PackCycles.CarefulAcyclicIff`).
- getFence looks for its slot by the current length of the list. It reads what was signalled exactly when the list has as many
  sub-commands as the buffer was built for, that is when the command is not dirty (`CmdFence.FenceExact`,
  `ApusysCmd.Command.GetFence`); with more it reads something else, and then past the end of the buffer (`CmdFence.StaleFence`).
- setCtxId changes a sub-command without marking the command dirty or writing through. A constructCmd that finds the command clean then
  succeeds with a buffer that encodes the list exactly when every sub-command has the context it had at the last build
  (`ApusysCmd.Command.ConstructCmd`, `CmdContext.ContextsExact`); `CmdContext.StaleContext` is a run of three calls, `ApusysCmd.SetAway`
  followed by `ApusysCmd.BuildStale` the general case. What a reader decodes (devices, packs, counts, successors) stays right
  (`CmdContext.StaleRoundTrip`, `ApusysCmd.Command.Decodes`).
- An addSubCmd that throws has grown the list but not made the command dirty. If it was clean, the next constructCmd succeeds with the
  old buffer, one sub-command short (`ApusysCmd.Command.AddSubCmd`, `ApusysCmd.Command.ConstructCmd`).
- constructCmd computes its size in 32 bits, so a list that needs 4 GiB or more overruns its buffer (`ApusysCmd.AttemptIff`).
- setCmdProperty accepts the priority that checkCmdValid then rejects (`CmdBuild.PassesIff`). The model follows the code.

## Model

| member | source | states |
|---|---|---|
| Machine.PixelMove | edma/3.0/edma_core_hw.h:8-76 | a plain copy between two grids of equal shape moves every pixel byte to its place and changes no other cell |
| Machine.PixelSwap | edma/3.0/edma_core_hw.h:514-805 | with the byte-reversing in-swap matrix every four-byte group arrives reversed, and nothing else changes |
| Machine.PixelFill | edma/3.0/edma_core_hw.h:8-76 | fill mode repeats the 32-bit word over the stream and changes no cell outside the grid |
| Words.WrapLinear | edma/3.0/edma_core.cpp:440-455 | strides wrapped to 32 bits address the same cells as the signed strides, so a two's complement stride steps backwards |
| Words.Truncated | edma/3.0/edma_core_hw.h:8-76 | what a 16-bit size field or a 32-bit word keeps of a larger number are its low bits |
| RotationSpec.RotCompose | edma/3.0/edma_core.cpp:430-455 | rotations of pixel positions compose by adding angles |
| RotationGen.GenTileRotation | edma/3.0/edma_core.cpp:423-487 | the 80 words written for a tile hold exactly its two descriptors, with their type and user fields and the sizes of its lane; no other word changes |
| RotationGen.PairIsTile | edma/3.0/edma_core.cpp:436-487 | those words decode to the copy into the buffer and the copy out of it, for every angle and tile size that fits |
| RotationGen.AddressLists | edma/3.0/edma_core.cpp:523-537 | the two address lists hold the closed formulas of every tile |
| RotationGen.EdmaGenRotation | edma/3.0/edma_core.cpp:493-557 | what the generator leaves in the list decodes to two descriptors per tile and, run on any memory, rotates the whole image; every tile carries the caller's user fields; words behind them are untouched |
| Rotation.RotationCorrect | edma/3.0/edma_core.cpp:493-557 | running the tile pairs in order leaves the destination equal to the rotated source, ragged last tiles included, and all other memory as it was |
| Rotation.DstPartition | edma/3.0/edma_core.cpp:523-553 | every destination pixel is written by exactly one tile |
| Rotation.TileDstAddr | edma/3.0/edma_core.cpp:523-537 | the corrections for ragged tiles put each tile exactly on its rotated rectangle |
| Rotation.TilePartition | edma/3.0/edma_core.cpp:506-548 | every source pixel lies in exactly the tile its coordinates divide into |
| RotationSlot.SlotHolds | edma/3.0/edma_core.cpp:132-190 | the generator stays inside the announced slot iff there are no more tile columns than rows, and fills it iff as many, for four-byte pixels; for other formats always |
| RotationSlot.WideImage | edma/3.0/edma_core.cpp:1110-1129 | an image of 512 by 64 pixels fills eight times its slot |
| RotationSlot.TakenIff | edma/3.0/edma_core.cpp:1110-1124 | the generator is called for the image a request means iff the format is ARGB_8 and a line is whole pixels, or the image is a square |
| RotationSlot.FillRotation | edma/3.0/edma_core.cpp:1080-1139 | what the rotation branch leaves in the list rotates the image of that call, and the request's own image when it is taken: by 180 degrees for format 91, 270 for 92 and 90 otherwise, in tiles of the format and through the buffer asked for |
| TileOrder.EdmaRotateAddrList | edma/3.0/edma_core.cpp:315-351 | the list is reordered so that entry t is the destination source tile t is turned onto; too large grids and unknown angles leave it alone |
| TileOrder.FromPlace | edma/3.0/edma_core.cpp:331-348 | each entry goes to a place inside the list from which it is the one taken |
| TileOrder.FromInjective | edma/3.0/edma_core.cpp:331-348 | no entry is taken twice: the reordering is a permutation |
| TileOrder.TurnBack | edma/3.0/edma_core.cpp:315-351 | reordering for an angle and back for its opposite, on the turned grid, is the identity |
| TileOrder.AddrListAgrees | edma/3.0/edma_core.cpp:398-421 | on grids of whole tiles the reordered list is the list of the closed formulas of edma_gen_rotation |
| PadEdge.EdgeCorrect | edma/3.0/edma_core.cpp:1882-2077 | the five descriptors in order give every output pixel the clamped source pixel and touch no other byte, zero sides included |
| PadEdge.IdleKeeps | edma/3.0/edma_core.cpp:1941-1950 | the descriptor of an empty side changes no memory |
| PadSpec.ColumnTakes | edma/3.0/edma_core.cpp:1915-1995 | a column descriptor spreads one output column over the columns of its side, in place |
| PadSpec.RowTakes | edma/3.0/edma_core.cpp:1997-2077 | a row descriptor spreads one output row over the rows of its side, in place |
| PadConstant.FillExact | edma/3.0/edma_core.cpp:1826-1838 | one element of the fill stream shows the constant, for every constant, iff it has one or two bytes or starts a word |
| PadFill.ConstantExact | edma/3.0/edma_core.cpp:1811-1881 | a request pads with every constant, whatever memory holds, iff its elements have one or two bytes or every border pixel starts at a multiple of four bytes |
| PadFill.ThreeBytes | edma/3.0/edma_core.cpp:1826-1838 | one three-byte pixel padded by one to its right does not |
| PadConstant.AlwaysAligned | edma/3.0/edma_core.cpp:1826-1838 | elements of one or two bytes, or a multiple of four, always meet that condition |
| PadConstant.FillPeriod | edma/3.0/edma_core.cpp:1826-1838 | for elements of 1, 2 and 4 bytes the fill word repeats the element |
| PadConstant.ConstantCorrect | edma/3.0/edma_core.cpp:1811-1881 | when every border pixel is aligned or short, fill then copy leaves the image inside, the constant in the border, and nothing else changed |
| PadFill.PadCorrect | edma/3.0/edma_core.cpp:1778-2083 | running the records of a request pads the image, in edge mode always and in constant mode under the exact condition of ConstantExact |
| PadFill.FillDescPad | edma/3.0/edma_core.cpp:1778-2083 | writes exactly the request's records into its slot, records every address field in both lists or in neither, and fails on an unknown mode |
| PadFill.Bindings.AppendNormal | edma/include/EdmaMemoryBindings.h:30-33 | the two vectors grow together and stay index-aligned |
| PadFill.WriteSide | edma/3.0/edma_core.cpp:1941-1950 | a side without padding becomes a one-byte move inside the internal buffer |
| PadRelocate.ConstantRelocates | edma/3.0/edma_core.cpp:1849-1881 | filling with object-relative addresses and patching every recorded field gives the records of filling with the real ones |
| PadRelocate.EdgeRelocatesIff | edma/3.0/edma_core.cpp:1882-2077 | for edge padding that is so iff both bases are equal |
| MvpuRotation.HalvesFit | edma/include/edma_def.h:167-174 | both halves of the buffer fit its 16 KiB for every pixel size |
| MvpuRotation.TurnedFits | edma/3.0/edma_mvpu_desc.cpp:1828-2145 | the rotated places stay in the second half and do not collide |
| MvpuRotation.TurnCorrect | edma/3.0/edma_mvpu_desc.cpp:1734-2145 | copy in, turn inside the buffer, copy out: the destination holds the rotated tile and no other memory changed, also when the images overlap |
| MvpuRotation.FastAgrees | edma/3.0/edma_mvpu_desc.cpp:2026-2036 | the four-pixel descriptor of a half turn leaves the same store as the one-pixel descriptor |
| MvpuFill.FillDescRotOutBufIn | edma/3.0/edma_mvpu_desc.cpp:1734-1826 | the copy into the first half, in its record |
| MvpuFill.FillDescRotate90 | edma/3.0/edma_mvpu_desc.cpp:1828-1922 | the quarter turn inside the buffer, in its record |
| MvpuFill.FillDescRotate270 | edma/3.0/edma_mvpu_desc.cpp:1924-2018 | the opposite quarter turn, in its record |
| MvpuFill.FillDescRotate180 | edma/3.0/edma_mvpu_desc.cpp:2020-2370 | the half turn, four pixels at a time through the swapper where that is possible |
| MvpuFill.FillDescRotInBufOut | edma/3.0/edma_mvpu_desc.cpp:2372-2480 | the copy out of the second half, with the pitch of its angle; an unknown angle leaves the pitch that was there |
| MvpuFill.FillDesc | edma/edmaDesEngine.cpp:326-366 | the three records of the request in its slot; an unknown format writes nothing |
| MvpuFill.RotateCorrect | edma/3.0/edma_mvpu_desc.cpp:1734-2480 | running the records of any request that asks for a fitting turn rotates its tile |
| LaneCopies.LanesMove | edma/3.0/edma_core_hw.h:514-805 | lanes that touch different cells each deliver their pixels and change nothing else |
| LaneCopies.LanesCommute | edma/3.0/edma_core_hw.h:514-805 | the order of such lanes does not matter |
| MvpuRecord.ActiveOrder | edma/3.0/edma_mvpu_desc.cpp:2592-2646 | the enabled lanes come once each, in order |
| SplitMerge.SplitDisjoint | edma/3.0/edma_mvpu_desc.cpp:2690-2895 | the pixel lane and the channel lanes of a buffer row are disjoint, and so are the channels |
| SplitMerge.SplitCorrect | edma/3.0/edma_mvpu_desc.cpp:2482-3214 | byte group k of every pixel ends in plane k for every chosen channel; no other memory changes |
| SplitMerge.MergeDisjoint | edma/3.0/edma_mvpu_desc.cpp:3600-3808 | the lanes of a merge are disjoint |
| SplitMerge.MergeCorrect | edma/3.0/edma_mvpu_desc.cpp:3218-3916 | when the lanes carry the three routes, in whatever order, plane k ends in byte group k of every pixel; no other memory changes |
| SplitMerge.SplitThenMerge | edma/3.0/edma_mvpu_desc.cpp:2482-3916 | merging the planes of a split gives the image back |
| SplitMerge.MergeThenSplit | edma/3.0/edma_mvpu_desc.cpp:2482-3916 | splitting a merged image gives the planes back |
| SplitFill.FillDescSplitNIn | edma/3.0/edma_mvpu_desc.cpp:2482-2578 | the copy of the image into the pixel lane, in its record |
| SplitFill.FillDescSplitN | edma/3.0/edma_mvpu_desc.cpp:2580-2897 | the four lanes from pixels to channels, with the enabled ones |
| SplitFill.FillDescSplitNOut | edma/3.0/edma_mvpu_desc.cpp:2900-3215 | the four lanes from channels to planes, with the enabled ones |
| SplitFill.FillDescMergeNIn | edma/3.0/edma_mvpu_desc.cpp:3218-3511 | the lanes from planes to channels |
| SplitFill.FillDescMergeN | edma/3.0/edma_mvpu_desc.cpp:3514-3808 | the lanes from channels to pixels, their stride cut to one byte |
| SplitFill.FillDescMergeNOut | edma/3.0/edma_mvpu_desc.cpp:3811-3916 | the copy of the pixel lane to memory |
| SplitFill.FillDescSplit | edma/edmaDesEngine.cpp:369-385 | the three records of a split in its slot; both lane descriptors have exactly the lanes on whose bit of the mask is set, or without a mask those of the channels |
| SplitFill.FillDescMerge | edma/edmaDesEngine.cpp:386-402 | the three records of a merge in its slot, with as many lanes on as there are channels |
| SplitOrder.ChosenExact | edma/3.0/edma_mvpu_desc.cpp:2592-2646 | a lane is on iff its bit of the mask is set, or there is no mask and it has a channel; the enabled channels of the rows below are the lanes below n that are on |
| SplitOrder.MeetsIff | edma/3.0/edma_mvpu_desc.cpp:2690-2895 | a lane without a channel and the bytes a channel is read from share a cell iff there is a second line and the written line reaches the channel's bytes in it |
| SplitOrder.SplitAny | edma/3.0/edma_mvpu_desc.cpp:2482-3214 | with any mask and in any order of the lanes in which none comes before a channel it meets, running the records of a fitting split request delivers every enabled channel there is, and changes memory only there and where enabled lanes without a channel write |
| SplitOrder.OrderExact | edma/3.0/edma_mvpu_desc.cpp:2580-2897 | an order delivers the channels, whatever memory holds, iff no lane in it comes before a channel it meets |
| SplitOrder.EveryOrder | edma/3.0/edma_mvpu_desc.cpp:2580-2897 | every order does iff no enabled lane meets an enabled channel; otherwise the order from the last lane down fails |
| SplitOrder.UpInTime | edma/3.0/edma_core_hw.h:514-805 | the order from lane 0 up always does, and is the one the records are read in elsewhere |
| SplitOrder.SplitRun | edma/3.0/edma_mvpu_desc.cpp:2482-3214 | in such an order, and with the planes of the other enabled lanes empty, the records split the tile and change nothing else |
| SplitOrder.SplitExact | edma/3.0/edma_mvpu_desc.cpp:2482-3214 | in a given order that is so, whatever memory holds, iff both conditions hold |
| SplitOrder.EveryExact | edma/3.0/edma_mvpu_desc.cpp:2482-3214 | in every order, iff no enabled lane meets an enabled channel and the planes of the other enabled lanes are empty |
| SplitOrder.AllOnes | edma/include/edma_info.h:1000-1001 | a mask of four ones chooses all channels; every order delivers them iff there are four or only one line, and changes nothing else iff besides the planes beyond them are empty |
| MergeOrder.MergeRun | edma/3.0/edma_mvpu_desc.cpp:3218-3916 | in any order of the lanes, running the records of a merge request merges its planes when merged pixels are shorter than 256 bytes or alone on their line |
| MergeOrder.MergeExact | edma/3.0/edma_mvpu_desc.cpp:3514-3808 | in any order a merge request merges, whatever memory holds, iff that is so |
| MergeOrder.MergeUp | edma/3.0/edma_core_hw.h:514-805 | the order from lane 0 up, in which the records are read elsewhere, is one of these |
| MergeOrder.WideMerge | edma/3.0/edma_mvpu_desc.cpp:3514-3560 | four channels of 64 bytes are not merged in any order |
| MergeOrder.RoundTrip | edma/3.0/edma_mvpu_desc.cpp:2482-3916 | a split of all channels, its lanes in time, followed by a merge of the same planes in any order copies the image byte for byte |
| ReplaceOffsets.SlotExact | edma/3.0/edma_mvpu_core.cpp:172-234 | the announced size of an MVPU info is the size of the descriptors it emits iff it is no rotation by an unknown format |
| ReplaceOffsets.Announced | edma/3.0/edma_mvpu_core.cpp:172-234 | the bytes and the number of offsets announced for each kind of info, a quarter turn 192 bytes, a half turn 384, any other 128 |
| ReplaceOffsets.FillRPOffset | edma/edmaDesEngine.cpp:195-306 | the offsets one info records, at its place in the list, and no other entry changed |
| ReplaceOffsets.FillOffsets | edma/edmaDesEngine.cpp:770-796 | a list of infos records exactly queryReplaceNum offsets and ends at the size queryTransDescSize adds up; the descriptors filled by the same loop are FillTask's |
| ReplaceOffsets.RecordedExactly | edma/edmaDesEngine.cpp:216-243 | all recorded offsets are the address fields of the first and last emitted descriptors iff every rotation steps as the first info's format does and no colour conversion is from RGB to RGBA |
| ReplaceOffsets.RecordedAs | edma/edmaDesEngine.cpp:205-243 | what is recorded otherwise: a conversion from RGB to RGBA gets its two fields followed by two of a lane it has not, a rotation the fields of the first info's format or of its middle descriptor |
| ReplaceOffsets.MixedTurns | edma/edmaDesEngine.cpp:216-243 | a half turn behind a quarter turn is patched inside its middle descriptor |
| ReplaceOffsets.RotateSlot | edma/edmaDesEngine.cpp:326-366 | a rotation emits the descriptors assumed, and its outer ones hold its own addresses |
| ReplaceOffsets.SplitSlot | edma/edmaDesEngine.cpp:369-385 | so does a split, with its image address and four plane addresses |
| ReplaceOffsets.MergeSlot | edma/edmaDesEngine.cpp:386-402 | so does a merge |
| TaskFill.FillTask | edma/edmaDesEngine.cpp:770-796 | filling a list of requests leaves their records in order and the descriptor pointer at the size announced |
| TaskFill.TaskFramed | edma/edmaDesEngine.cpp:770-796 | a reader that goes from descriptor to descriptor finds each where it was put and stops at that size iff no request asks for an unknown turn |
| TaskFill.TaskRuns | edma/edmaDesEngine.cpp:770-796 | running the filled list runs the requests one after another |
| CmdGraph.AddKeeps | midware/1.0/apusysCmd.cpp:646-711 | adding a sub-command keeps lists in range and dual |
| CmdGraph.PackKeeps | midware/1.0/apusysCmd.cpp:726-824 | packing keeps lists in range and dual |
| CmdGraph.PackRanked | midware/1.0/apusysCmd.cpp:780-818 | a packed copy takes the rank of its target, although it adds edges to lower indices |
| CmdGraph.PackDual | midware/1.0/apusysCmd.cpp:780-818 | after packing every index is as often in a predecessor list as the other way round in a successor list |
| CmdHistory.StepWords | midware/1.0/apusysCmd.cpp:706-818 | every call, setTuneParam and setCtxId included, keeps the byte count at four times the list words, through both methods that update it |
| CmdHistory.StepKeeps | midware/1.0/apusysCmd.cpp:646-824 | every call keeps the whole invariant |
| CmdHistory.HistoryInvariant | midware/1.0/apusysCmd.cpp:646-824 | it holds after every history: duality, byte count, pack ids, field ranges |
| CmdHistory.HistoryAcyclic | midware/1.0/apusysCmd.cpp:684-700 | the graph of a history is acyclic iff no sub-command names itself |
| CmdHistory.SelfDependency | midware/1.0/apusysCmd.cpp:684-700 | one call suffices for a cycle |
| CmdScheduler.ScheduleCorrect | midware/1.0/apusysCmd.cpp:560-590 | counting predecessors down on an acyclic graph, in any order of picks, runs nothing twice, nothing early, and never sticks |
| CmdScheduler.HistoryRuns | midware/1.0/apusysCmd.cpp:560-590 | so it is for the graph of every history without a self dependency |
| CmdScheduler.SelfNeverRuns | midware/1.0/apusysCmd.cpp:684-700 | a sub-command that depends on itself is never run |
| CmdScheduler.HistoryRunsAll | midware/1.0/apusysCmd.cpp:560-590 | every finished schedule of a history has run every sub-command iff no call named itself |
| CmdLayout.Tiling | midware/1.0/apusysCmd.cpp:375-404 | header, offset list, fence slot, sub-command headers, successor lists and counts cover each byte of the buffer exactly once and none behind it |
| CmdLayout.SizeIsCalc | midware/1.0/apusysCmd.cpp:375-404 | _calcCmdSize computes that size from the counters |
| CmdLayout.HeaderPlaces | midware/1.0/apusysCmd.cpp:534-559 | each header lies behind the fixed part and the headers before it, 40 bytes each and 12 more for every one of device 2 |
| CmdRoundTrip.RoundTrip | midware/1.0/apusysCmd.cpp:518-590 | decoding an encoded buffer gives the graph's devices, pack ids, counts and successor lists |
| CmdRoundTrip.RoundTripIff | midware/1.0/apusysCmd.cpp:518-590 | every encoding of a graph decodes to it iff nothing depends on itself and the pack ids fit a byte |
| CmdRoundTrip.HistoryRoundTrip | midware/1.0/apusysCmd.cpp:436-596 | for the graph of a history: iff no call named itself and there are fewer than 256 packs |
| CmdRoundTrip.SelfGap | midware/1.0/apusysCmd.cpp:571-585 | a self dependency leaves words of the successor region unwritten |
| CmdTune.TunedEncodes | midware/1.0/apusysCmd.cpp:268-292 | writing new parameters through to one header turns an encoding of the old graph into one of the new |
| SubCommand.SubCmd.constructor | midware/1.0/apusysCmd.cpp:51-78 | a new sub-command has no links, no pack and default parameters |
| SubCommand.SubCmd.ConstructHeader | midware/1.0/apusysCmd.cpp:227-251 | the header at the info entry holds the sub-command's fields; no byte outside it changes |
| SubCommand.SubCmd.SetTuneParam | midware/1.0/apusysCmd.cpp:268-292 | a valid boost value is stored and written through to an existing header, whatever sub-command that described, any other refused |
| SubCommand.SubCmd.SetIOParam | midware/1.0/apusysCmd.cpp:294-307 | rewriting the boost value of a header that has it changes nothing |
| SubCommand.SubCmd.SetCtxId | midware/1.0/apusysCmd.cpp:208-217 | always succeeds and changes only the object |
| CmdLinks.LinkBack | midware/1.0/apusysCmd.cpp:693-700 | the loop appends the new index to the successors of every named predecessor until one is out of range |
| CmdLinks.AddToPreds | midware/1.0/apusysCmd.cpp:798-808 | the copy is inserted, sorted, into the predecessors of each successor, with the byte count |
| CmdLinks.AddToSuccs | midware/1.0/apusysCmd.cpp:810-818 | and into the successors of each predecessor |
| CmdLists.WriteList | midware/1.0/apusysCmd.cpp:569-585 | one successor list is written as its length and entries, skipping the sub-command itself |
| CmdLists.WriteLists | midware/1.0/apusysCmd.cpp:560-590 | the advancing addresses place every list and count where the layout has them |
| CmdWriter.PlaceHeaders | midware/1.0/apusysCmd.cpp:534-559 | every sub-command gets its offset entry and header, and its info entry points there |
| CmdBuild.Build | midware/1.0/apusysCmd.cpp:514-593 | a new buffer encodes the list and carries the properties, each flag in its bit; the fence slot keeps its bytes |
| CmdBuild.FlagBits | midware/1.0/cmdFormat.h:60-61 | in a titled header bit 0 of the flags is power save and bit 1 the fence, and every other bit is 0 |
| CmdBuild.PropertyBytes | midware/1.0/apusysCmd.cpp:405-427 | priority and limits are in bytes 17 to 21, the hard limit first |
| CmdBuild.CheckCmdValid | midware/1.0/apusysCmd.cpp:879-933 | accepts exactly the buffers whose header passes every check |
| CmdBuild.PassesIff | midware/1.0/apusysCmd.cpp:607-634 | a buffer with the fixed header passes iff its priority is below the maximum, which setCmdProperty itself allows |
| ApusysCmd.Command.constructor | midware/1.0/apusysCmd.cpp:308-340 | a new command is valid, empty and not dirty |
| ApusysCmd.Command.AddSubCmd | midware/1.0/apusysCmd.cpp:646-711 | refuses, throws, or returns the new index of a valid dirty command whose history grew by this call; the new sub-command has the caller's device, dependencies, context and buffer, no pack and no tuning, and of the others only successors change; it throws iff the device or a dependency does not exist; after a throw the list and type counts have grown and nothing else, and a clean command keeps what the early path of constructCmd relies on, its buffer one sub-command short |
| ApusysCmd.ThrowsIff | midware/1.0/apusysCmd.cpp:684-700 | addSubCmd throws iff the device type is 6 or more or a dependency is outside 0 to the new index |
| ApusysCmd.PushedNode | midware/1.0/apusysCmd.cpp:670-700 | what it leaves: the new sub-command with the caller's fields, and no other field but successor lists changed |
| ApusysCmd.PushedSuccs | midware/1.0/apusysCmd.cpp:693-700 | the new index becomes a successor of each dependency, as often as it is named, and of no other sub-command |
| ApusysCmd.Command.PackSubCmd | midware/1.0/apusysCmd.cpp:726-824 | the same for packing, with every refusal of the source: the copy has its target's device, context and tuning and the caller's buffer, both are in the target's pack, a new one if it had none, and other sub-commands change in their links only |
| ApusysCmd.CopiedNode | midware/1.0/apusysCmd.cpp:762-818 | linking the copy gives it and its target one pack and changes no field of any sub-command but pack and links |
| ApusysCmd.Command.CalcCmdSize | midware/1.0/apusysCmd.cpp:375-404 | the size over the counters: 60 bytes, 48 for each sub-command, the dependency bytes and 12 for each of device 2; 0 for an empty list |
| ApusysCmd.Command.ConstructCmd | midware/1.0/apusysCmd.cpp:436-596 | builds, fails or overruns as Attempt says; a new buffer encodes the current list, with the fence slot as allocated, and has power save in bit 0 of byte 24 and the fence in bit 1, bytes 25 to 31 being 0; the early path returns the old one, which does so iff every sub-command has the context it had at the last build; a failure leaves list and info entries alone |
| ApusysCmd.AttemptIff | midware/1.0/apusysCmd.cpp:436-596 | a command that is executing is never built, clean or not; a clean one is iff there is a buffer; a dirty one iff its layout is below 4 GiB, the old buffer is free and the allocation succeeds |
| ApusysCmd.Command.SetTuneParam | midware/1.0/apusysCmd.cpp:268-292 | a boost value up to 100 or 255 is stored and any other refused; keeps the command valid: a clean buffer stays an encoding |
| ApusysCmd.Command.SetCtxId | midware/1.0/include/apusys.h:145-154 | always succeeds and keeps the command valid: buffer and dirty flag stay, only the list has the new context |
| CmdContext.ContextsExact | midware/1.0/apusysCmd.cpp:227-251 | a buffer written with certain contexts encodes the list iff they are the list's |
| CmdContext.StaleContext | midware/1.0/apusysCmd.cpp:208-217 | addSubCmd with context 0, constructCmd, setCtxId(3): the buffer does not encode the list |
| CmdContext.StaleRoundTrip | midware/1.0/apusysCmd.cpp:518-590 | buffers stale only in their contexts decode to the current graph under the same condition as fresh ones |
| CmdContext.HeaderShows | midware/1.0/apusysCmd.cpp:227-251 | an encoded header field by field, byte by byte |
| CmdContext.AddedHeader | midware/1.0/apusysCmd.cpp:646-711 | a buffer built after an addSubCmd has its device, context, size and handle in the header its offset entry points to, no tuning and no pack |
| ApusysCmd.Command.Decodes | midware/1.0/apusysCmd.cpp:452-477 | the buffer of a clean command decodes to the current graph, whatever contexts have changed |
| ApusysCmd.Command.HeaderOf | midware/1.0/apusysCmd.cpp:227-251 | in the buffer of a clean command the header of a sub-command has the object's fields, and the context of the last build |
| ApusysCmd.SetAway | midware/1.0/apusysCmd.cpp:208-217 | setting another context than the one built, on any command, leaves its buffer and dirty flag |
| ApusysCmd.BuildStale | midware/1.0/apusysCmd.cpp:452-477 | on a clean command with other contexts than built, constructCmd succeeds with a buffer that does not encode the list |
| ApusysCmd.Command.SetCmdProperty | midware/1.0/apusysCmd.cpp:607-634 | stores properties up to priority 32, in the buffer if there is one, each limit in its bytes and power save in bit 0 of the flags with the fence bit kept; else the command becomes dirty |
| ApusysCmd.Command.SetFence | midware/1.0/apusysCmd.cpp:1009-1019 | sets the flag, in the buffer too: bit 1 of byte 24, with power save in bit 0 and bytes 25 to 31 being 0 |
| ApusysCmd.Command.GetFence | midware/1.0/apusysCmd.cpp:1021-1041 | reads the two words of the handle, the total time and the status at 44 + 4n for a list of n, and within the buffer iff that slot lies in it; it is the slot of the buffer iff the command is not dirty |
| CmdFence.FenceExact | midware/1.0/apusysCmd.cpp:1021-1041 | whatever is signalled in the slot constructCmd skipped is what getFence reads iff the list has the count the buffer was built for |
| CmdFence.StaleFence | midware/1.0/apusysCmd.cpp:1021-1041 | with a buffer for one sub-command, a list of 2 to 13 reads other bytes, one of 14 to 17 past the end, a longer one nothing |
| ApusysCmd.Command.LiveEntry | midware/1.0/apusysCmd.cpp:268-292 | setTuneParam writes to the live buffer iff the sub-command is one of those it was built for; after a failed rebuild the entries still refer to the freed one |
| ApusysCmd.Command.GetCmdId | midware/1.0/apusysCmd.cpp:847-850 | is the uid in the buffer's header, and 0 without a buffer |
| ApusysCmd.SizeFacts | midware/1.0/apusysCmd.cpp:375-404 | after every history the counters give the size of the layout |
| ApusysCmd.StepMdla | midware/1.0/apusysCmd.cpp:375-404 | every call keeps the count of MDLA sub-commands, whose headers are longer |
| PackGraph.RunSound | midware/2.0/apusysCmd.cpp:265-410 | in every reachable state the matrix is square, pack ids name members of their pack, members share rows, and predecessors of a root are predecessors of its members |
| PackGraph.EdgeAdds | midware/2.0/apusysCmd.cpp:303-364 | setDependencyEdge never removes an edge |
| PackGraph.EdgeExact | midware/2.0/apusysCmd.cpp:342-359 | on a matrix that is a graph on packs it adds exactly the edge between the two packs |
| PackGraph.EdgeNoTwoCycle | midware/2.0/apusysCmd.cpp:317-335 | and creates no edge to itself and no cycle of two |
| PackGraph.EdgeRefusedIff | midware/2.0/apusysCmd.cpp:317-335 | whatever the matrix, an edge is refused iff setting it would have both sub-commands precede each other |
| PackGraph.EdgeAcceptedIff | midware/2.0/apusysCmd.cpp:317-335 | on a graph on packs without cycles of two it is accepted iff setting it makes no such cycle and no edge to itself |
| PackGraph.PackJoins | midware/2.0/apusysCmd.cpp:375-403 | packing puts the appendix into the main sub-command's pack, a new one if it had none, and leaves every other pack as it is |
| PackGraph.PackMergesIff | midware/2.0/apusysCmd.cpp:390-403 | packing joins two packs of the abstract graph iff every predecessor of the appendix already precedes the main one |
| PackGraph.PackLosesIff | midware/2.0/apusysCmd.cpp:390-403 | packing keeps every edge iff the main sub-command already has those of the appendix |
| PackGraph.PackedOnPredecessor | midware/2.0/apusysCmd.cpp:390-403 | packing with a predecessor gives the appendix an edge to itself |
| PackGraph.LostEdge | midware/2.0/apusysCmd.cpp:390-403 | a run in which packing loses an edge |
| PackGraph.SplitPack | midware/2.0/apusysCmd.cpp:390-403 | a run in which an edge leads to one member of a pack and not to the other |
| PackGraph.SelfEdge | midware/2.0/apusysCmd.cpp:390-403 | a run in which a sub-command comes to precede itself |
| PackGraph.CarefulUniform | midware/2.0/apusysCmd.cpp:265-410 | if every appendix has no edges when packed, the matrix is always a graph on packs without self edges and cycles of two |
| PackGraph.ThreeCycle | midware/2.0/apusysCmd.cpp:317-335 | a careful run can build a cycle of three |
| PackCycles.EdgeAcyclicIff | midware/2.0/apusysCmd.cpp:303-364 | an accepted edge keeps an acyclic graph on packs acyclic iff its end does not reach its start |
| PackCycles.CarefulAcyclicIff | midware/2.0/apusysCmd.cpp:265-410 | a run that packs only sub-commands without edges ends acyclic iff no accepted edge closed a path |
| DependencyMatrix.Command.CreateSubCmd | midware/2.0/apusysCmd.cpp:265-301 | grows matrix and vector by one, without edges or a pack, or refuses an unknown device |
| DependencyMatrix.Command.SetDependencyEdge | midware/2.0/apusysCmd.cpp:303-364 | throws iff an index does not exist, refuses iff the two are the same, in one pack, or the reverse edge is there, and otherwise performs the abstract step; nothing changes in the other cases |
| DependencyMatrix.Command.SetDependencyPack | midware/2.0/apusysCmd.cpp:366-410 | the same for packing, which refuses an appendix that has a pack; packing with itself is accepted and changes nothing |
| DependencyMatrix.CommandSound | midware/2.0/apusysCmd.cpp:265-410 | every valid command object has a sound matrix |

## Left out

- Device I/O, sessions, allocators, fences of the kernel, polling: an allocation is a fresh array or a failure, its handle a parameter.
- Logging, property files, test drivers, the eDMA 2.0 files, the empty stubs.
- Mutexes and threads: each public method is one atomic step. getCmdBuf, which takes a mutex already held, and markExecute / unMarkExecute are not modelled; the executing flag is a field.
- Pipeline tuning fields (senders, receivers, user bits, reader and writer counts) are written where they share a word with modelled fields, otherwise dropped; they do not change what a descriptor moves.
- Pixel conversion defined only by the hardware: colour matrices, compression, float conversion, Bayer routing, depth to space, unpack, pack, swap and 565 conversion.
- fillDescData, fillDescSlice, the two Bayer fills, edma_UVRz2X and the NN fills: straight-line field filling or a partition of one row.
- edma_gen_256x256_rotation and edma_gen_tile_rotation: not called; the list they use is TileOrder.EdmaRotateAddrList.
- References handed out by getTuneParam and getCmdProperty: writing through them bypasses setTuneParam and setCmdProperty.
- ApusysCmd.Command.ConstructCmd: after an overrun nothing is promised; the counter mDependencySize is unbounded in the model, which leaves the size the same in 32 bits. A buffer that was freed is forgotten.
- ApusysCmd.Command.AddSubCmd: after a call that threw, the command object is not claimed to be valid; of the calls that follow only constructCmd on a clean command is described.
- SubCommand.SubCmd.constructor: the fields of a sub-command are grouped in one record, its index and info entry kept beside it.
- ApusysCmd.Command.GetFence: lists of 2^30 sub-commands or more, where the 32-bit offset of the slot wraps around.
- Rotation.RotationCorrect: images, buffer and tiles must fit memory and the 16 KiB buffer, and source and destination must not overlap, as tiles are written while others are still to be read.
- MvpuFill.RotateCorrect: sizes must fit the tile limits and be whole pixels; descriptors are records, whose place in bytes is followed in TaskFill only.
- SplitOrder.SplitAny: the slab pitch of lane 2 of a merge is the source's own slip and has no effect with one slab; lanes without a channel are followed up to which cells they write, not what they write there.
- RotationSlot.SlotHolds: the tile count must fit 32 bits.
- ReplaceOffsets.FillOffsets: offsets are unbounded, 4 GiB of descriptors are beyond the model; the descriptors the same loop fills are stated in TaskFill.FillTask, for rotation, split and merge requests only.
- TaskFill.FillTask: the loop over requests of the standard interface is not composed; RotationSlot.FillRotation and PadFill.FillDescPad speak of one request each.
- LaneCopies.LanesMove: lanes run one after another, in any order; interleaving byte by byte is not modelled.
- SplitOrder.OrderExact: "only if" takes an image whose lines do not overlap; with overlapping lines the bytes written over the next line can happen to be the right ones.
