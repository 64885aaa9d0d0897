# epic-cc back end, verified model

A Dafny model of the back half of epic-cc, a compiler for 8-bit PIC parts: static-stack frame
allocation, bank selection, PIC18 branch relaxation, Intel HEX output, the const-window repair, and
four whole-program passes. Loops of the source are methods with invariants; what they promise is
stated on specification functions and proved for all inputs.

`dafny verify dfyconfig.toml` checks everything.

## What is modelled

| files | part of the compiler |
|---|---|
| `Devices`, `Placement` | memory map; slot placement, frame ends, routine snapping |
| `Ir`, `Cfg`, `Points`, `Liveness`, `LiveRanges`, `Coloring` | SSA functions; paths, dominators; liveness, intervals, slot colouring |
| `SlotExec`, `SlotAgreement`, `SlotRefinement` | running a function on its slots, against SSA execution |
| `Homing`, `HomingRuns` | the window checks behind result and argument homing, and runs that overwrite the home |
| `TopoSort`, `Overlay`, `Frames`, `Interrupts` | frame bases, dips, heat order, call chains, interrupt contexts |
| `ChainExec` | a function on its slots while the functions it calls run on theirs |
| `Globals` | sequential placement and bin-pack of globals |
| `BankText`, `BankAnalysis`, `BankScan`, `BankMachine`, `BankInvariant`, `BankSoundness`, `DataMemory`, `RawSelects`, `RawRuns` | bank analysis, rewriting, and soundness on a machine, down to the byte reached |
| `Stream`, `Relax`, `RelaxMeaning`, `Encode`, `WordRun` | PIC18 assembler stream, far-branch expansion, its meaning, branch words, running the placed words |
| `Hex`, `HexRead` | HEX writers and a loader for them |
| `FirstPass`, `ConstWindow` | PIC14 assembler pass 1 and the repair in front of it |
| `Retention`, `RetentionRuns`, `CallGraph`, `StoreRuns`, `StoreTabling`, `StoreMaximal`, `EditDistance` | pointer retention, recursion and depth, store-run tables, option suggestions |

## Conventions

- A panic of the source is `None`, an error value, or a `faults` entry; nothing is assumed away by it.
- 16-bit addresses are unbounded naturals; `Device.Valid` keeps every region below 0xFEFF, so the
  frame sums proved about do not wrap. The HEX writer's 8- and 16-bit truncations are modelled.
- Assembly is typed lines, not text. A bracketed inline-assembly block is one line after which the
  bank is unknown.
- Functions, blocks and registers are numbered; a `HashMap` is a map, and results do not depend on
  its order.
- Machines (`SlotExec`, `BankMachine`, `RelaxMeaning`, `WordRun`, `StoreRuns`) are parameters: what an
  instruction computes is left open and every theorem is for all of them.

## Assumptions of the main results

- Slot refinement: no pins, labels resolve, names are defined once, phis lead their block and
  nothing jumps to the entry.
- Banking (`BankMachine.Suitable`): jump and call targets are defined; a GOTO stays in its region,
  or goes to an opener or ahead of the first one; no computed jump; a skip guards a plain
  instruction of its region in front of which no select is inserted. Raw RP-bit writes are allowed
  where the other RP bit is known clear. `BankMachine.TextOk` states all of this on the text alone,
  and `BankSoundness.BankingSoundText` is the claim under it. The call graph has no cycle. That the
  analysis finds no bank too many is for texts in which every call can come back
  (`BankAnalysis.Returns`).
- The byte an access reaches (`DataMemory.MemoryMap`): PIC14 and PIC14E parts whose region `i` is in
  bank `i`, behind the core registers and clear of common RAM. The interrupt prologue's shadow
  operand is meant to reach whichever bank is selected.
- Relaxation: no `.pcltbl`, source names are not the made-up skip names, definitions are distinct,
  jumps name labels, and no skip guards a conditional branch. The line machine steps over `org`; that
  the placed words run as the lines do (`WordRun.OnePiece`) is for streams with no `org` behind code,
  data in whole words, an instruction behind each skip, and addresses below 2 MB.
- Interrupt isolation: main, low and high reach disjoint sets of functions.
- Call chains (`ChainExec`): the called functions write only their own frames, and frames are pin-free.
- Homing runs: a home changes only at calls, at the definition, and for results at inline assembly.
- Retention: memory holds nothing derived from the argument when the call starts. A run executes the
  instructions of a body in any order, so every control-flow path is one of its runs; "retained"
  is shown by such a run, which need not follow the control flow.
- Globals: sizes are positive, names distinct, and on PIC14E no object is wider than a region.

## Where the code and its promises differ

- The save area of a lone high-priority handler on PIC18 is carved at the main context's end, but
  the handler's frames start at the highest frame end of the main pass, which need not be past the
  area. `Interrupts.SaveGap` is the exact condition: no byte of it is shared if and only if each
  outermost frame of the handler's context, based at that highest end and rounded if it is a
  routine's, lands seven bytes past `MainEndOf(p, start)`. For an ordinary handler with a frame that
  is when some frame of the main pass, `MainBases(p, start)`, ends there or higher.
  `LoneHandlerOverlaps` computes the layout of a one-function program that fails it. The comment
  beside the code says compatibility mode has no save area; the code carves one.
- The HEX writer wraps its 16-bit offset past 32768 words; `HexReadBack` says exactly when the words
  come back.
- A relative branch to an odd byte address (after an odd number of data bytes) lands on the word
  holding it, not on it; `BranchReachesLabel` gives the exact condition.
- A hand-written RP-bit write is tracked as if it cleared the other bit. `RawSelects.RawSelectsFail`
  is a text whose access in bank 1 runs in bank 3. `RawRuns.RunsExact` is the exact condition along
  runs through labels, calls and skips, `RawSelects.StraightExact` the exact one on the text of
  straight-line code, and `BankMachine.RawTextOk` a sufficient one on any text.

## Model

| member | source | states |
|---|---|---|
| Devices.Device.RegionIndex | crates/device/src/lib.rs:166-171 | the first region not wholly below the address: every earlier one ends below it, and `None` means all do |
| Devices.Device.HoldingIndex | crates/device/src/lib.rs:196-200 | the region that holds the address; `None` means no region does |
| Placement.PlaceIsLeast | crates/alloc/src/lib.rs:347-358 | a slot goes to the least address at or above the cursor where its bytes lie in one region; failure means there is none |
| Placement.PlaceMonotone | crates/alloc/src/lib.rs:347-358 | a higher cursor never gets a lower slot |
| Placement.PlaceContiguous | crates/alloc/src/lib.rs:347-358 | the region-stepping loop finds that placement, and its panic is exactly the absence of one |
| Placement.ComputeFrameEnd | crates/alloc/src/lib.rs:380-386 | the accumulation over a frame's slots ends where slot-by-slot placement ends |
| Placement.SlotsInOrder | crates/alloc/src/lib.rs:380-386 | a frame's slots are each in one region, in order, disjoint, between its base and its end |
| Placement.PrefixEnd | crates/alloc/src/lib.rs:472-478 | placing the slots up to `k` ends exactly past slot `k`: what `live_high` relies on |
| Placement.RoutineBase | crates/alloc/src/lib.rs:403-431 | the snap loop computes the snapped base, `None` past the last bank |
| Placement.RoutineStaysInOneBank | crates/alloc/src/lib.rs:403-431 | snapping never lowers a base, and a frame whose bytes fit the bank it lands in has every slot there (one region, or one 256-byte PIC18 bank) |
| Placement.SnapTarget | crates/alloc/src/lib.rs:403-431 | a base that moves lands strictly higher, inside the region serving it |
| Placement.SnapExact | crates/alloc/src/lib.rs:403-431 | a routine keeps its base exactly when every byte of its frame is in one bank; else it moves to the first byte of the device at or past the next bank, and there is none exactly when it fails |
| Cfg.BuildPreds | crates/alloc/src/lib.rs:1018-1023 | the predecessor map is the transposed successor map |
| Cfg.Closure | crates/alloc/src/lib.rs:1983-1991 | forward worklist: exactly the blocks reachable by a path |
| Cfg.CoClosure | crates/alloc/src/lib.rs:1992-2000 | backward worklist: exactly the blocks that reach the target |
| Cfg.SelfReachable | crates/alloc/src/lib.rs:1952-1964 | whether a block can run again after itself: exactly lying on a cycle |
| Cfg.Dominators | crates/alloc/src/lib.rs:2183-2213 | terminates, and for every reachable block holds exactly the blocks on every entry path; unreachable blocks keep the full set |
| Cfg.MeetPreds | crates/alloc/src/lib.rs:2195-2206 | the meet over predecessors keeps what all of them hold, plus the block itself |
| Cfg.FixpointOnPath | crates/alloc/src/lib.rs:2183-2213 | whatever a stable table lists for a block lies on every path to it |
| Homing.ResultHomeOk | crates/alloc/src/lib.rs:2220-2296 | accepts a use the entry reaches exactly when every visit of it on every path follows a visit of the call with no Call or Asm between, and, across blocks, neither runs twice; across blocks, for any use, exactly on dominance, cycles and clean blocks |
| Homing.CrossBlockOk | crates/alloc/src/lib.rs:1907-2014 | accepts a reachable call exactly when every visit of it follows the definition with no Call between and neither runs twice; for any call, exactly on dominance, cycles and clean blocks |
| Homing.EntryPathOk | crates/alloc/src/lib.rs:2111-2179 | accepts exactly when the call is on no cycle and no entry path runs another call before it |
| Homing.OnceWindow | crates/alloc/src/lib.rs:1907-2014 | accepts exactly when both ends run at most once and nothing bad follows the first, precedes the second or stands between |
| Homing.WindowFromPieces | crates/alloc/src/lib.rs:1907-2014 | quiet tail, quiet head and quiet blocks between make the whole dynamic window quiet |
| Homing.GuardedPieces | crates/alloc/src/lib.rs:1907-2014 | the converse: when every path from the entry has a quiet window, every block that can stand in it is quiet |
| HomingRuns.WindowExact | crates/alloc/src/lib.rs:2220-2296 | a window is quiet on every path exactly when, on every run on which only calls, the definition and (for results) inline assembly may overwrite the home, the use finds what the last visit of the definition left |
| HomingRuns.EntryExact | crates/alloc/src/lib.rs:2111-2179 | no call ahead of a point exactly when every run on which only calls may overwrite the home still finds its entry value there |
| Ir.SuccGraph | crates/alloc/src/lib.rs:944-964 | block successors from the terminators |
| Ir.FilledIs | crates/ir/src/lib.rs:509-586 | the registers listed as read are exactly the ones whose values leave no operand of the instruction a register |
| Ir.FillSame | crates/ir/src/lib.rs:509-586 | replacing registers by values changes nothing but at the registers listed as read |
| Ir.SuccsAre | crates/alloc/src/lib.rs:944-964 | the successors are the targets of the jumps of a block |
| Ir.DefOfIs | crates/alloc/src/lib.rs:676-712 | an instruction defines a value exactly when it has a destination, its own, with its own width; a compare is one byte |
| Liveness.CollectDefs | crates/alloc/src/lib.rs:676-712 | each value's defining block, position, own width and placement order: parameters as listed, then textual order |
| Liveness.OrderIsTextual | crates/alloc/src/lib.rs:676-712 | the placement order is the order of the text: parameters by index, ahead of everything, then definitions by block and position |
| Liveness.NumberedWidth | crates/alloc/src/lib.rs:680-712 | the collected width of a value is the one its parameter or instruction has in the text |
| Liveness.CollectUses | crates/alloc/src/lib.rs:722-742 | exactly the points where a value is read, a phi operand at the end of its predecessor, and where a phi is copied |
| LiveRanges.UseBeforeDef | crates/alloc/src/lib.rs:970-982 | the values a block reads before, at, or without their own definition |
| LiveRanges.LiveSets | crates/alloc/src/lib.rs:991-1016 | the backward fixpoint terminates with a value live into a block exactly when some path from it reads the value before redefining it |
| LiveRanges.EquationsAreExact | crates/alloc/src/lib.rs:991-1016 | solutions of the equations reached from below are exact path liveness |
| LiveRanges.Analyse | crates/alloc/src/lib.rs:944-1040 | all facts the colouring uses, from the text of the function |
| LiveRanges.LiveRangeOf | crates/alloc/src/lib.rs:1059-1109 | the interval is the least one over the definition, uses, phi copies, live-in block starts and those blocks' predecessor ends |
| Coloring.FirstFit | crates/alloc/src/lib.rs:617-633 | the lowest disjoint slot, widened to hull and widest occupant, or a fresh one |
| Coloring.TryPins | crates/alloc/src/lib.rs:1614-1638 | the first coloured, clash-free arm takes the value, and none does exactly when no arm is usable; `waited` exactly when some arm has no slot yet |
| Coloring.Color | crates/alloc/src/lib.rs:1591-1665 | every value gets the slot the rule gives it in its turn, `Greedy`: that of its first coloured, clash-free pin source, or the lowest slot whose occupants keep clear of it, waiting for a second sweep exactly when an arm has no slot yet; two values share a slot only with disjoint intervals or one pinned to the other; a slot is exactly as wide as its widest occupant |
| Coloring.GreedyOne | crates/alloc/src/lib.rs:1591-1665 | the rule gives one colouring |
| Coloring.JoinKeeps | crates/alloc/src/lib.rs:589-613 | joining a pin source's slot without a clash keeps the colouring invariant |
| Coloring.FitKeeps | crates/alloc/src/lib.rs:617-633 | first-fit placement keeps the colouring invariant |
| Coloring.SortValues | crates/alloc/src/lib.rs:1117-1117 | the colouring order: by interval start, then placement order, every value once |
| Coloring.FrameLayout | crates/alloc/src/lib.rs:648-1716 | widths are the values' own in the text, intervals are the exact ranges, both layouts are the greedy ones in colouring order and meet the colouring invariant, and the diamond-pinned one is kept exactly when its width sum is strictly smaller |
| SlotExec.UnpinnedLayout | crates/alloc/src/lib.rs:1591-1665 | without pins, values sharing a slot have disjoint intervals |
| SlotAgreement.Covered | crates/alloc/src/lib.rs:1042-1109 | every value that may still be read is inside its interval |
| SlotRefinement.RunAgrees | crates/alloc/src/lib.rs:965-1117 | along every path, every set and still readable value is in its slot; phi copies on the taken edge are all read before any is written |
| SlotRefinement.SlotsRefineSsa | crates/alloc/src/lib.rs:965-1117 | slot execution refines SSA execution: on every path, every instruction, with the values of its slots in place of its operands, is what it is with the values SSA gives them |
| SlotRefinement.NoisyRefines | crates/alloc/src/lib.rs:965-1117 | the same while called functions overwrite slots that hold nothing live at their call |
| SlotRefinement.StrictNeverStuck | crates/alloc/src/lib.rs:965-1117 | when definitions dominate uses, no operand is ever without a value, so the refinement applies everywhere |
| Overlay.LiveHigh | crates/alloc/src/lib.rs:454-479 | the least callee base, at or above the caller's, clear of every byte live across the site other than its result |
| Overlay.CallerEnd | crates/alloc/src/lib.rs:3580-3587 | the highest caller frame end, or the region start without callers |
| Overlay.DippedBase | crates/alloc/src/lib.rs:3560-3579 | the greatest live-high over the call sites: clear of every site, and some site's own |
| Overlay.BaseFor | crates/alloc/src/lib.rs:3556-3604 | the base the rules give, at or above every caller's base and clear of what every site keeps live; it is the one the addresses call for (`RuledTo`: the least clear address where the dip keeps the bank selects of the frame's start and end, else the highest caller end); without a base or a place for the frame exactly when `Stuck` says so |
| Overlay.BaseIsRuled | crates/alloc/src/lib.rs:3556-3604 | what is computed is the base that rule gives |
| Overlay.DipIsLeast | crates/alloc/src/lib.rs:3560-3579 | the greatest live-high is the least address at or above every caller's base that is clear of every site |
| Overlay.UnroundedOne | crates/alloc/src/lib.rs:3560-3597 | the rule over the addresses picks one |
| Overlay.StuckIs | crates/alloc/src/lib.rs:3555-3605 | one placement fails exactly when the frame does not fit at the callers' end, or a routine does not fit, or has no bank left, where rounding moves it |
| Overlay.FitsLower | crates/alloc/src/lib.rs:347-386 | a frame that fits at an address fits at any lower one |
| Overlay.Rounded | crates/alloc/src/lib.rs:500-519 | rounding moves runtime routines only, never down, and not on baseline parts |
| Overlay.AssignMain | crates/alloc/src/lib.rs:3555-3605 | the bases of the main pass, `MainBases`: every function is placed, at the base the addresses call for, above its callers and clear of their live bytes, roots at the region start; `None` exactly when the pass reaches a function that has no place |
| Overlay.EndIsClear | crates/alloc/src/lib.rs:3588-3597 | a frame placed at the caller's end is clear of everything the caller holds |
| Frames.HeatOrder | crates/alloc/src/lib.rs:1752-1754 | the stable permutation by falling heat |
| Frames.WindowOrder | crates/alloc/src/lib.rs:1747-1755 | a permutation exactly when the frame straddles the window end, hotter slots first |
| Frames.SlotOrder | crates/alloc/src/lib.rs:5079-5086 | the colouring's order for a frame a callee dips into or that does not straddle the window end; the order by falling heat when it does and that order moves no end; the frame end is kept |
| Frames.PlaceFrame | crates/alloc/src/lib.rs:5087-5094 | slot addresses are those of placing the slots in that order |
| Frames.SlotsApart | crates/alloc/src/lib.rs:5087-5094 | in whatever order, slots are disjoint and between base and frame end |
| Frames.FindDipped | crates/alloc/src/lib.rs:5031-5043 | exactly the callers some callee starts below the end of |
| Frames.PlaceAll | crates/alloc/src/lib.rs:5050-5101 | in every frame the slots are in banks, between its base and its end, and apart; a dipped-into frame keeps the colouring's order |
| Frames.OverlaySafe | crates/alloc/src/lib.rs:3555-3605 | on every call chain, the slot of a value live across its site lies wholly below every slot of every later frame |
| ChainExec.ReusedIsDead | crates/alloc/src/lib.rs:3555-3605 | a slot that shares a byte with any frame running below a call holds nothing live across that call |
| ChainExec.ChainReads | crates/alloc/src/lib.rs:5027-5101 | on every path, with every called function at every depth free to overwrite its own frame, each instruction gets the SSA values for its operands from its slots |
| Interrupts.ReachAll | crates/alloc/src/lib.rs:1760-1776 | exactly the functions reachable from the roots |
| Interrupts.MainEnd | crates/alloc/src/lib.rs:3657-3662 | the highest main-context frame end, or the region start when nothing runs outside interrupts |
| Interrupts.AssignRegion | crates/alloc/src/lib.rs:3669-3727 | re-derives one context from its region start: every base is the one the addresses call for, everything stays settled, other contexts unmoved, roots at the start; `None` exactly when it reaches a function of the context that has no place |
| Interrupts.AssignBases | crates/alloc/src/lib.rs:3538-3776 | the layout of the three passes, `LayoutOf`: with disjoint contexts all frames and save areas of main, low and high are apart and every base is above its callers; a lone high handler's save area starts at the main end and is kept clear exactly when `SaveGap` says |
| Interrupts.AreasAre | crates/alloc/src/lib.rs:3737-3773 | with both priorities a 19-byte area behind main and, on PIC18, a 7-byte one below the high handlers; with one, 7 bytes on PIC18 and none elsewhere; every plain handler starts right behind its area |
| Interrupts.Isolation | crates/alloc/src/lib.rs:3623-3773 | the three passes stack the contexts and save areas one above the other |
| Interrupts.LoneHighGap | crates/alloc/src/lib.rs:3747-3773 | a lone high handler's save area lies below its frames exactly when every handler lands past it, and shares no byte with them exactly when every outermost frame does; for an ordinary handler, when some main-pass frame ends seven bytes past the main end |
| Interrupts.AtTop | crates/alloc/src/lib.rs:3655-3727 | with no frame above it in the context, a function is based at the region start, dip or no dip, as far as rounding allows |
| Interrupts.RegionFixed | crates/alloc/src/lib.rs:3669-3727 | the bases a region pass ends with are the ones the rules give from those very bases |
| Interrupts.LoneHandlerOverlaps | crates/alloc/src/lib.rs:3747-3773 | from address 0 the layout of a one-function PIC18 program has its save area at bytes 0 to 6 and the handler's frame at byte 1 |
| Interrupts.LoneHandlerValid | crates/alloc/src/lib.rs:3747-3773 | that program meets every condition the layout asks for |
| TopoSort.InDegrees | crates/alloc/src/lib.rs:3433-3445 | in-degrees counting every call |
| TopoSort.TopoSort | crates/alloc/src/lib.rs:3433-3471 | succeeds with every function once and callers before callees, and fails exactly when some functions are each called by another of them |
| TopoSort.OrderNoKnot | crates/alloc/src/lib.rs:3466-3471 | an order excludes every such set |
| Globals.BumpPast | crates/alloc/src/lib.rs:1813-1830 | the bump loop terminates at the least aligned address clear of every pin |
| Globals.FindRoom | crates/alloc/src/lib.rs:1809-1836 | the first bank with room at or above its cursor, at the least feasible address; none means no bank has any |
| Globals.StartCursors | crates/alloc/src/lib.rs:1790-1804 | cursors start in their bank, not below the start, and skip no feasible place |
| Globals.BinPack | crates/alloc/src/lib.rs:1783-1840 | on success every global is in one bank, at or above the start, aligned, apart from pins and from each other; on failure the next largest has no room in any bank above what it holds |
| Globals.OrderIs | crates/alloc/src/lib.rs:1805-1806 | the packing order is the same globals, largest first |
| Globals.TryPlaceAt | crates/alloc/src/lib.rs:293-311 | the least aligned address with the bytes in one bank, `None` exactly when there is none |
| Globals.FloatOne | crates/alloc/src/lib.rs:4815-4863 | past the pins, into a region, past the pins again: the least fit at or above the cursor |
| Globals.TryFloat | crates/alloc/src/lib.rs:4805-4874 | the sequential pass: on success the same arrangement guarantees; on failure the next global has no fit above what is placed |
| BankText.OpenerOf | crates/banking/src/lib.rs:228-259 | every line at or after the first opener lies in exactly one region |
| BankAnalysis.Analysis.WalkRegion | crates/banking/src/lib.rs:322-458 | terminates over sets of banks, and covers every run of the region from every entry bank: all exits, all label banks, all ways of leaving; when every call can come back, it returns no bank that no run shows |
| BankAnalysis.Analysis.Visit | crates/banking/src/lib.rs:360-456 | one worklist step records or pushes everything the line can do, and only states that some run has |
| BankAnalysis.Analysis.FuncExitBank | crates/banking/src/lib.rs:288-307 | memoised exit banks contain every bank a call can come back with, and, when every call can come back, no other |
| BankAnalysis.Analysis.LabelProvableBanks | crates/banking/src/lib.rs:540-562 | every label of every region without a computed jump is recorded with every bank that can reach it, from any entry bank; when every call can come back, every recorded bank is one that some run has at the label |
| BankAnalysis.ClosedCovers | crates/banking/src/lib.rs:322-458 | a closed set of states covers every run, through labels, skips, jumps and calls |
| BankScan.EmitBanksel | crates/banking/src/lib.rs:809-823 | the emitted bit writes reach the bank from the tracked one, or from any when full, and nothing is emitted exactly when it is already selected |
| BankScan.Select | crates/banking/src/lib.rs:773-789 | the selects in front of a banked operand, on either core: the very lines, and that they reach the bank |
| BankScan.ScanLine | crates/banking/src/lib.rs:629-805 | one line: its tracked bank behind it and its image in the output |
| BankScan.AssignBanks | crates/banking/src/lib.rs:577-807 | every line became its selects and its rewritten self, in order and nothing else, with parallel source locations; tracked banks behind calls and at labels are those of the exact analysis |
| BankScan.SingleBank | crates/banking/src/lib.rs:187-192 | the bank of a one-bank set |
| BankInvariant.StepSafe | crates/banking/src/lib.rs:577-807 | every machine step keeps the tracked bank equal to the real one, through calls, returns, skips, falls and jumps |
| BankInvariant.StepCall | crates/banking/src/lib.rs:697-735 | a call enters the callee region with the bank the analysis was entered with |
| BankInvariant.StepReturn | crates/banking/src/lib.rs:395-417 | a return comes back with a bank the exit summary holds |
| BankInvariant.StepSkip | crates/banking/src/lib.rs:418-441 | both arms of a skip keep the tracked bank right |
| BankInvariant.LabelMatches | crates/banking/src/lib.rs:668-686 | a label reached at run time has the bank the scan resumes with |
| BankSoundness.BankingSound | crates/banking/src/lib.rs:577-807 | in every run of the output, from reset at bank 0 or any region opener at any bank, every banked operand executes with its own bank selected |
| BankSoundness.BankingSoundText | crates/banking/src/lib.rs:577-807 | the same under a condition on the text alone, for every result of the pass |
| BankMachine.TextOkPasses | crates/banking/src/lib.rs:577-807 | when raw RP-bit writes and the lines behind skips show the right bank in the text, every result of the pass meets the conditions of the claim |
| DataMemory.AccessReachesCell | crates/banking/src/lib.rs:577-807 | on a data memory with common RAM and core registers shared by all banks, every access of the output, with or without an operand bank, reaches the very byte its source line named |
| DataMemory.BankOfIs | crates/device/src/lib.rs:180-249 | an operand needs no select exactly when its byte answers in every bank, or is the prologue's shadow; it is refused exactly when it names a shared byte through another bank; else it needs the bank of its page |
| DataMemory.PlainTextUnchanged | crates/banking/src/lib.rs:470-502 | a text that names bank 0 only and writes no bank passes through unchanged |
| BankSoundness.StepZero | crates/banking/src/lib.rs:470-502 | a bank-0-only program never leaves bank 0, with no selects at all |
| BankMachine.RawSelectExact | crates/banking/src/lib.rs:132-141 | the tracked effect of a hand-written RP-bit write is the real one exactly when the other RP bit is clear |
| RawSelects.RawSelectsFail | crates/banking/src/lib.rs:132-141 | `BSF STATUS,6`, `BSF STATUS,5` and an access in bank 1: every result of the pass runs the access in bank 3 |
| RawSelects.StraightExact | crates/banking/src/lib.rs:809-823 | straight-line code from reset is rewritten rightly exactly when, in front of every access, each RP bit the tracked bank has right is right in the real one |
| RawRuns.RunsExact | crates/banking/src/lib.rs:577-823 | the rewriting is right in every run exactly when every run comes to every access with the RP bits right that the tracked bank has right, raw RP-bit writes anywhere |
| RawRuns.RunShape | crates/banking/src/lib.rs:577-807 | in every run control enters the image of a line at its start |
| Stream.ResolveLabels | crates/asm/src/lib.rs:259-292 | label values and total size are those of the one address walk |
| Stream.LayoutAddrs | crates/asm/src/lib.rs:296-331 | every instruction is listed in order at the walk's address, every data byte too |
| Stream.DebugRows | crates/asm/src/lib.rs:551-586 | the debug rows are the located lines at the same walk's addresses |
| Stream.SymbolValue | crates/asm/src/lib.rs:20-25 | with distinct definitions a name resolves exactly to its own definition, or else to its underscore-free one |
| Stream.StreamIndex | crates/asm/src/lib.rs:375-395 | the `i`-th instruction is mapped back to its stream line |
| Relax.FirstFar | crates/asm/src/lib.rs:350-374 | the first branch in order that is undefined or out of range; every branch ahead of it is in range |
| Relax.Splice | crates/asm/src/lib.rs:396-416 | the branch becomes its long form in place, its location on every instruction of it |
| Relax.ExpandWeight | crates/asm/src/lib.rs:346-424 | every expansion lowers the count of expandable branches |
| Relax.SkipNear | crates/asm/src/lib.rs:405-415 | a made-up skip is always in range |
| Relax.Relax | crates/asm/src/lib.rs:346-530 | the loop terminates within its weight; it fails exactly when a branch target is undefined; otherwise every relative branch of the result is in range and the result is a chain of expansions, each of the first branch that could not reach its target |
| RelaxMeaning.StepExpanded | crates/asm/src/lib.rs:405-415 | the long form does in one or two steps what the branch did in one |
| RelaxMeaning.RoundKeeps | crates/asm/src/lib.rs:346-424 | one expansion keeps the label-level behaviour on every machine |
| RelaxMeaning.RelaxKeepsMeaning | crates/asm/src/lib.rs:346-530 | the relaxed stream passes the same source labels with the same data and stops when the original stops, from the top or any label |
| Encode.InRangeExact | crates/asm/src/lib.rs:366-374 | in range are exactly the branches whose offset some word of the opcode holds |
| Encode.RelativeDecodes | crates/asm/src/lib.rs:781-817 | in range, the 8- or 11-bit field decodes to the same kind, condition and offset |
| Encode.AbsoluteDecodes | crates/asm/src/lib.rs:818-846 | GOTO and CALL words decode to the word address |
| Encode.BranchReachesLabel | crates/asm/src/lib.rs:781-846 | every branch of a relaxed stream encodes without tripping its range check and transfers to its label's word: to the label itself exactly when its address is even |
| Encode.AddrEven | crates/asm/src/lib.rs:259-292 | with word-sized data every address is even |
| WordRun.BranchIs | crates/asm/src/lib.rs:781-846 | fetched at its address, a branch decodes to its own kind and condition and goes to its label's line |
| WordRun.WordsRunLines | crates/asm/src/lib.rs:296-331 | the placed words pass through every state of the line run, and stop when it stops |
| WordRun.SourceToWords | crates/asm/src/lib.rs:346-530 | whatever a run of the original stream comes to, the words of the relaxed one come to, with the same data, stopped if it has stopped |
| Hex.ToHex | crates/asm/src/lib.rs:1344-1382 | the chunking loop writes the records of the trimmed words |
| Hex.ToHexRegions | crates/asm/src/lib.rs:1388-1435 | the region loop writes linear-address records exactly where the upper half changes |
| Hex.ChecksumZero | crates/asm/src/lib.rs:1439-1448 | every record sums to 0 modulo 256 |
| Hex.OneRegion | crates/asm/src/lib.rs:1384-1387 | one region at 0 is written exactly as the single image, for all words |
| Hex.Top | crates/asm/src/lib.rs:1349-1353 | one past the highest set word |
| HexRead.HexReadBack | crates/asm/src/lib.rs:1344-1382 | the text always loads, and gives the words without trailing zeros back exactly when there are at most 32768 |
| HexRead.RegionsReadBack | crates/asm/src/lib.rs:1388-1435 | every region inside its 64 KB segment loads back at its own address |
| FirstPass.AssembleFirstPass | crates/asm/src/lib.rs:27-133 | succeeds exactly when no assertion of pass 1 trips, with the walk's addresses and symbols |
| FirstPass.AlignUpIs | crates/driver/src/const_window.rs:174-176 | for a power of two, the least multiple not below |
| FirstPass.TableFitsIs | crates/asm/src/lib.rs:103-128 | a table passes the window check exactly when the reader, which adds the low byte without a carry, fetches every entry from its own word |
| ConstWindow.Repair | crates/driver/src/const_window.rs:31-170 | pads stand exactly where a table would cross, locations stay parallel, bases are in their pages, and readers behind the first pad in one page; a fitting text comes back unchanged; refused exactly for a zero alignment, a backward org, a table or a reader that crosses a page, or an off-page base |
| ConstWindow.CloseReader | crates/driver/src/const_window.rs:56-66 | the reader page check |
| ConstWindow.ReaderFitsIs | crates/driver/src/const_window.rs:40-66 | the words held to one page are exactly those that run on from the reader's label, up to the next label, `org`, table or the end |
| ConstWindow.RepairedAssembles | crates/asm/src/lib.rs:27-133 | a repaired text trips no table or backward-org assertion, and each modelled base resolves into its page |
| ConstWindow.SymbolsMatch | crates/asm/src/lib.rs:20-25 | the assembler resolves each label to the address the repair recorded |
| ConstWindow.RepairIdempotent | crates/driver/src/const_window.rs:31-170 | a second repair is the identity |
| ConstWindow.WeaveParallel | crates/driver/src/const_window.rs:20-30 | lines and locations stay aligned |
| Retention.Walker.CallRetains | crates/alloc/src/retain.rs:35-43 | "not retained" means no run of the call, however deep, keeps a derived value; on recursion-free modules "retained" means some sequence of the bodies' instructions does |
| RetentionRuns.NotRetainedIsSafe | crates/alloc/src/retain.rs:35-43 | on a machine that binds argument `j` to parameter `j` or the variadic tail, where memory and results carry taint and loads read it back: an argument that is not retained has room in the callee, and no run entered with it alone derived ends with anything derived in memory or in its result |
| RetentionRuns.RetainedIsReal | crates/alloc/src/retain.rs:35-160 | without recursion, for an argument that is retained some run of the callee, or of a function it comes to, stores or returns something derived from it |
| RetentionRuns.BindIs | crates/alloc/src/retain.rs:45-58 | the slots the walk follows are the parameters and the tail the machine binds |
| RetentionRuns.QuietRun | crates/alloc/src/retain.rs:71-78 | until something is kept, what a run derives is what the walk assumes: loads and call results hold nothing derived |
| Retention.Walker.ArgRetains | crates/alloc/src/retain.rs:45-70 | the memo and the visiting guard keep that verdict, and the recursion terminates |
| Retention.Walker.Walk | crates/alloc/src/retain.rs:79-160 | taint, then scan: the verdict for one slot of one function |
| Retention.Walker.UseKeeps | crates/alloc/src/retain.rs:130-157 | whether one instruction keeps something tainted |
| Retention.Taint | crates/alloc/src/retain.rs:79-128 | exactly closed under derivation, and everything in it is derived by some run |
| Retention.LeaksFromOne | crates/alloc/src/retain.rs:71-78 | what leaks from several arguments leaks from one of them: taint distributes over seeds |
| Retention.QuietAll | crates/alloc/src/retain.rs:71-78 | what is quiet from each slot is quiet from all together |
| CallGraph.Search.Depth | crates/callgraph/src/lib.rs:82-112 | the memoised coloured search returns the length of a longest chain, or finds a cycle |
| CallGraph.Build | crates/callgraph/src/lib.rs:15-80 | refuses a module exactly when some chain of functions that may enter one another closes on itself, a site entering the function it names or every candidate it lists; otherwise the edges are exactly that relation, and `maxDepth` is the number of functions on a longest chain of it |
| CallGraph.EdgesAre | crates/callgraph/src/lib.rs:49-66 | one edge per function a site may enter: the named one of a direct call, every candidate of an indirect one, none for `_delay` or a numeric target |
| CallGraph.CheckExact | crates/callgraph/src/lib.rs:125-131 | the check passes exactly when no chain of functions that may enter one another is longer than the limit |
| CallGraph.DeepestNoCycle | crates/callgraph/src/lib.rs:82-112 | a function with a longest chain is on no cycle |
| StoreRuns.PaysExactly | crates/driver/src/const_runs.rs:342-352 | a run converts exactly when it is long enough, names a symbol, and its table is smaller than its inline code |
| StoreRuns.TableReadsBack | crates/isel-pic18/src/lib.rs:19347-19380 | the table lays down the run's very bytes: symbol halves alternate low, high, wherever they stand |
| StoreTabling.ScanInsts | crates/driver/src/const_runs.rs:382-443 | the scan plans exactly the found runs' removals, insertions and tables |
| StoreTabling.FoundIsOk | crates/driver/src/const_runs.rs:382-443 | found runs are consecutive stores to one root with only silent instructions between, disjoint, in order, within one copy, and worth it |
| StoreMaximal.FoundExact | crates/driver/src/const_runs.rs:382-443 | the converted runs are exactly the longest runs that pay: each store goes on with the run of the store it follows, up to 255 bytes |
| StoreTabling.FlushRun | crates/driver/src/const_runs.rs:313-381 | closing a run converts it or leaves it inline |
| StoreTabling.Collect | crates/driver/src/const_runs.rs:323-341 | bytes, references and cheap bytes of a run |
| StoreTabling.RemoveAll | crates/driver/src/const_runs.rs:444-447 | exactly the planned members are removed |
| StoreTabling.InsertAll | crates/driver/src/const_runs.rs:448-461 | the shifted index puts every copy exactly where its run's last member stood |
| StoreTabling.TableStoreRuns | crates/driver/src/const_runs.rs:295-464 | the rewritten block is the original without converted members, plus the copies |
| StoreTabling.TablingSame | crates/driver/src/const_runs.rs:295-464 | every machine ends in the same memory and registers |
| EditDistance.EditDistance | crates/driver/src/cli.rs:160-173 | the one-row in-place loop returns the Levenshtein distance |
| EditDistance.Symmetric | crates/driver/src/cli.rs:160-173 | it is symmetric |
| EditDistance.ZeroIffEqual | crates/driver/src/cli.rs:160-173 | it is zero exactly between equal strings |
| EditDistance.Triangle | crates/driver/src/cli.rs:160-173 | it obeys the triangle inequality |
| EditDistance.DistanceIsLower | crates/driver/src/cli.rs:160-173 | no chain of single-character edits is shorter |
| EditDistance.DistanceIsReached | crates/driver/src/cli.rs:160-173 | some chain of edits is exactly that long |
| EditDistance.Suggest | crates/driver/src/cli.rs:177-185 | names the first-listed nearest candidate within 3, or nothing when none is that near |

## Left out

- Memory objects, va regions and their bounded ranges, GEP operand propagation, folded or forwarded values: the frame layout is modelled for plain SSA values only.
- The admission of coalescing and diamond pins: pins are inputs of the colouring, so `SlotRefinement.SlotsRefineSsa` is for frames without pins; with pins only the colouring invariant is proved.
- Candidate selection and bank pricing for homed results and arguments, `phi_home_ok`, and the ranking of whole layouts (`best_at`, `allocate_with_pool`): long heuristics over backend facts outside this model.
- Const staging, const pooling and flag packing in the allocator.
- Globals.TryPlaceAt: does not model PIC14E objects wider than a region, which straddle banks.
- Globals.FloatOne: does not model PIC14E objects wider than a region, for the same reason.
- Globals.TryFloat: does not model PIC14E objects wider than a region, for the same reason.
- BankSoundness.BankingSoundText: its condition on raw RP-bit writes is sufficient; the exact one on the text is for straight-line code, and through labels and calls it is about runs, since there it depends on what the analysis finds.
- Retention.Walker.CallRetains: "retained" is shown by a sequence of instructions, not by a control-flow path.
- Erased flash between an `org` and the code in front of it: the word machine is for streams in one piece.
- BankSoundness.BankingSound: regions with a computed jump or a `.table`, whose landing sites the analysis takes on trust, are outside the claim.
- BankAnalysis.Analysis.FuncExitBank: behind a call that never comes back the walk goes on with no bank at all, so that nothing too much is found is stated for texts in which every call can come back.
- Asynchronous interrupts in the banking machine: a handler is a run from its opener at any bank.
- `.pcltbl` page padding in the PIC18 assembler, and the per-opcode encoding tables other than branches.
- Label duplicates: definitions are taken to be distinct, which the assemblers do not check.
- `edge_locs` and the wording of diagnostics.
- `forward_const_loads`, whose rewriting is the one-store case of the store-run splice.
- Fresh names of tables and addresses made by store-run tabling; the copy's address setup is one instruction with no effect of its own.
- va_list values forwarded between variadic functions in the retention walk: a variadic tail is read by `va_arg` only.
- Text parsing in every pass, and the isel, legalize and irparse crates.
