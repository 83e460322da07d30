# Verified models of an allocator, a compiler, a pattern search and a sphere mesh

This project models five pieces of the repository in Dafny and proves what they promise.

- **Heap allocator** (`os/my_malloc.c`). Runs of memory carry headers with parent, left and right links, a
  colour, and a slot bitmap or a size. `RbTree`, `RbWalk`, `RbUnlink` and `RbRemove` work on these links in
  memory, step by step as the source does, and are proved against abstract red-black trees (`RbTreeModel`)
  through zippers: a context and a subtree. On top of them `Allocator` keeps ten bins, a free list and the
  large allocations, proved against a heap model (`HeapModel`, `HeapBlocks`, `FreeList`): which runs exist, which
  tree tracks each, which blocks are live, which run and slot a request gets, and what freed runs merge with.
- **Code generator of a small Pascal compiler** (`compilers/Ast.cpp`, `compilers/TacBuilder.cpp`). The builder
  is a class whose methods append code, create blocks and move the insert block; `AstCodegen` drives it.
  Both are proved equal to code generation as a function (`Codegen`), and that function is proved to preserve
  meaning by a simulation between the syntax tree (`Semantics`) and the blocks of three-address code (`Tac`).
- **Parser of that compiler** (`compilers/Parser.cpp`). The class `Parser` is proved equal to parsing functions
  (`Parsing`), and these are proved to accept exactly the language as coded (`Grammar`), with panic-mode
  recovery on every other input (`ParserFaults`, `SpelledLists`, `ParserRecovery`, `HeadRecovery`,
  `ErrorCounts`, `ErrorTheorems`). A printer gives the round trip.
- **Search for patterns in permutations** (`python/verkefni2/cpattern.py`). The enumeration of bit masks by the
  next-permutation trick, on numbers of any size, and the containment test built on it.
- **Subdivided icosahedron** (`computer_graphics/glengine2/ge2geometry.cpp`). The mesh is a closed
  oriented surface for up to fifteen levels, as long as the midpoint cache agrees with its edges, and for no more
  (`DeepLevels`).

Some properties one might expect do not hold of the code as they stand, and are stated exactly instead. The
parser dereferences a null list on some broken declarations: `ParserFaults.NullListIff` says on which inputs,
`ParserFaults.Safe` gives a condition on the tokens under which it does not, however many errors there are,
`SpelledLists.SpelledSafe` shows that every proper program meets that condition, and `ParserFaults.FaultExample`
is an input on which a null list is dereferenced. One missing token in a main statement is one error only as
long as no compound statement comes before an `else` behind it: `ErrorTheorems.OneErrorIff` and
`ErrorTheorems.ErrorTooMany`. Keys of the midpoint cache are 32 bits per vertex:
`IcoSphere.IcoSphereCreator.Create` is right up to recursion level 15 and for no level beyond, where faces
degenerate. Exported indices have 16 bits: `IcoSphere.ExportExactIff` is the exact bound. The size of a large
request wraps in 32 bits, and what is allocated is then too small: `Allocator.Heap.Malloc` and
`SizeClass.LargeRequestHolds` say when.

Where the code does something its names do not suggest, the model follows the code: the arrays of synchronising
tokens for factors and simple expressions are used with a size that leaves out their last entry
(compilers/Parser.cpp:335-346, compilers/Parser.cpp:664-674), and `a - b - c` nests to the right
(compilers/Parser.cpp:703-719).

`dafny verify dfyconfig.toml` checks the whole project.

## Model

| member | source | states |
|---|---|---|
| RbTreeModel.InorderPlug | os/my_malloc.c:1170-1216 | A position in a tree splits its address order into what lies before, inside and after it; this is why a rotation at any depth leaves the address order of the runs alone. |
| RbTreeModel.HeightBound | os/my_malloc.c:1137-1161 | A red-black tree of black height h is at most 2h+1 high and holds at least 2^h - 1 runs. |
| RbTreeModel.UnplugRedBlack | os/my_malloc.c:1234-1302 | The red-black invariants of a whole tree are exactly available at every position in it: one black height fits the context and the subtree. |
| RunMemory.FocusAt | os/my_malloc.c:1038-1088 | Header links that spell a tree from its root also spell it from any position: parent, left and right links agree with each other. |
| RbTree.CompareRuns | os/my_malloc.c:1127-1145 | Comparison answers 0 exactly when the address lies inside the run, and a positive number exactly when it lies below the run. |
| RbTree.ScanFinds | os/my_malloc.c:1127-1168 | In runs that are ordered and disjoint, a linear scan returns the run that contains an address, whichever it is. |
| RbTree.ScanMisses | os/my_malloc.c:1127-1168 | A linear scan returns null when no run contains the address. |
| RbTree.DoLookup | os/my_malloc.c:1147-1168 | The lookup loop agrees with a linear scan of all runs for every address; on a miss it reports the one position where that address belongs and on which side of its parent; it takes at most as many steps as the tree is high. |
| RbTree.Lookup | os/my_malloc.c:1218-1224 | Lookup of any address in a valid tree returns the unique run that contains it, or null when none does, and 2^(steps/2) is at most the number of runs plus one. |
| RbTree.RotateLeft | os/my_malloc.c:1174-1194 | A left rotation, done by link updates in memory, leaves consistent parent and child links of the rotated tree at that position and touches no header outside this tree. |
| RbTree.RotateRight | os/my_malloc.c:1196-1216 | The mirror image of the left rotation. |
| RbTree.RotationEffectLeft | os/my_malloc.c:1174-1194 | If the links of the four headers involved change as the source writes them, memory spells the rotated subtree in the same context. |
| RbTree.RotationEffectRight | os/my_malloc.c:1196-1216 | The same for the right rotation. |
| RbTree.InsertRound | os/my_malloc.c:1255-1301 | One round of the insertion fix-up keeps address order, contents and the insertion invariant, moves strictly towards the root, rotates at most twice, and needs no further round once it has rotated. |
| RbTree.FixInsert | os/my_malloc.c:1255-1301 | The fix-up loop ends with all red-black invariants restored, the same address order, and at most two rotations in total. |
| RbTree.Insert | os/my_malloc.c:1234-1302 | Insertion returns the run already covering the address and changes nothing, or puts exactly the new run at its place in the address order; every red-black invariant holds afterwards and at most two rotations were done. |
| RbWalk.First | os/my_malloc.c:1089-1094 | The leftmost node holds the lowest address of the subtree. |
| RbWalk.Next | os/my_malloc.c:1103-1113 | From the i-th run in address order the successor is the run i+1, and null after the last; walking from the first run therefore meets every run once, in ascending order. |
| RbUnlink.UnlinkTwo | os/my_malloc.c:1304-1364 | Removing a node with two children moves its in-order successor into its place with the node's own colour, for the adjacent and the distant successor alike, and reports the vacated position and the colour lost there. |
| RbUnlink.UnlinkOne | os/my_malloc.c:1304-1364 | Removing a node with at most one child puts that child (or null) in its place. |
| RbUnlink.UnlinkedEffect | os/my_malloc.c:1318-1352 | The link updates for a node with two children produce a memory that spells the tree without that node, with all parent links right. |
| RbRemove.SiblingExists | os/my_malloc.c:1366-1428 | Whenever the removal fix-up has one black node too few below it, the sibling is not null, and if it is red both its children exist: no null sibling is ever dereferenced. |
| RbRemove.Repair | os/my_malloc.c:1366-1431 | The removal fix-up loop ends, restores every red-black invariant and keeps the address order. |
| RbRemove.RepairRoundLeft | os/my_malloc.c:1368-1396 | One round for a left child: it is finished and repaired, or the missing black node has moved strictly up. |
| RbRemove.RepairRoundRight | os/my_malloc.c:1397-1425 | The mirror image for a right child. |
| RbRemove.SettledRedBlack | os/my_malloc.c:1384-1394 | The final rotation of the removal fix-up, with its three recolourings, restores black heights and leaves no red node with a red child. |
| RbRemove.Remove | os/my_malloc.c:1304-1431 | Removal takes out exactly the given node and keeps all others in order; black root, no red node with a red child, equal black heights and consistent parent links hold afterwards; only links of nodes of this tree change. |
| SizeClass.RoundedRequest | os/my_malloc.c:713-745 | Rounding never shrinks a request; it lands exactly on the slot size of its bin, and requests above 192 bytes, and only those, go to no bin. |
| SizeClass.SlotsFit | os/my_malloc.c:329-336 | Every bin has between 1 and 63 slots, and header plus slots fit the run of its class. |
| SizeClass.SlotGeometry | os/my_malloc.c:375-378 | Every slot lies between the header and the end of its run and is 8-aligned, and the index that freeing computes from a slot address is the index allocation computed it from. |
| SizeClass.SlotsDisjoint | os/my_malloc.c:375-378 | Different slots of a run share no byte. |
| SizeClass.LargeRequestHolds | os/my_malloc.c:381-383 | With 32-bit sizes, the size of a large run holds the request and its header if and only if the request is at most 2^32 - 32, and then it is less than 8 bytes too big; from 2^32 - 31 on it has wrapped to less than a header, from 2^32 - 7 on to exactly a header. |
| Bitmap.ToggleFlips | os/my_malloc.c:856-859 | Toggling a slot flips that bit and no other. |
| Bitmap.ToggleTwice | os/my_malloc.c:856-859 | Allocating and then freeing a slot restores the bitmap. |
| Bitmap.AllBitsSet | os/my_malloc.c:958-966 | A fresh run has every one of its slots free. |
| Bitmap.NoHighBit | os/my_malloc.c:842-854 | A bitmap within range has no bit beyond the slot count. |
| Bitmap.FirstFree | os/my_malloc.c:842-854 | The shift loop returns the highest set bit, and -1 exactly for the empty bitmap. |
| HeapModel.AdjacentBelow | os/my_malloc.c:993-994 | Looking up the byte just below a run finds a run exactly when that run ends there. |
| HeapModel.AdjacentAbove | os/my_malloc.c:1008-1009 | Looking up run + size + 1 finds a run exactly when that run begins right behind, because addresses and sizes are multiples of 8. |
| HeapModel.MergeBelow | os/my_malloc.c:993-1003 | Enlarging the lower neighbour in place keeps the free tree ordered and adds exactly the freed bytes. |
| HeapModel.MergeAbove | os/my_malloc.c:1009-1023 | Replacing the upper neighbour by the joined run adds exactly the freed bytes. |
| HeapModel.UpdateTree | os/my_malloc.c:1234-1431 | Changing the tree of one root leaves the trees of all other roots as they were: no header belongs to two trees. |
| HeapBlocks.SpotsDisjoint | os/my_malloc.c:375-378 | Two different slots or large payloads, in the same run or in different runs, share no byte. |
| HeapBlocks.BlockRun | os/my_malloc.c:747-787 | The run of a live block contains its address exactly when the block is not empty, and then no other run does. |
| Allocator.Heap.MemSbrk | os/my_malloc.c:940-945 | The heap grows contiguously by the size asked for, or not at all. |
| Allocator.Heap.Init | os/my_malloc.c:283-304 | Set-up fails exactly when the bin table does not fit; otherwise the heap is valid and empty. |
| Allocator.Heap.InsertRun | os/my_malloc.c:365-366 | A run outside all trees goes into the tree of its root; all trees stay valid and disjoint. |
| Allocator.Heap.RemoveRun | os/my_malloc.c:426-432 | Exactly the given run leaves its tree; all trees stay valid and disjoint. |
| Allocator.Heap.FreeRunAdd | os/my_malloc.c:988-1029 | A freed run makes the free run that ends at it grow by exactly its size; only if there is none it swallows the free run that begins behind it; and only if there is none either it becomes a free run of its own. Nothing else on the free list changes, runs in use keep their headers, and the free tree stays ordered. |
| FreeList.LowerFirst | os/my_malloc.c:993-1003 | Two neighbouring runs that are given back, the lower one first, end up in one free run, whatever else is free. |
| FreeList.UpperFirst | os/my_malloc.c:993-1023 | The upper one first, they end up in one free run if and only if no free run ends at the lower one, because the source looks above only when there is nothing below. |
| Allocator.Heap.SplitRun | os/my_malloc.c:867-889 | Of 512 bytes or more that are left over, exactly these go back to the free list, next to what touches them; fewer stay with the run and nothing else changes; no byte is lost. |
| Allocator.Heap.FindFit | os/my_malloc.c:900-907 | The scan finds the lowest-addressed free run that is big enough, and null only when there is none. |
| Allocator.Heap.AllocateFreeRun | os/my_malloc.c:897-929 | Address-ordered first fit: when some free run fits, the lowest one is taken out of the free list and its rest is given back; otherwise nothing changes, and no free run fits. |
| Allocator.Heap.RunAllocate | os/my_malloc.c:931-956 | A run comes from the lowest free run that fits, and then the heap does not grow; only when none fits it comes from the end of the heap, which grows by exactly the request; there is none exactly when no free run fits and the heap cannot grow. It overlaps no tracked run. |
| Allocator.Heap.AllocateBinRun | os/my_malloc.c:344-352 | A new run for a bin, obtained like any other run, has all slots free and its class's size; the bytes it is too big by, fewer than 512, are the only ones that drop out of the books. |
| Allocator.Heap.GetAvailable | os/my_malloc.c:972-982 | The first run in address order with a free slot, and null only when every run of the bin is full. |
| Allocator.Heap.AddBinRun | os/my_malloc.c:343-367 | The new run becomes the root of an empty bin, or is inserted into its tree; it comes from the lowest free run that fits or else from the end of the heap, and all runs in use before stay as they were. |
| Allocator.Heap.TakeSlot | os/my_malloc.c:369-378 | In a run that is not full a slot is always found, the highest free one, so the branch for "no free slots" is never taken; the block handed out was not live before, and only its bit changes. |
| Allocator.Heap.OpenRun | os/my_malloc.c:343-367 | The run a small block comes from: the first of the bin with a free slot, and then nothing changes; a new run only when every run of the bin is full. |
| Allocator.Heap.MallocSmall | os/my_malloc.c:329-378 | If a run of the bin has a free slot, the first such run gives its highest free slot and neither the heap nor any other run changes; only if none has, a new run is set up, from the lowest free run that fits or else from the end of the heap, and gives its last slot. It fails exactly when every run of the bin is full and no new run can be had. |
| Allocator.Heap.MallocLarge | os/my_malloc.c:381-397 | A large request fails exactly when no run of its rounded size can be had; else its run comes from the lowest free run that fits, and only when none does from the end of the heap. Up to 2^32 - 32 bytes a fresh block of at least that size results; from 2^32 - 7 bytes on the block is too small, with room for fewer than 512 bytes. |
| Allocator.Heap.Malloc | os/my_malloc.c:310-398 | Null exactly for 0 bytes or when memory runs out, and then nothing changed; otherwise an 8-aligned block that was not live before, all other blocks untouched, and the tracked bytes grown by exactly the heap growth less at most 511 slack bytes. The block comes from a free slot of its bin if there is one, and the heap grows only when no free run fits. Up to 2^32 - 32 bytes it is at least as big as asked for; from 2^32 - 7 bytes on it never is. |
| Allocator.Heap.FindNodeTree | os/my_malloc.c:747-787 | The search through bins and large allocations finds the run in use that contains the address, and fails only when there is none. |
| Allocator.Heap.IsEmpty | os/my_malloc.c:861-865 | A bin run counts as empty exactly when all its slots are free, that is, when no live block lies in it. |
| Bitmap.AllSetIff | os/my_malloc.c:861-865 | Among the bitmaps of n slots, 2^n - 1 is the one with every slot free. |
| HeapBlocks.EmptyRun | os/my_malloc.c:861-865 | All slots of a bin run are free if and only if no live block lies in it. |
| Allocator.Heap.ReleaseRun | os/my_malloc.c:424-434 | The whole run goes to the free list, merged with what touches it as above; nothing in use changes and no byte is lost. |
| Allocator.Heap.FreeSlot | os/my_malloc.c:418-428 | The slot is taken back and only its bit changes while the run holds other blocks; with its last block the run goes to the free list, so every bin run keeps a live block. |
| Allocator.Heap.Free | os/my_malloc.c:405-435 | Exactly the given block stops being live and all other blocks keep place and size; an address in no run in use changes nothing, and an empty block is never taken back. A slot comes back alone while its run holds other blocks; else the whole run goes to the free list and merges there as a freed run does. Tracked bytes are conserved. |
| Allocator.Heap.BlocksApart | os/my_malloc.c:310-435 | Whenever the heap is valid, live blocks are 8-aligned, inside the heap, pairwise disjoint, and overlap neither a header nor a free run. |
| Allocator.Heap.AllFreedEmpties | os/my_malloc.c:405-435 | Once every block is freed, every bin tree and the tree of large allocations is empty. |
| Allocator.FreeNeighbours | os/my_malloc.c:310-435 | When two blocks that fill neighbouring runs are freed, the lower one first, a request that fits into both runs together succeeds and the heap does not grow. |
| Allocator.Serve | os/my_malloc.c:310-435 | Any sequence of allocations and releases of live blocks keeps the heap valid at every step: every block that was allocated and not released is live, at an address of its own, with room for what its request asked for; a client that frees everything leaves empty bins. |
| Names.DecimalInjective | compilers/TacBuilder.cpp:150-155 | Two counters print the same only when they are equal. |
| Names.TempNameInjective | compilers/TacBuilder.cpp:150-159 | Temporaries made at different counts have different names. |
| Names.BlockLabelInjective | compilers/TacBuilder.cpp:104-114 | Blocks named at different counts have different names. |
| Names.TempLabelInjective | compilers/TacBuilder.cpp:682-689 | Labels made at different counts differ. |
| Names.InventedApart | compilers/TacBuilder.cpp:104-159 | No invented name is a name a program can contain, and block names and labels never coincide. |
| Tac.JumpTo | compilers/TacBuilder.cpp:486-502 | When targets are unique, a jump to a label goes to the one block or mark that carries it. |
| ExpressionProof.CmpComputes | compilers/TacBuilder.cpp:486-592 | The six instructions of a comparison, with their two in-block labels, leave 1 or 0 in a fresh temporary exactly as the relation holds. |
| ExpressionProof.BinaryComputes | compilers/TacBuilder.cpp:371-484 | A binary operation leaves its result in a fresh temporary and nothing else changes, or traps when the operator does. |
| ExpressionProof.ExpressionComputes | compilers/Ast.cpp:62-117 | Running the code of an expression reaches the end of that code with the value of the expression in the returned operand, user variables and earlier temporaries intact, and traps exactly when evaluation does. |
| ExpressionProof.TermComputes | compilers/Ast.cpp:276-306 | The same for terms. |
| ExpressionProof.FactorComputes | compilers/Ast.cpp:119-145 | The same for factors. |
| Codegen.ValueOfDecimal | compilers/Token.cpp:94-103 | The decimal text of a number is read as that number. |
| Codegen.ValueOfConcat | compilers/Token.cpp:94-103 | Digits in front of others count by their place, so leading zeros count for nothing. |
| Codegen.LiteralCode | compilers/Ast.cpp:119-127 | A literal with the decimal text of n is compiled to the constant n. |
| Calls.ArgumentsCompute | compilers/Ast.cpp:51-60 | Running the code of an argument list leaves the value of every argument in its operand, none disturbed by a later one, and traps exactly when one of them does. |
| Calls.CallPushes | compilers/TacBuilder.cpp:354-369 | Running the code of a call, execution traps when an argument does; otherwise it comes to the call, and what was pushed just before are the values of the arguments, in order. |
| BlockFrame.StatementFrame | compilers/Ast.cpp:180-243 | Generating a statement changes only the insert block and new blocks of the same function, and of all these leaves exactly the new insert block without a terminator. |
| StatementProof.StatementRuns | compilers/Ast.cpp:180-243 | For any fuel, running the emitted blocks from the old insert point follows the statement: to the end of the new insert block with agreeing variables, to a trap, or for at least that many steps. |
| StatementProof.IfRuns | compilers/Ast.cpp:209-226 | The three blocks of an if run the branch the test selects and join behind it. |
| StatementProof.LoopRuns | compilers/Ast.cpp:228-243 | Every turn of a while loop goes through the evaluation block; the loop leaves by the end block exactly when the test yields zero. |
| StatementProof.BneRuns | compilers/TacBuilder.cpp:670-680 | Branch-if-not-equal continues in the named block or in the new one, by the value of the operand. |
| Labels.ExpressionLabels | compilers/Ast.cpp:62-145 | Code of expressions keeps targets unique and jumps closed. |
| Labels.StatementLabels | compilers/Ast.cpp:180-243 | Statements keep every label unique, made by the counter or by the program, and every jump aimed at a block or label that exists. |
| Preservation.StatementPreserved | compilers/Ast.cpp:180-243 | For every call-free, index-free statement and store: the emitted blocks halt exactly when the statement terminates, at the end of the new insert block and with the same user variables; they trap exactly when it traps and run forever exactly when it diverges. |
| Subprograms.SubprogramCompleted | compilers/Ast.cpp:245-267 | A finished subprogram changes no earlier block, restores the old insert block, and leaves none of its own blocks without a terminator. |
| Subprograms.SubprogramsCompleted | compilers/Ast.cpp:269-274 | The same for any list of subprograms, nested ones included. |
| Subprograms.ProgramClosed | compilers/Ast.cpp:163-178 | In the code of a whole program every jump goes to exactly one block or label, and the main insert block is the only block without a terminator. |
| Subprograms.VariablesSeen | compilers/Ast.cpp:147-178 | The variables a program declares can all be looked up from its main block, past all subprograms. |
| Subprograms.ProgramPreserved | compilers/Ast.cpp:163-178 | The code of a whole program, run from its first block, behaves as its main statement does on the declared variables, whatever subprograms stand in between. |
| SubprogramBodies.BodySees | compilers/Ast.cpp:245-256 | From inside a subprogram its variables are found, its own name, and every name that is found around it. |
| SubprogramBodies.SubprogramPreserved | compilers/Ast.cpp:245-267 | In any code that contains a subprogram, running from its first block does what its body does on the variables it sees: it halts exactly when the body ends, before the return in a block of the new function, traps exactly when the body does, and runs forever exactly when the body does. |
| SubprogramBodies.ProgramSubprogramPreserved | compilers/Ast.cpp:163-178 | The same for every subprogram of a whole program, for bodies over the program's variables, the subprogram's own and its name. |
| TacBuilder.TacBuilder.constructor | compilers/TacBuilder.cpp:252-266 | A new builder has the program function with `writeln` in its symbol list, and no insert block. |
| TacBuilder.TacBuilder.SetInsertBlock | compilers/TacBuilder.cpp:278-281 | The insert block moves and nothing else changes. |
| TacBuilder.TacBuilder.CreateBasicBlock | compilers/TacBuilder.cpp:299-317 | A block is added to the given function, or to the owner of the insert block; the very first belongs to the program function and becomes the insert block; a block without a name gets the next counter. |
| TacBuilder.TacBuilder.NewFunction | compilers/TacBuilder.cpp:340-347 | A function is added below the owner of the insert block, or below the program function before any block exists, and entered in its symbol list. |
| TacBuilder.TacBuilder.NewTemporary | compilers/TacBuilder.cpp:150-159 | A fresh temporary is entered in the symbol list of the current function. |
| TacBuilder.TacBuilder.CreateLabel | compilers/TacBuilder.cpp:682-689 | The label carries the next value of the counter. |
| TacBuilder.TacBuilder.NewBinary | compilers/TacBuilder.cpp:371-484 | The builder state afterwards is the one the code generation function gives for a binary operation. |
| TacBuilder.TacBuilder.NewUnary | compilers/TacBuilder.cpp:444-462 | The same for negation and not. |
| TacBuilder.TacBuilder.NewCmp | compilers/TacBuilder.cpp:486-592 | The same for comparisons: two labels are drawn before the code is appended. |
| TacBuilder.TacBuilder.NewBr | compilers/TacBuilder.cpp:594-597 | The same for a jump. |
| TacBuilder.TacBuilder.NewBne | compilers/TacBuilder.cpp:670-680 | The same for a conditional branch, with the new block that follows it. |
| TacBuilder.TacBuilder.LookupSymbol | compilers/TacBuilder.cpp:195-209 | The loops through symbols and parents find what the recursive search defines: the first match of the innermost function that has one. |
| TacBuilder.TacBuilder.LookupIdentifier | compilers/TacBuilder.cpp:349-352 | An identifier is looked up from the owner of the insert block. |
| TacBuilder.TacBuilder.NewCall | compilers/TacBuilder.cpp:354-369 | Parameters are emitted in order before the call; only functions yield a value. |
| AstCodegen.GenerateExpression | compilers/Ast.cpp:62-117 | The ordered side effects on the builder add up to the code generation function of expressions, with the same operand. |
| AstCodegen.GenerateTerm | compilers/Ast.cpp:276-306 | The same for terms. |
| AstCodegen.GenerateFactor | compilers/Ast.cpp:119-145 | The same for factors, calls and negations. |
| AstCodegen.GenerateExpressions | compilers/Ast.cpp:51-60 | The same for argument lists, in order. |
| AstCodegen.GenerateStatement | compilers/Ast.cpp:180-207 | The same for assignments, calls and compound statements. |
| AstCodegen.GenerateIf | compilers/Ast.cpp:209-226 | The same for if: three blocks are created before the test is emitted and filled afterwards. |
| AstCodegen.GenerateWhile | compilers/Ast.cpp:228-243 | The same for while: the body is generated before the test. |
| AstCodegen.GenerateStatements | compilers/Ast.cpp:195-200 | The same for statement lists. |
| AstCodegen.GenerateDeclarations | compilers/Ast.cpp:147-161 | The same for declarations. |
| AstCodegen.GenerateSubprogram | compilers/Ast.cpp:245-267 | The same for a subprogram, with the insert block put back. |
| AstCodegen.GenerateSubprograms | compilers/Ast.cpp:269-274 | The same for subprogram lists. |
| AstCodegen.GenerateProgram | compilers/Ast.cpp:163-178 | The builder ends in the state that the theorems on whole programs speak about: every jump has exactly one target, and only the insert block lacks a terminator. |
| Parsing.Match | compilers/Parser.cpp:64-72 | Matching succeeds exactly on the wanted kind and then consumes one token; otherwise nothing changes. |
| Parsing.Skip | compilers/Parser.cpp:74-89 | Panic-mode skipping stops at a synchronising token or at the end of the input, and passes over no synchronising token. |
| Parsing.Panic | compilers/Parser.cpp:74-89 | After skipping the parser is recovering, with the same number of errors. |
| Parsing.Parse | compilers/Parser.cpp:57-62 | On every input whatsoever the parsing itself comes to an end (printing an error message apart), and then it signals an error exactly when it has counted one. |
| ParserSound.ExpressionSound | compilers/Parser.cpp:272-297 | If no error was counted, an expression is present and the consumed tokens spell it. |
| ParserSound.FactorSound | compilers/Parser.cpp:335-434 | The same for factors with calls and indices. |
| ParserSound.StatementSound | compilers/Parser.cpp:746-862 | The same for statements. |
| ParserSound.DeclarationsSound | compilers/Parser.cpp:214-270 | The same for declarations. |
| ParserSound.SubprogramsSound | compilers/Parser.cpp:945-975 | The same for subprograms. |
| ParserSound.ProgramSound | compilers/Parser.cpp:582-662 | If no error was counted, the program is not null, every required child is present, and the consumed tokens derive from the grammar as coded, trailing commas in argument lists included. |
| ParserComplete.ExpressionAccepted | compilers/Parser.cpp:272-297 | Tokens that spell an expression and are followed by something that can follow one are parsed to that expression, without an error. |
| ParserComplete.FactorAccepted | compilers/Parser.cpp:335-434 | The same for factors. |
| ParserComplete.StatementAccepted | compilers/Parser.cpp:746-862 | The same for statements. |
| ParserComplete.SubprogramsAccepted | compilers/Parser.cpp:945-975 | The same for subprograms. |
| ParserComplete.ProgramAccepted | compilers/Parser.cpp:582-662 | Tokens that spell a program are parsed to that program without an error, and exactly these tokens are consumed. |
| ParserTheorems.ParserExact | compilers/Parser.cpp:582-662 | The parser returns a program without errors if and only if the tokens spell that program. |
| ParserTheorems.ParserSoundness | compilers/Parser.cpp:47-117 | A run without errors yields a complete program, the tokens up to where it stopped spell it, and no null list was dereferenced. |
| ParserTheorems.SpellingUnambiguous | compilers/Parser.cpp:582-1137 | A token sequence spells at most one program and ends it at one place. |
| ParserFaults.NullListIff | compilers/Parser.cpp:119-160 | The parser dereferences a null list if and only if one of the lists of names it reads begins, in an argument list, with something else than a name, while the first colon, semicolon or closing parenthesis from there on is a colon followed by `array`, `integer` or `real`; or does so in a declaration part and the type ends before a semicolon. |
| ParserFaults.Safe | compilers/Parser.cpp:214-270 | If no such spot stands behind a `var` or in the argument list that begins behind a `function` or `procedure`, the parser never dereferences a null list, whatever errors the input contains. |
| ParserFaults.DeclarationFaults | compilers/Parser.cpp:223-270 | Reading a declaration part, with any number of groups of names, dereferences a null list if and only if one of its groups lacks its names in this way; where it stops depends on the tokens alone. |
| ParserFaults.ArgumentListFaults | compilers/Parser.cpp:119-160 | The same if and only if for argument lists. |
| ParserFaults.HeadFaults | compilers/Parser.cpp:982-1031 | The head of a subprogram dereferences a null list if and only if its argument list does. |
| ParserFaults.SubprogramsFaults | compilers/Parser.cpp:945-975 | Subprograms dereference a null list if and only if one of the lists read in their heads and declaration parts is null in this way, whatever goes wrong in their bodies. |
| ParserFaults.ProgramFaults | compilers/Parser.cpp:587-662 | Behind a proper heading a null list among the variables of the program is dereferenced; if no subprogram follows them, there is no other way. |
| ParserFaults.FaultExample | compilers/Parser.cpp:57-62 | A whole input, `program x ( x ) ; var = : integer ;`, on which the parser dereferences a null list. |
| ParserRecovery.TermStep | compilers/Parser.cpp:1044-1058 | After a factor no error is left to handle, on any input and from any state: a term never skips, and its list of synchronising tokens is never used. |
| ParserRecovery.SimpleStep | compilers/Parser.cpp:675-701 | Nor does a simple expression ever skip. |
| ParserRecovery.ListStep | compilers/Parser.cpp:872-890 | Nor does a list of statements. |
| ParserRecovery.OptionalStep | compilers/Parser.cpp:564-580 | Nor do optional statements. |
| ParserRecovery.SubprogramStep | compilers/Parser.cpp:909-935 | Nor does a subprogram, after its head, its declarations or its body. |
| ParserRecovery.FactorMissing | compilers/Parser.cpp:347-399 | Where a factor should begin and does not, one error is counted and the parser goes on to the first operator, relation, `do`, `end`, period, semicolon or end of input. |
| ParserRecovery.FactorUnclosed | compilers/Parser.cpp:358-374 | The same, from where the closing parenthesis of an expression is missing. |
| ParserRecovery.CallUnclosed | compilers/Parser.cpp:405-425 | The same, from where the closing parenthesis of a call is missing. |
| ParserRecovery.IndexUnclosed | compilers/Parser.cpp:509-529 | From where the closing bracket of an index is missing, the parser goes on to the first assignment sign, operator, `end`, period, semicolon or end of input. |
| ParserRecovery.StatementMissing | compilers/Parser.cpp:754-840 | Where a statement should begin and does not, one error is counted and the parser goes on to the first `end`, period, semicolon or end of input. |
| ParserRecovery.ThenMissing | compilers/Parser.cpp:756-776 | The same, from where `then` is missing. |
| ParserRecovery.DoMissing | compilers/Parser.cpp:795-815 | The same, from where `do` is missing. |
| ParserRecovery.ElseMissing | compilers/Parser.cpp:777-793 | The same, from where `else` is missing. |
| ParserRecovery.ValueBroken | compilers/Parser.cpp:842-862 | An error at the beginning of an assigned value, from which the parser recovers at the end of the statement, ends the statement there with that one error. |
| ParserRecovery.BeginMissing | compilers/Parser.cpp:184-190 | Where a compound statement should begin and does not, one error is counted and the parser goes on to the first period, semicolon or end of input. |
| ParserRecovery.EndMissing | compilers/Parser.cpp:184-210 | The same, from where its `end` is missing. |
| HeadRecovery.NamesMissing | compilers/Parser.cpp:457-463 | Where a list of names should begin and does not, one error is counted and the parser goes on to the first colon, semicolon, closing parenthesis or end of input. |
| HeadRecovery.BracketMissing | compilers/Parser.cpp:1078-1086 | From where the bracket of an array type is missing, the parser goes on to the first `begin`, `function`, `procedure`, semicolon or end of input. |
| HeadRecovery.ColonMissing | compilers/Parser.cpp:223-240 | From where the colon behind variables is missing, the parser goes on to the first `var`, `procedure`, `function`, `begin` or end of input, with one more error. |
| HeadRecovery.TypeMissing | compilers/Parser.cpp:223-246 | The same, from where the type of variables is missing. |
| HeadRecovery.VariablesUnended | compilers/Parser.cpp:223-253 | The same, from where the semicolon behind variables is missing. |
| HeadRecovery.HeadUnnamed | compilers/Parser.cpp:982-996 | From where the name of a subprogram is missing, the parser goes on to the first `begin`, `var`, period or end of input, with one more error. |
| HeadRecovery.HeadUnclosed | compilers/Parser.cpp:982-1004 | The same, from where the closing parenthesis of its arguments is missing. |
| HeadRecovery.ResultMissing | compilers/Parser.cpp:1005-1022 | The same, from where the colon or the type of its result is missing. |
| HeadRecovery.HeadUnended | compilers/Parser.cpp:1024-1031 | The same, from where the semicolon of the head is missing. |
| HeadRecovery.SubprogramUnended | compilers/Parser.cpp:945-960 | From where the semicolon behind a subprogram is missing, the parser goes on to the first `begin`, period or end of input, with one more error. |
| HeadRecovery.HeadingMissing | compilers/Parser.cpp:587-607 | When `program`, its name or the parenthesis is missing, one error is counted, there is no program, and the rest of the input is skipped. |
| HeadRecovery.HeadingUnended | compilers/Parser.cpp:608-627 | The same when the closing parenthesis or the semicolon of the heading is missing. |
| HeadRecovery.PeriodMissing | compilers/Parser.cpp:647-655 | The same when only the final period is missing. |
| ErrorCounts.PieceParsed | compilers/Parser.cpp:754-862 | A statement that lacks a `then`, `do`, `else`, an assigned value, its closing parenthesis, or everything, counts as one error, and the parser stands at the end of that statement. |
| ErrorCounts.BlockSkips | compilers/Parser.cpp:184-210 | While recovering from an error, a compound statement is not left at its `end`: the parser goes on to the first period, semicolon or end of input. |
| ErrorCounts.Overshoots | compilers/Parser.cpp:754-840 | So, while recovering, a branch with a compound statement in it is not left before its `else`, unless another error was counted in it. |
| ErrorCounts.StatementPasses | compilers/Parser.cpp:754-862 | While recovering, parsing any statement of the main list, or inside it, passes that statement and perhaps some that follow, with one error for each that lacks a token; or it counts an error too many, and then a compound statement before an `else` is among them. |
| ErrorTheorems.ListRecovers | compilers/Parser.cpp:872-900 | A list in which any number of statements lack a token counts exactly one error for each of them and is read to its end; unless behind the first of them a compound statement comes before an `else`, when there are more errors than one. |
| ErrorTheorems.ProgramRecovers | compilers/Parser.cpp:582-662 | A whole program, right up to its main statement, in which any number of main statements lack a token: exactly one error for each of them, all tokens consumed to the period, and the program without its main statement as the result, under the same condition. |
| ErrorTheorems.OneErrorIff | compilers/Parser.cpp:582-662 | When one main statement lacks a token, exactly one error is counted if and only if behind it no compound statement comes before an `else`. |
| ErrorTheorems.ErrorTooMany | compilers/Parser.cpp:764-793 | A whole input, `program x ( x ) ; begin while x ; if x then begin end else x end .`, on which one `do` is missing and more than one error is counted. |
| ErrorTheorems.ProgramAfterLost | compilers/Parser.cpp:945-975 | A whole program in which the semicolon behind a subprogram is missing: one error, that subprogram is lost, the main statement is found and read to the period, and those of its statements that lack a token count one error each, as long as no compound statement in it comes before an `else`. |
| SpelledLists.ProgramPresent | compilers/Parser.cpp:582-662 | From the first token of a spelled program to its last, no list of names is missing behind a `var` or in the head of a subprogram, whatever follows the program. |
| SpelledLists.SpelledSafe | compilers/Parser.cpp:57-62 | Every token sequence that spells a whole program, and every printed program, meets the condition of `ParserFaults.Safe`. |
| SpelledLists.FirstWrongPlace | compilers/Parser.cpp:945-980 | Behind a heading, variables and subprograms that are spelled right, tokens alone decide: no null list is dereferenced if no further subprogram begins there; one is if the head that begins there lacks a list of names, or is spelled right and the variables behind it lack one. |
| Printer.ExpressionSpelled | compilers/Parser.cpp:272-297 | What the printer writes for an expression, wherever it stands, spells that expression. |
| Printer.StatementSpelled | compilers/Parser.cpp:746-862 | The same for statements. |
| Printer.ProgramSpelled | compilers/Parser.cpp:582-662 | What the printer writes for a program spells that program. |
| Printer.ParsePrint | compilers/Parser.cpp:582-1137 | Parsing what the printer writes returns the same tree with no error, consuming exactly what was printed, whatever follows. |
| Printer.PrintInjective | compilers/Parser.cpp:582-1137 | No two distinct trees share a printed form, nor is one form the beginning of another. |
| ParserRun.Parser.constructor | compilers/Parser.cpp:41-45 | A new parser stands at the first token with no error. |
| ParserRun.Parser.Error | compilers/Parser.cpp:47-50 | `error()` holds exactly when `errorCount()` is positive, throughout every run. |
| ParserRun.Parser.NextToken | compilers/Parser.cpp:64-72 | The next token becomes current; at the end the end-of-file token repeats. |
| ParserRun.Parser.Match | compilers/Parser.cpp:64-72 | The object moves exactly as the matching function says. |
| ParserRun.Parser.Panic | compilers/Parser.cpp:74-89 | The skipping loop stops where the skipping function says and sets the recovering code. |
| ParserRun.Parser.ReportError | compilers/Parser.cpp:91-117 | The code is set and the count goes up by one. |
| ParserRun.Parser.ParseProgram | compilers/Parser.cpp:587-662 | Fields and tree end up exactly as the parsing function says, and the recursion ends because the input left gets smaller on every cycle. Each parse method of the source has its method in the class with a contract of this form. |
| ParserRun.Parser.Parse | compilers/Parser.cpp:57-62 | A run of the parser object ends without errors, with a given program, if and only if the tokens spell that program, and then it stops where the spelling ends; it dereferences a null list exactly when it reads one, and never on an input where no list of names is missing. |
| Masks.LowestOne | python/verkefni2/cpattern.py:18-19 | `v & -v`, with the remainder as Python computes it, is the lowest set bit, for masks of any width. |
| Masks.FillAndCarry | python/verkefni2/cpattern.py:18 | Filling the zeros below the lowest set bit and adding one adds the lowest set bit: the block of ones at the bottom carries one place up. |
| Masks.NextMaskValue | python/verkefni2/cpattern.py:18-19 | One step of the bit trick replaces the lowest block of q ones by one carried bit and q - 1 ones at the very bottom. |
| Masks.NextMaskOnes | python/verkefni2/cpattern.py:18-19 | The step keeps the number of ones. |
| Masks.NextMaskLeast | python/verkefni2/cpattern.py:18-19 | No number strictly between a mask and the next one has the same number of ones. |
| Selector.Step | python/verkefni2/cpattern.py:17-20 | From every mask but the end state, the step gives the least larger n-bit mask with as many ones. |
| Selector.MasksExact | python/verkefni2/cpattern.py:14-20 | The reference list holds exactly the masks in a range with k ones, each once, in strictly increasing order. |
| Selector.FirstAndLast | python/verkefni2/cpattern.py:13-14 | The n-bit masks with k ones begin with 2^k - 1 and end with (2^k - 1) << (n - k), for every k from 0 to n. |
| Selector.Select | python/verkefni2/cpattern.py:6-12 | The inner loop picks the values at the set bits, in order. |
| Selector.Choices | python/verkefni2/cpattern.py:3-20 | The generator yields the selection of every n-bit mask with exactly k ones, each once, in increasing order of masks; it raises a value error exactly when k exceeds n. |
| Patterns.NormalizeRanks | python/verkefni2/cpattern.py:23-25 | Normalising replaces every value by the number of smaller ones. |
| Patterns.NormalizeIsomorphic | python/verkefni2/cpattern.py:23-25 | A normalised list is order-isomorphic to the original, repeated values included. |
| Patterns.NormalizesIff | python/verkefni2/cpattern.py:23-25 | A list normalises to a pattern if and only if the pattern is its own normal form and the two are order-isomorphic. |
| Patterns.PermutationNormal | python/verkefni2/cpattern.py:23-25 | Every permutation of 0..k-1 is its own normal form. |
| Patterns.ChoicesAreSubsequences | python/verkefni2/cpattern.py:3-20 | The choices of k values are exactly the subsequences of length k. |
| Patterns.ContainsPattern | python/verkefni2/cpattern.py:28-36 | The search answers true if and only if some subsequence normalises to the pattern, patterns longer than the list included. |
| Patterns.ContainmentIff | python/verkefni2/cpattern.py:28-36 | For any pattern at all: contained if and only if the pattern is its own normal form and some subsequence is order-isomorphic to it. |
| Patterns.PermutationContainment | python/verkefni2/cpattern.py:28-36 | For a permutation of 0..k-1: contained if and only if some subsequence is order-isomorphic to it; the values need not be distinct. |
| Icosahedron.ClosedIcosahedron | computer_graphics/glengine2/ge2geometry.cpp:73-99 | The twenty faces form a closed oriented surface on twelve vertices. |
| Mesh.SubdividedSurface | computer_graphics/glengine2/ge2geometry.cpp:101-115 | Replacing every face by four, with one new vertex per edge, turns a closed oriented surface into a closed oriented surface: indices valid, every directed edge once, its reverse once, no two faces sharing two edges. |
| Mesh.PartTwin | computer_graphics/glengine2/ge2geometry.cpp:106-113 | Every new directed edge has its reverse, in the half of the neighbouring face or inside the same face. |
| Mesh.PartsDiffer | computer_graphics/glengine2/ge2geometry.cpp:106-113 | No two new directed edges have the same ends. |
| EdgeCount.EdgesOfSurface | computer_graphics/glengine2/ge2geometry.cpp:101-115 | A closed oriented surface has one and a half times as many edges as faces. |
| MidpointCache.KeyInjective | computer_graphics/glengine2/ge2geometry.cpp:175 | Below 2^32 vertices two vertex pairs have the same key only when they are the same edge. |
| MidpointCache.KeysApartIff | computer_graphics/glengine2/ge2geometry.cpp:175 | Keys tell all edges among n vertices apart if and only if n is at most 2^32. |
| MidpointCache.KeyCollision | computer_graphics/glengine2/ge2geometry.cpp:175 | With one vertex more, two different vertex pairs share a key. |
| MidpointCache.HitIsTwin | computer_graphics/glengine2/ge2geometry.cpp:177-180 | The cache hits exactly when the twin of the side was met earlier at the same level, and then returns the midpoint made for that twin. |
| MidpointCache.LevelEnds | computer_graphics/glengine2/ge2geometry.cpp:101-115 | At the end of a level every edge has one midpoint, shared by its two sides only, and there is one new vertex per edge. |
| MidpointCache.StartFresh | computer_graphics/glengine2/ge2geometry.cpp:101-115 | Entries left over from earlier levels never hit: every edge of the new level has an end that they do not know. |
| IcoSphere.IcoSphereCreator.AddVertex | computer_graphics/glengine2/ge2geometry.cpp:167-171 | The vertex is appended and its index returned. |
| IcoSphere.IcoSphereCreator.GetMiddlePoint | computer_graphics/glengine2/ge2geometry.cpp:173-194 | A cached midpoint is returned unchanged; otherwise the middle of the two vertices is appended and cached. |
| IcoSphere.IcoSphereCreator.AddIcosahedron | computer_graphics/glengine2/ge2geometry.cpp:51-99 | Twelve vertices and the twenty faces are entered. |
| IcoSphere.IcoSphereCreator.SubdivideLevel | computer_graphics/glengine2/ge2geometry.cpp:101-115 | One level yields the subdivision of the old faces by the middles of their sides, at any depth; as long as keys are distinct there is exactly one middle per edge, placed in the middle of its edge, and the surface stays closed and oriented. |
| IcoSphere.IcoSphereCreator.MiddlesOfFace | computer_graphics/glengine2/ge2geometry.cpp:106-108 | The three sides of a face get existing or new middles; sides with the same key get the same one, and a face all of whose neighbours come later gets three new ones in a row. |
| DeepLevels.KeysClash | computer_graphics/glengine2/ge2geometry.cpp:175 | For vertices i, i + 1, i + 2 with i even and between 2^32 and 2^33, the edges from i + 2 to the other two have the same key. |
| DeepLevels.LateHalves | computer_graphics/glengine2/ge2geometry.cpp:104-113 | If the neighbour across a side comes later in the list of faces, so do the neighbours across both its halves after subdivision. |
| DeepLevels.LateInner | computer_graphics/glengine2/ge2geometry.cpp:110-113 | The middle face of a subdivision comes after the faces at the corners. |
| DeepLevels.ClashAfterFifteen | computer_graphics/glengine2/ge2geometry.cpp:101-115 | After the fifteenth level some face has two sides with the same key. |
| DeepLevels.TwistedNext | computer_graphics/glengine2/ge2geometry.cpp:101-115 | The next level gives these two sides one middle, and so a face with the same corner twice. |
| DeepLevels.DegenerateNext | computer_graphics/glengine2/ge2geometry.cpp:101-115 | From then on every level has such a face. |
| IcoSphere.IcoSphereCreator.Create | computer_graphics/glengine2/ge2geometry.cpp:51-116 | For every recursion level d the mesh has 20*4^d faces; it is a closed oriented surface if and only if d is at most 15, and then it has 30*4^d edges and 10*4^d + 2 vertices. |
| IcoSphere.CountsNext | computer_graphics/glengine2/ge2geometry.cpp:101-115 | The counts of faces and vertices go from one depth to the next. |
| IcoSphere.EulerCharacteristic | computer_graphics/glengine2/ge2geometry.cpp:51-116 | Vertices minus edges plus faces is 2 at every depth. |
| IcoSphere.IcoSphereCreator.Indices | computer_graphics/glengine2/ge2geometry.cpp:28-37 | The exported list holds the three corners of every face in order, narrowed to 16 bits. |
| IcoSphere.ExportExactIff | computer_graphics/glengine2/ge2geometry.cpp:28-37 | Narrowing changes no exported index if and only if there are at most 65536 vertices. |
| IcoSphere.ExactDepths | computer_graphics/glengine2/ge2geometry.cpp:28-37 | That is the case exactly up to depth 6. |

## Left out

- Raw byte layout of run headers, overlapping fields and pointer casts: headers are records with named fields.
- `1 << slot` as an `int` shift (os/my_malloc.c:858, os/my_malloc.c:864, os/my_malloc.c:961): bitmaps are mathematical numbers, so the overflow for bins with 61 and 63 slots is not captured.
- Allocator.Heap.Malloc: does not cover requests from 2^32 - 31 to 2^32 - 8 bytes. Their size wraps to 0, 8 or 16 bytes (`SizeClass.LargeRequestHolds`), less than the 24-byte header that the source then writes over whatever follows, or, for 0 bytes, over a free run that it also returns to the free list; headers as separate records cannot express that.
- Allocator.Heap.Free: the pointer is a live block with room for something, or lies in no run in use, as the source demands of its callers; a pointer into the middle of a run in use is not modelled, nor is the empty block of a wrapped request when another run in use begins at its address.
- Allocator.Heap.FreeRunAdd: does not claim full coalescing, because the source returns after joining the lower neighbour and does not look above.
- Allocator.Heap.AllocateBinRun: does not claim that slack bytes are ever recovered, because the source forgets them.
- The three root variables (bins, free list, large allocations) are one map from root to address; `mem_sbrk` is modelled by a break and a limit.
- `mm_realloc`, `rbtree_replace`, `rbtree_last`, `rbtree_prev`, the printers and `mm_check`.
- What a called subprogram does to its caller, and arrays and reals in generated code: they are generated as the source does and arguments are pushed as they should be (`Calls`), but preservation covers call-free, index-free integer statements, in the main program and in subprograms. Parameters are never entered in the symbol list and indices are ignored by the source.
- Integer width in generated code: numbers are mathematical and both sides use the same operator functions.
- Scoping at run time: variables live in one store by name. Names in it are those of one function's declarations.
- Flat text output of three-address code and the unused `createBrCond`, `createBeq` and their relatives.
- Uninitialised fields of the C++ classes: a negation flag, an array flag and a function flag read as false, a missing parent as none.
- ParserFaults.NullListIff: which lists the parser reads behind the body of a subprogram is said by where the parser stands after that body, because recovery inside a body is part of the parser itself; everything else in the condition is about tokens.
- What becomes of a whole program after an error in its variables or in the head of a subprogram: where the parser goes on is stated for each place (`HeadRecovery`), whole programs for errors in main statements and behind a subprogram (`ErrorTheorems`).
- After a null list is dereferenced the model records a fault and goes on with an empty list; what the program then does is not claimed.
- The scanner. The parser's input is any finite token sequence followed by end-of-file for ever, where operator tokens carry an operator of their kind (`Tokens.AllScanned`).
- The printing of error messages. Its loop that underlines the current token (compilers/Parser.cpp:110-112) takes the length of the token's text minus one as an unsigned number, so it runs far beyond the text, or does not end, when the text is empty, as at the end of the input; termination is claimed for the parsing alone.
- Laziness of the Python generator: its yields are one list. Values are integers in the pattern search.
- Large sizes are stored as `int32_t` (os/my_malloc.c:832-839) and addresses compared through an `int32_t` difference (os/my_malloc.c:1129); in the model both are unbounded, so heaps that span 2^31 bytes or more are not captured.
- Floating-point positions and normals: a vertex is a base corner or the middle of two others. Where the twelve base corners lie is left out too, so the list of faces is not told from its mirror image.
- Memory limits and the width of `size_t` in the mesh.
- OpenGL code, shaders, model loaders, the web applications and the remaining exercises.
