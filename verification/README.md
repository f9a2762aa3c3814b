# Verified models of skynet's core

skynet is an actor framework: services with handles, message queues that a pool of worker threads serves, a socket
thread, a timer, and libraries for Lua. This project states in Dafny what the hardest parts of it compute and what
they keep, and proves it. `dafny verify dfyconfig.toml` checks everything.

| part | modules |
|---|---|
| LPeg: building patterns, analyses, code generator, peephole optimiser, matching machine, grammar check, stored character sets | `LpegTree`, `LpegBuild`, `LpegAnalysis`, `LpegBudget`, `LpegCharset`, `LpegVm`, `LpegCode`, `LpegShapes`, `LpegCorrect`, `LpegPeephole`, `LpegVerify`, `LpegLeftCalls`, `LpegJumps`, `LpegCompiler` |
| message queues and worker scheduling | `SkynetQueue` (the two queues, in place), `SkynetScheduler` (all threads as one state machine), `SkynetSchedulerRuns` (what every run keeps), `SkynetLaunch` (how services come and go, and the order of the list), `RwLock`, `HandleStore` |
| socket server | `SkynetSocket` (sending from any number of threads), `SkynetSocketTears` (when a package is torn), `SkynetSocketDrops` (what is dropped, and when closing ends), `SkynetSocketClose` (the life of an id), `SkynetSocketStates` (the senders run through that life) |
| timer | `SkynetTimer` |
| Lua libraries | `SharedData`, `NetPack`, `SocketBuffer`, `LuaSeri`, `LuaSeriForms`, `Des` with `DesTables`, `Sha1` with `Sha1Block`, `DiffieHellman` |
| standards | `DesStandard` (FIPS 46-3); the hash standard (FIPS 180-4) is the first part of `Sha1Block` |
| shared | `Common`, `Numbers`, `RingBuffer` |

How to read the models:

- LPeg. `LpegTree.Match` is the direct meaning of a pattern tree. `LpegCode.Gen` is the code generator as a function and
  `LpegCompiler.CompileState` is the compiler that appends to a code array and patches labels; each of its methods is
  proved to leave exactly the code of `Gen`. `LpegVm` is the machine as a step function and `LpegCompiler.Engine` its
  loop with a stack that doubles. The two ends meet in `LpegPeephole.CompileCorrect` and `LpegCompiler.MatchPattern`.
- Threads. In `SkynetScheduler`, `SkynetSocket` and `RwLock` a state holds a place for every thread, every atomic
  operation and every spin-locked region is one step, and a run is any sequence of enabled steps of any threads.
- Data structures that the C code updates in place are classes with the same fields, proved against a function or a
  ghost field that gives their contents.
- Where a promise fails, a lemma gives the input or the exact condition: `CallBehindDiverges`, `NestedGrammarDiverges`,
  `NestedWalkDiverges`, `BehindCallJumps`, `InitAfterFree`, `LogAfterFree`, `LaunchAccess`, `ForceCloseTears`,
  `ShutdownTears`, `PowerModP`, `PowEnds`, `CountedRight`, `ReadsInFront`.

## Model

| member | source | states |
|---|---|---|
| LpegAnalysis.CheckAuxSound | 3rd/skynet/3rd/lpeg/lpcode.c:115-149 | If a pattern matches the empty string, `checkaux` calls it nullable; if `checkaux` says it never fails, no match of it fails. For every grammar, subject and position |
| LpegAnalysis.FixedLenSound | 3rd/skynet/3rd/lpeg/lpcode.c:155-194 | When `fixedlen` is not negative, every match consumes exactly that many characters |
| LpegAnalysis.GetFirstSound | 3rd/skynet/3rd/lpeg/lpcode.c:215-293 | A match that consumes, or that a character of `follow` follows, starts with a character of the computed set; without the accepts-empty mark there is no match at the end of the subject |
| LpegAnalysis.NoFailFirst | 3rd/skynet/3rd/lpeg/lpcode.c:115-149 | A pattern that never fails has the full first set, so no test is put before it that could turn a match away |
| LpegAnalysis.HeadFailSound | 3rd/skynet/3rd/lpeg/lpcode.c:300-322 | For a headfail pattern the next character alone decides: it matches if and only if there is one and it is in the first set |
| LpegBudget.AnalysesExact | 3rd/skynet/3rd/lpeg/lpcode.c:115-149 | In every part of every rule of a sound grammar, other grammars inside included, the unbounded recursions of `checkaux`, `getfirst` and `headfail` end, with exactly the answers of the analyses bounded by MAX_CALLS, which are the same for any larger bound |
| LpegBudget.PatternExact | 3rd/skynet/3rd/lpeg/lpcode.c:215-322 | The same for whole patterns outside grammars |
| LpegBudget.NullableNeverFails | 3rd/skynet/3rd/lpeg/lpcode.c:100-114 | Without predicates a pattern of a sound grammar is nullable if and only if it never fails, and then no match of it fails |
| LpegBudget.FixedLenExact | 3rd/skynet/3rd/lpeg/lpcode.c:52-65 | `fixedlen` with the visited marks that `callrecursive` puts on call nodes gives, at every node of any grammar of at most MAXRULES rules, the answer of the bounded analysis, which is the same for any larger bound |
| LpegBuild.SeqOfMeans | 3rd/skynet/3rd/lpeg/lptree.c:556-567 | The simplifications of the sequence operator change no match, in any grammar |
| LpegBuild.ChoiceOfMeans | 3rd/skynet/3rd/lpeg/lptree.c:575-590 | The simplifications of the choice operator, merging of sets and dropping of what cannot be reached, change no match; the calls may still be open |
| LpegBuild.SubOfMeans | 3rd/skynet/3rd/lpeg/lptree.c:651-672 | A difference matches the first pattern exactly where the second does not match, also when it is made of two sets |
| LpegBuild.Star | 3rd/skynet/3rd/lpeg/lptree.c:596-626 | The loops build the tree of p^n for every n; an error exactly for a loop over a pattern that may be empty |
| LpegBuild.OpenNullableClosed | 3rd/skynet/3rd/lpeg/lpcode.c:111-149 | What `lp_star` takes for nullable while calls are open is nullable in every grammar; for a pattern without calls it is exactly what `checkaux` says in any grammar |
| LpegBuild.EmptyByCall | 3rd/skynet/3rd/lpeg/lptree.c:596-603 | If the body of a loop that was accepted matches the empty string after all, it does so by way of a rule that it calls |
| LpegBuild.AcceptedLoopEnds | 3rd/skynet/3rd/lpeg/lptree.c:596-603 | An accepted loop without calls, whose body settles, comes to an end in any grammar, on every subject |
| LpegBuild.RefusedLoopDiverges | 3rd/skynet/3rd/lpeg/lptree.c:596-603 | For patterns of characters, sequences, choices and loops the error is exact: a loop that is refused would not end on any subject |
| LpegBuild.LookBehindMeans | 3rd/skynet/3rd/lpeg/lptree.c:760-770 | A look-behind is accepted if and only if the form of the pattern allows one length only, and that is not too long |
| LpegBuild.LookBehindMatches | 3rd/skynet/3rd/lpeg/lptree.c:760-770 | It matches, without consuming, exactly where a match of the pattern ends |
| LpegBuild.AtLeastMeans | 3rd/skynet/3rd/lpeg/lptree.c:596-608 | p^n for n >= 0 yields all repetitions that there are if they are n at least, and fails otherwise |
| LpegBuild.AtMostMeans | 3rd/skynet/3rd/lpeg/lptree.c:609-626 | p^-n yields all repetitions that there are but at most the first n, and never fails |
| LpegBuild.LiteralMeans | 3rd/skynet/3rd/lpeg/lptree.c:425-436 | A string as a pattern matches exactly itself |
| LpegBuild.AnysMeans | 3rd/skynet/3rd/lpeg/lptree.c:443-458 | A number n as a pattern matches n characters if there are so many |
| LpegBuild.NumberMeans | 3rd/skynet/3rd/lpeg/lptree.c:443-458 | A negative number -n matches, without consuming, where there are fewer than n characters |
| LpegBuild.FillString | 3rd/skynet/3rd/lpeg/lptree.c:425-436 | The loop builds the tree of the string |
| LpegBuild.NumTree | 3rd/skynet/3rd/lpeg/lptree.c:443-458 | The loop builds the tree of the number |
| LpegBuild.CorrectAssociativity | 3rd/skynet/3rd/lpeg/lptree.c:75-87 | The rotations end with a first part of another kind, and with the same sequence or choice of parts |
| LpegBuild.FinalFix | 3rd/skynet/3rd/lpeg/lptree.c:97-123 | Associates all sequences and choices of the tree to the right |
| LpegBuild.FixedRight | 3rd/skynet/3rd/lpeg/lptree.c:97-123 | Then no sequence starts with a sequence and no choice with a choice |
| LpegBuild.FixedMeans | 3rd/skynet/3rd/lpeg/lptree.c:75-123 | Adjusting a pattern and all rules it is used with changes no match: same outcome on every subject and position, divergence included |
| LpegCharset.CharSetType | 3rd/skynet/3rd/lpeg/lpcset.c:23-56 | The four scans classify a bitmap as the specification `TypeOf` does, whose meaning the next lemmas give |
| LpegCharset.OnlyBitFound | 3rd/skynet/3rd/lpeg/lpcset.c:9-14 | For a byte with a single bit the result is the index of that bit, and no other bit is set |
| LpegCharset.KindMeans | 3rd/skynet/3rd/lpeg/lpcset.c:16-56 | The answer is "fail" exactly for the empty set, "any" exactly for the full set, and "char c" exactly for the set {c} |
| LpegCharset.StoredShortest | 3rd/skynet/3rd/lpeg/lpcset.c:37-54 | Of all ways to store the set, with either default, the one chosen takes the fewest bytes |
| LpegCharset.StoredWhole | 3rd/skynet/3rd/lpeg/lptree.c:378-406 | Storing a set in a tree and expanding the tree gives the same bitmap, for every bitmap |
| LpegCharset.ToCharset | 3rd/skynet/3rd/lpeg/lpcset.c:75-100 | Fills the caller's bitmap in place with the set of the tree, all 32 bytes of it |
| LpegCharset.SameChars | 3rd/skynet/3rd/lpeg/lptypes.h:86-110 | Two bitmaps with the same members are the same bitmap |
| LpegCharset.TestTypes | 3rd/skynet/3rd/lpeg/lpcode.c:610-631 | The test that `codetestset` picks from the bitmap is the one the compiler model picks from the set of its members |
| LpegCharset.AddCharset | 3rd/skynet/3rd/lpeg/lpcode.c:551-564 | The bytes put after a set instruction are the stored bytes, then the default up to a whole instruction |
| LpegCharset.StoredTest | 3rd/skynet/3rd/lpeg/lpvm.c:26-33 | For every byte, also below the offset where the subtraction wraps, and past the stored bytes: `charinset` on the packed instruction says yes exactly for the members of the set |
| LpegCharset.CsEqual | 3rd/skynet/3rd/lpeg/lpcode.c:570-585 | True exactly if the instruction is a set test and the one the set would be packed into |
| LpegCharset.StoredEqual | 3rd/skynet/3rd/lpeg/lpcode.c:570-601 | Two sets are packed alike if and only if they are equal, so the dominated-test optimisation fires exactly for equal sets |
| LpegCorrect.TestAdmits | 3rd/skynet/3rd/lpeg/lpcode.c:610-631 | A test put before a pattern never turns away a subject that the pattern matches |
| LpegCorrect.TestDecidesMeaning | 3rd/skynet/3rd/lpeg/lpcode.c:673-686 | Where `codechoice` and `coderep` do without a choice point: if the test fails the pattern fails, and if the pattern fails after the test passed, what follows cannot start there either |
| LpegCorrect.Simulates | 3rd/skynet/3rd/lpeg/lpcode.c:954-980 | The block of any pattern, in any context (optional or not, under any test, with any follow set, anywhere in a code, on any stack), run from its start ends however the continuation of the direct match ends |
| LpegCorrect.SimulatesTestedChoice | 3rd/skynet/3rd/lpeg/lpcode.c:673-692 | A choice compiled to a test instead of a choice point behaves as the ordered choice |
| LpegCorrect.SimulatesTestedLoop | 3rd/skynet/3rd/lpeg/lpcode.c:817-846 | A loop compiled to a test instead of a choice point behaves as the repetition, although it may fail where the repetition stops |
| LpegCorrect.SimulatesCall | 3rd/skynet/3rd/lpeg/lpcode.c:877-926 | A call, also one turned into a jump because a return follows, behaves as the rule it names |
| LpegCorrect.SimulatesGrammar | 3rd/skynet/3rd/lpeg/lpcode.c:901-919 | A grammar behaves as its first rule, with the calls of its rules resolved inside it |
| LpegCorrect.EmitCorrect | 3rd/skynet/3rd/lpeg/lpcode.c:1038-1047 | Before optimisation: code of a pattern, run from any position, ends with exactly the outcome of direct matching |
| LpegPeephole.PeepholePreserves | 3rd/skynet/3rd/lpeg/lpcode.c:992-1031 | The optimiser changes no result of any code at all: on any subject and start, a run ends with R before if and only if it ends with R after |
| LpegPeephole.Forward | 3rd/skynet/3rd/lpeg/lpcode.c:992-1031 | Every run that ends, ends the same way after any number of jump redirections |
| LpegPeephole.Backward | 3rd/skynet/3rd/lpeg/lpcode.c:992-1031 | Every run of redirected code that ends has an equal run of the code before |
| LpegPeephole.CompileCorrect | 3rd/skynet/3rd/lpeg/lpcode.c:1038-1047 | Compiler correctness: whatever direct matching settles on is what the optimised code ends with, and no other result is possible; for every pattern, subject and start |
| LpegBudget.NestedWalkDiverges | 3rd/skynet/3rd/lpeg/lpcode.c:115-149 | Counterexample: on an accepted grammar where `verifyrule` dropped what it knew at a nested grammar, `checkaux` recurses for ever |
| LpegVerify.VerifyRuleSound | 3rd/skynet/3rd/lpeg/lptree.c:1093-1133 | What may match without advancing is reported as such by `verifyrule`, on every grammar on which it drops nothing at a nested grammar |
| LpegLeftCalls.VerifyRuleExact | 3rd/skynet/3rd/lpeg/lptree.c:1093-1133 | What `verifyrule` answers after any number of rules, in terms of the trees alone: an error if and only if a chain of left calls goes on beyond MAXRULES, otherwise whether it knew or the pattern may be passed without advancing; where it drops nothing at a nested grammar |
| LpegLeftCalls.RejectedIffRecursion | 3rd/skynet/3rd/lpeg/lptree.c:1068-1133 | It rejects a rule only if left calls lead from it to a left-recursive rule; if it drops nothing there, exactly then |
| LpegLeftCalls.NullableExact | 3rd/skynet/3rd/lpeg/lpcode.c:111-149 | In an accepted grammar `nullable` says exactly which patterns may be passed without advancing, by any number of calls |
| LpegLeftCalls.PassableSound | 3rd/skynet/3rd/lpeg/lpcode.c:111-149 | What matches without consuming may be passed in this sense |
| LpegLeftCalls.VerifyGrammarExact | 3rd/skynet/3rd/lpeg/lptree.c:1040-1154 | `verifygrammar` accepts a grammar if and only if no rule that is called, or the initial one, is left recursive or holds a loop whose body may be passed without advancing; where `verifyrule` drops nothing |
| LpegVerify.VerifiedRuleSettles | 3rd/skynet/3rd/lpeg/lptree.c:1043-1154 | In a grammar that passes the left-recursion and empty-loop checks, matching ends from every used rule, on every subject and position; grammars may be nested, as long as `verifyrule` drops nothing at them |
| LpegVerify.VerifiedSettles | 3rd/skynet/3rd/lpeg/lptree.c:1170-1188 | Matching of a whole pattern, nested grammars included, whose grammars and loops passed the checks always ends |
| LpegVerify.VerifiedCompiles | 3rd/skynet/3rd/lpeg/lptree.c:1247-1266 | The compiled code of such a pattern always stops, with the one outcome that direct matching has for any sufficient fuel |
| LpegVerify.CallBehindDiverges | 3rd/skynet/3rd/lpeg/lptree.c:1093-1133 | Counterexample: a look-behind of a call passes the checks (where asserts are compiled out) and never settles |
| LpegVerify.NestedGrammarDiverges | 3rd/skynet/3rd/lpeg/lptree.c:1093-1133 | Counterexample: left recursion behind a choice with a nested grammar passes the checks and never settles; it is a grammar on which `verifyrule` drops what it knows |
| LpegJumps.FinalTargetEnds | 3rd/skynet/3rd/lpeg/lpcode.c:637-649 | The unbounded loop of `finaltarget` ends everywhere in the code of a verified pattern and at every stage of its optimisation, on an instruction that is no jump |
| LpegJumps.EmitStops | 3rd/skynet/3rd/lpeg/lpcode.c:637-649 | No cycle of jumps exists in code generated from a verified pattern |
| LpegJumps.BehindCallJumps | 3rd/skynet/3rd/lpeg/lpcode.c:637-641 | Counterexample: for a rule that is a look-behind of a predicate on itself, accepted where asserts are compiled out, the loop of `finaltarget` never ends |
| LpegCompiler.CompileState.CodeGen | 3rd/skynet/3rd/lpeg/lpcode.c:954-980 | Appends exactly the block of the pattern to the code and leaves the rest alone |
| LpegCompiler.CompileState.CodeTestSet | 3rd/skynet/3rd/lpeg/lpcode.c:610-631 | Appends the test of a set, its label open, and returns its index or none |
| LpegCompiler.CompileState.CodeLeaf | 3rd/skynet/3rd/lpeg/lpcode.c:535-601 | A character or set that the test just before already established costs only an `any` |
| LpegCompiler.CompileState.CodeBehind | 3rd/skynet/3rd/lpeg/lpcode.c:655-659 | Appends the step back and the pattern |
| LpegCompiler.CompileState.CodeSeq | 3rd/skynet/3rd/lpeg/lpcode.c:934-946 | Appends both parts; the test protects the second only if the first consumes nothing |
| LpegCompiler.CompileState.CodeChoice | 3rd/skynet/3rd/lpeg/lpcode.c:673-708 | Appends the block of a choice with all three labels patched, in each of its three forms |
| LpegCompiler.CompileState.CodeRep | 3rd/skynet/3rd/lpeg/lpcode.c:779-846 | Appends the block of a repetition, labels patched, in each of its forms |
| LpegCompiler.CompileState.CloseLoop | 3rd/skynet/3rd/lpeg/lpcode.c:766-770 | Appends the jump back to the test and lets the test leave the loop |
| LpegCompiler.CompileState.CodeNot | 3rd/skynet/3rd/lpeg/lpcode.c:856-870 | Appends the block of a not predicate |
| LpegCompiler.CompileState.CodeAnd | 3rd/skynet/3rd/lpeg/lpcode.c:716-732 | Appends the block of an and predicate; a fixed length is walked back instead of restored |
| LpegCompiler.CompileState.CodeGrammar | 3rd/skynet/3rd/lpeg/lpcode.c:901-926 | Appends the call, the jump over the rules and the rules, with open calls resolved |
| LpegCompiler.CompileState.CorrectCallsFrom | 3rd/skynet/3rd/lpeg/lpcode.c:877-894 | Resolves in place every open call of the instructions from an index on, to a call or a tail jump |
| LpegCompiler.CompileState.Peephole | 3rd/skynet/3rd/lpeg/lpcode.c:992-1031 | Leaves in place the code that the specification of the optimiser gives |
| LpegCompiler.FinalTargetOf | 3rd/skynet/3rd/lpeg/lpcode.c:637-641 | The unbounded loop ends at the instruction that ends the chain of jumps |
| LpegCompiler.CompilePattern | 3rd/skynet/3rd/lpeg/lpcode.c:1038-1047 | Builds the optimised code of a verified pattern |
| LpegCompiler.Engine.PushEntry | 3rd/skynet/3rd/lpeg/lpvm.c:121-138 | Pushes an entry and doubles a full stack without losing or moving what is on it |
| LpegCompiler.Engine.Backtrack | 3rd/skynet/3rd/lpeg/lpvm.c:374-388 | Drops pending calls and resumes the last choice, as `Unwind` says |
| LpegCompiler.Engine.Round | 3rd/skynet/3rd/lpeg/lpvm.c:230-388 | One round of the interpreter takes the array-based machine to the state that the step function gives |
| LpegCompiler.Engine.Loop | 3rd/skynet/3rd/lpeg/lpvm.c:230-388 | A run known to end is carried through to its result |
| LpegCompiler.MatchPattern | 3rd/skynet/3rd/lpeg/lptree.c:1247-1266 | End to end: compiling and running a verified pattern terminates and returns the only settled outcome of direct matching |
| SkynetQueue.MessageQueue.constructor | 3rd/skynet/skynet-src/skynet_mq.c:77-96 | A new queue is empty and marked as being in the global list, held by its creator |
| SkynetQueue.MessageQueue.Length | 3rd/skynet/skynet-src/skynet_mq.c:111-125 | The number of messages, also when the ring has wrapped |
| SkynetQueue.MessageQueue.TakeOverload | 3rd/skynet/skynet-src/skynet_mq.c:127-135 | Reports and clears the overload mark |
| SkynetQueue.MessageQueue.Pop | 3rd/skynet/skynet-src/skynet_mq.c:137-172 | Takes the oldest message and raises the overload threshold past the length; on an empty queue lowers the in-global mark and resets the threshold |
| SkynetQueue.RaisedCovers | 3rd/skynet/skynet-src/skynet_mq.c:153-156 | The raised threshold covers the length and is less than twice of it, or has not moved |
| SkynetQueue.MessageQueue.ExpandQueue | 3rd/skynet/skynet-src/skynet_mq.c:174-187 | A full ring moves to one of twice the size with all messages in order |
| SkynetQueue.MessageQueue.Push | 3rd/skynet/skynet-src/skynet_mq.c:189-209 | Appends a message, whatever the ring's state, and asks for the global list exactly if the queue was not in it |
| SkynetQueue.MessageQueue.MarkRelease | 3rd/skynet/skynet-src/skynet_mq.c:219-228 | Marks the queue and asks for the global list exactly if the queue is not in it |
| SkynetQueue.GlobalQueue.Push | 3rd/skynet/skynet-src/skynet_mq.c:43-56 | Appends a queue to the linked list |
| SkynetQueue.GlobalQueue.Pop | 3rd/skynet/skynet-src/skynet_mq.c:58-75 | Unlinks the first queue; null exactly if there is none |
| SkynetSchedulerRuns.OneOwner | 3rd/skynet/skynet-src/skynet_server.c:297-352 | In every reachable state a queue is once in the global list, or in the hands of one thread, or in neither with its flag down (or freed); a queue with messages is never left aside |
| SkynetSchedulerRuns.OneCallback | 3rd/skynet/skynet-src/skynet_server.c:260-352 | Two workers never run the same service at once, and a service runs only after it has started |
| SkynetSchedulerRuns.HoldersSafe | 3rd/skynet/skynet-src/skynet_server.c:194-227 | Whoever holds a reference finds context and queue not freed; whoever has a queue in hand finds it not freed; the thread that deletes finds neither freed nor released before |
| SkynetSchedulerRuns.LaunchAccess | 3rd/skynet/skynet-src/skynet_server.c:163-169 | The creator has let go of its reference when it sets `init` and when it logs the launch; it finds the context not freed if and only if the handle is still registered or some thread still has a reference or has not finished freeing |
| SkynetSchedulerRuns.InitAfterFree | 3rd/skynet/skynet-src/skynet_server.c:163-165 | A run in which the new service is retired in between and `init` is written to a freed context |
| SkynetSchedulerRuns.LogAfterFree | 3rd/skynet/skynet-src/skynet_server.c:167-169 | The run goes on to log for the freed context |
| SkynetSchedulerRuns.AssertionsHold | 3rd/skynet/skynet-src/skynet_mq.c:219-228 | The assertions hold in every run: a queue is marked for release once, and pushed to the list only when it is not in it |
| SkynetSchedulerRuns.FreedOnce | 3rd/skynet/skynet-src/skynet_server.c:207-227 | In any run a queue and a context are freed at most once, and exactly once if they are freed in the end |
| SkynetSchedulerRuns.NoCallAfterRelease | 3rd/skynet/skynet-src/skynet_mq.c:230-250 | Once a queue is marked for release its callback gets no message |
| SkynetSchedulerRuns.MessagesInOrder | 3rd/skynet/skynet-src/skynet_server.c:229-285 | Between any two states of a run: what was queued, then what was pushed, is what the callback got, then what was dropped, then what is queued, in order |
| SkynetSchedulerRuns.EveryMessageOnce | 3rd/skynet/skynet-src/skynet_mq.c:137-250 | From the start: every message pushed went to the callback once and in order, or to the drop function after those, or is still queued; drops happen only after release, and a freed queue has nothing left |
| SkynetLaunch.InitDecides | 3rd/skynet/skynet-src/skynet_server.c:157-180 | The result of init decides which of two ways the creator goes |
| SkynetLaunch.FailedNeverRuns | 3rd/skynet/skynet-src/skynet_server.c:172-180 | In every run after the init of a service failed: it never starts, no step launches it, its callback gets no message, and what is pushed to it is dropped in order or still queued |
| SkynetLaunch.WayOutEnds | 3rd/skynet/skynet-src/skynet_server.c:172-180 | From any state of such a run the creator can go its way to the end by itself: then the handle is retired and the queue is freed, or in the list from where a worker releases it |
| SkynetLaunch.WayInEnds | 3rd/skynet/skynet-src/skynet_server.c:161-171 | From any state after a successful init the creator can launch the service by itself: the queue gets into the list, with `init` set unless the context is gone already |
| SkynetLaunch.ListInOrder | 3rd/skynet/skynet-src/skynet_mq.c:43-75 | Along every run queues are taken from the global list in the order in which they were pushed |
| SkynetLaunch.TurnComes | 3rd/skynet/skynet-src/skynet_server.c:340-352 | A queue that waits behind i others is the next that is taken after i: a worker that is done with a queue takes the first of the list whenever there is one |
| RwLock.Exclusion | 3rd/skynet/skynet-src/rwlock.h:13-46 | While a thread is in its writing section no other reads or writes, for any number of threads |
| RwLock.Counters | 3rd/skynet/skynet-src/rwlock.h:20-46 | `read` is the number of readers that raised it and did not lower it, never negative; `write` is up exactly while a writer waits for readers or is inside |
| RwLock.NoDeadlock | 3rd/skynet/skynet-src/rwlock.h:20-46 | From every reachable state in which nobody is inside and a thread wants in, some steps let one in |
| RwLock.InAndOut | 3rd/skynet/skynet-src/rwlock.h:20-46 | When no writer is about, a reader gets to its section whoever else reads, and a writer if nobody reads; what it leaves behind is the lock as it was |
| RwLock.WriterFirst | 3rd/skynet/skynet-src/rwlock.h:20-46 | While a writer is inside or waits for readers to leave, no reader gets in |
| HandleStore.DoubleSlot | 3rd/skynet/skynet-src/skynet_handle.c:59-70 | Doubling keeps a handle's slot or moves it by the old size |
| HandleStore.MovedNext | 3rd/skynet/skynet-src/skynet_handle.c:62-68 | When the table doubles, every service finds its new slot free: the assertion in the loop holds |
| HandleStore.HandlesApart | 3rd/skynet/skynet-src/skynet_handle.c:34-73 | Live handles are not 0 and no two of them share a slot |
| HandleStore.ScanEnd | 3rd/skynet/skynet-src/skynet_handle.c:40-59 | A scan of the largest table that finds no slot, wherever it starts and however it wraps, proves that all handles are taken |
| HandleStore.Store.Scan | 3rd/skynet/skynet-src/skynet_handle.c:40-59 | Takes the first free slot from `handle_index` on, round again from 1, and goes on behind it next time; otherwise changes nothing |
| HandleStore.Store.Register | 3rd/skynet/skynet-src/skynet_handle.c:34-73 | Returns a handle in range that was not live and maps it to the service, changing nothing else; it is the first from `handle_index` on whose slot was free, and the next scan begins behind it; none only if all handles are taken |
| HandleStore.Store.Double | 3rd/skynet/skynet-src/skynet_handle.c:59-71 | Doubles the slots with every live handle found as before |
| HandleStore.Store.Retire | 3rd/skynet/skynet-src/skynet_handle.c:75-112 | Removes exactly this handle and exactly its names; false exactly if it was not live |
| HandleStore.Store.Grab | 3rd/skynet/skynet-src/skynet_handle.c:138-155 | The service of a live handle, none for any other number |
| HandleStore.Store.FindName | 3rd/skynet/skynet-src/skynet_handle.c:157-185 | The handle of a name, 0 exactly if there is none: the binary search misses nothing |
| HandleStore.Store.NameHandle | 3rd/skynet/skynet-src/skynet_handle.c:187-246 | The first to take a name keeps it; a new name is added and the list stays sorted, through growth; the assertion ends the program exactly when a new name meets a full table of the largest size |
| HandleStore.Store.constructor | 3rd/skynet/skynet-src/skynet_handle.c:248-267 | An empty store with the harbor number cut to 8 bits |
| SkynetSocketTears.WholePackages | 3rd/skynet/skynet-src/socket_server.c:726-1090 | For any number of sending threads, direct writes of any length and partial writes: unless `force_close` frees the lists in a dangerous state, the wire is the completely written packages one after another and then what is written of the package that is next, or of one that was freed; and so it is while no package was freed half written |
| SkynetSocketTears.ForceCloseTears | 3rd/skynet/skynet-src/socket_server.c:491-521 | The exact condition, at the call of `force_close` without the lock, from any reachable state: some continuation spoils the wire if and only if the head of the high list is half written, the socket is connected, `sending` is 0 and some thread is not bound to use the pipe; then the wire does not even start with the packages that count as written |
| SkynetSocketTears.NoShutdownWhole | 3rd/skynet/skynet-src/socket_server.c:1134-1189 | In every run without shutdown request and hang-up the wire holds whole packages and one prefix: through write errors, waiting closes and the end of the other side |
| SkynetSocketTears.ShutdownTears | 3rd/skynet/skynet-src/socket_server.c:491-521 | A run from the start that ends with a torn wire: a shutdown frees the lists, and a thread that finds them empty writes after a package that was cut short |
| SkynetSocket.EachPackageOnce | 3rd/skynet/skynet-src/socket_server.c:1020-1090 | Each package that was ever sent is in exactly one place: written, dropped, in a list, in the pipe, or in a thread's hands |
| SkynetSocket.InOrder | 3rd/skynet/skynet-src/socket_server.c:1874-1944 | High-priority packages of one thread are written in the order in which it sent them, direct writes included |
| SkynetSocket.AssertionsHold | 3rd/skynet/skynet-src/socket_server.c:842-931 | In every run: no low package is half written when a round starts, the high list is empty when one is raised to it, the byte count is 0 when the lists are empty, and `sending` never goes below 0 |
| SkynetSocketDrops.OpenKeepsAll | 3rd/skynet/skynet-src/socket_server.c:1020-1090 | As long as a socket is open and nobody closes it nothing is dropped: each package is written, in a list, in the pipe or in a thread's hands, once |
| SkynetSocketDrops.LowInOrder | 3rd/skynet/skynet-src/socket_server.c:1067-1073 | Packages of low priority are written in the order in which they came into the pipe; while the socket is open none of them is missing |
| SkynetSocketDrops.ClosesDrained | 3rd/skynet/skynet-src/socket_server.c:1134-1189 | Unless it is shut down, hangs up or fails to write, a socket is closed only once both lists are written: nothing the socket thread accepted is dropped |
| SkynetSocketDrops.CanDrain | 3rd/skynet/skynet-src/socket_server.c:842-959 | From every reachable state in which the lock is free the socket thread alone can write all that is buffered, dropping nothing; if the socket was asked to close it is closed then |
| SkynetSocketDrops.CloseEnds | 3rd/skynet/skynet-src/socket_server.c:1163-1189 | A request to close that comes to be served can always end with the socket closed, after all that was buffered unless it is a shutdown or writing has failed |
| SkynetSocketStates.StepFollows | 3rd/skynet/skynet-src/socket_server.c:704-1189 | Every step of the sending model does to the state of the socket what its event does in the life of an id, or nothing |
| SkynetSocketStates.ClosedOnce | 3rd/skynet/skynet-src/socket_server.c:1134-1189 | Along every run of senders, closes, errors and hang-ups SOCKET_CLOSE is raised at most once, and exactly if the socket cannot be read any more |
| SkynetSocketClose.CloseOnce | 3rd/skynet/skynet-src/socket_server.c:1134-1245 | SOCKET_CLOSE is raised at most once for an id, whatever commands, reads, writes, errors and hang-ups come; exactly once if the id was established and can be read no more; a socket half closed for reading has raised it and only becomes invalid |
| SkynetSocketClose.FromReservation | 3rd/skynet/skynet-src/socket_server.c:1157-1189 | So from the reservation of an id on there is at most one close |
| SkynetSocketClose.ServeSound | 3rd/skynet/skynet-src/socket_server.c:1134-1189 | A single event raises a close only if none came before; for an established id it does so exactly if it ends reading |
| SkynetSocketClose.EndsExactly | 3rd/skynet/skynet-src/socket_server.c:704-1189 | The exact reasons for which a slot becomes invalid; a close, end of stream or failed write that does not end it closes one direction |
| SkynetSocketClose.CloseRaises | 3rd/skynet/skynet-src/socket_server.c:1163-1189 | A request to close raises SOCKET_CLOSE at once exactly if the socket can still be read, whether or not data is left to send |
| SkynetSocketClose.MessagesExactly | 3rd/skynet/skynet-src/socket_server.c:615-1660 | Each message of the socket thread is raised exactly by these events in these states |
| SkynetSocketClose.OpensExactly | 3rd/skynet/skynet-src/socket_server.c:615-1660 | How an id comes to be connected, listening, bound or accepted, and that all other events leave it alone |
| SkynetSocketClose.NoDataAfterClose | 3rd/skynet/skynet-src/socket_server.c:1461-1521 | Once SOCKET_CLOSE was raised no data is passed on |
| SkynetSocketClose.Socket.CloseSocket | 3rd/skynet/skynet-src/socket_server.c:1157-1189 | New state and answer of a close or shutdown request, in all states |
| SkynetSocketClose.Socket.ForwardMessage | 3rd/skynet/skynet-src/socket_server.c:1461-1521 | New state and answer of reading data, the end of the stream, or an error |
| SkynetSocketClose.Socket.CloseWriting | 3rd/skynet/skynet-src/socket_server.c:704-724 | New state and answer of a failed write |
| SkynetSocketClose.Socket.ResumeSocket | 3rd/skynet/skynet-src/socket_server.c:1208-1245 | New state and answer of a resume request |
| SkynetSocketClose.Socket.SendBuffer | 3rd/skynet/skynet-src/socket_server.c:872-959 | New state and answer of a round of writing |
| SkynetTimer.WhereByDigits | 3rd/skynet/skynet-src/skynet_timer.c:67-86 | A node belongs in the list of the highest 6-bit digit in which its time differs from the clock, or in the near list |
| SkynetTimer.TickKeeps | 3rd/skynet/skynet-src/skynet_timer.c:111-132 | One tick leaves every pending node in its right list, or in the one list that this tick cascades; at most one is |
| SkynetTimer.NearIsDue | 3rd/skynet/skynet-src/skynet_timer.c:152-163 | The near list of the present holds exactly the nodes that expire now, in the order they were added |
| SkynetTimer.Timer.AddNode | 3rd/skynet/skynet-src/skynet_timer.c:67-86 | The widening mask finds the list where the node belongs and appends it there, nothing else changes |
| SkynetTimer.Timer.TimerAdd | 3rd/skynet/skynet-src/skynet_timer.c:88-99 | A new timer becomes pending for the wrapped deadline |
| SkynetTimer.Timer.MoveList | 3rd/skynet/skynet-src/skynet_timer.c:101-109 | Cascading one list puts each of its nodes where it belongs now and keeps the order among equal deadlines |
| SkynetTimer.Timer.TimerShift | 3rd/skynet/skynet-src/skynet_timer.c:111-132 | After a tick, clock wrap-around included, every pending node is where it belongs |
| SkynetTimer.Timer.TimerExecute | 3rd/skynet/skynet-src/skynet_timer.c:134-163 | Dispatches what expires now, all of it, in order, and nothing else |
| SkynetTimer.Timer.TimerUpdate | 3rd/skynet/skynet-src/skynet_timer.c:165-178 | One update advances the clock by one and dispatches exactly what is due then |
| SkynetTimer.FiresExactly | 3rd/skynet/skynet-src/skynet_timer.c:67-178 | With timers already pending: each update fires exactly the due ones, the older ones first |
| SkynetTimer.Exact | 3rd/skynet/skynet-src/skynet_timer.c:67-178 | From an empty wheel at any clock value, for any program of adds and updates: update number u dispatches exactly the timers whose delay ends there, each once, in the order of adding, however often the 32-bit clock wraps |
| SkynetTimer.Run | 3rd/skynet/skynet-src/skynet_timer.c:67-178 | Driving the wheel in place gives those dispatches |
| SharedData.Table.constructor | 3rd/skynet/lualib-src/lua-sharedata.c:277-327 | Conversion of any Lua table, with any enumeration order, any border as length, and any hash function, gives a table in which every key is found where it belongs |
| SharedData.Table.FillNoColliding | 3rd/skynet/lualib-src/lua-sharedata.c:212-235 | First pass: array cells filled, and each main position taken by a key that hashes to it |
| SharedData.Table.FillColliding | 3rd/skynet/lualib-src/lua-sharedata.c:237-273 | Second pass: every remaining key gets a free slot linked into the chain of its main position |
| SharedData.FreeSlot | 3rd/skynet/lualib-src/lua-sharedata.c:237-273 | The search for a free slot that never looks back cannot run off the end: a key still missing means a slot still free |
| SharedData.NoneFree | 3rd/skynet/lualib-src/lua-sharedata.c:67-89 | The hash part is exactly as large as needed: in the end no slot is empty |
| SharedData.Table.LookupKey | 3rd/skynet/lualib-src/lua-sharedata.c:503-532 | Finds the slot of a key if and only if it is in the hash part, also with the shortcut for main positions that never collided |
| SharedData.Table.Index | 3rd/skynet/lualib-src/lua-sharedata.c:534-568 | The value of every key is that of the original table, nil for absent keys |
| SharedData.Table.FirstHash | 3rd/skynet/lualib-src/lua-sharedata.c:581-589 | The first key of the hash part, if it has one |
| SharedData.Table.NextKey | 3rd/skynet/lualib-src/lua-sharedata.c:591-648 | The successor of any key of the traversal order, the first after nil, nothing for a key that is not in the table, and after an array index without value what would follow if it had one |
| SharedData.VisitsAll | 3rd/skynet/lualib-src/lua-sharedata.c:591-648 | The traversal order holds every key with a value exactly once and no other |
| SharedData.AllKeys | 3rd/skynet/lualib-src/lua-sharedata.c:591-648 | Asking again and again from nil ends and has then returned each key of the original table exactly once |
| NetPack.PacksAppend | 3rd/skynet/lualib-src/lua-netpack.c:228-308 | Framing does not depend on how a stream is cut: the packages of s + t are those of s, then those of what was left over with t |
| NetPack.StreamSplits | 3rd/skynet/lualib-src/lua-netpack.c:189-216 | Every byte stream is the framed packages found in it followed by a rest that holds no whole package |
| NetPack.PacksFrames | 3rd/skynet/lualib-src/lua-netpack.c:440-456 | Round trip: messages that were framed and concatenated, with an unfinished package behind, are found as they were |
| NetPack.Pack | 3rd/skynet/lualib-src/lua-netpack.c:440-456 | Frames a message so that it unpacks to itself; an error exactly from 64 KB on |
| NetPack.Queue.FindUncomplete | 3rd/skynet/lualib-src/lua-netpack.c:93-115 | Unlinks the leftover of this connection and no other; none exactly if nothing is pending |
| NetPack.Queue.ExpandQueue | 3rd/skynet/lualib-src/lua-netpack.c:134-149 | A full ring of packages grows and keeps their order |
| NetPack.Queue.PushData | 3rd/skynet/lualib-src/lua-netpack.c:151-168 | Appends a package, wrapping or growing the ring when needed |
| NetPack.Queue.SaveUncomplete | 3rd/skynet/lualib-src/lua-netpack.c:170-181 | Makes the leftover pending for its connection only |
| NetPack.Queue.PushMore | 3rd/skynet/lualib-src/lua-netpack.c:189-216 | Queues every whole package of the bytes and keeps exactly the rest |
| NetPack.Queue.CloseUncomplete | 3rd/skynet/lualib-src/lua-netpack.c:218-226 | Forgets what is pending for this connection and no other |
| NetPack.Queue.Filter | 3rd/skynet/lualib-src/lua-netpack.c:228-308 | For a chunk of any size, cut inside a header, a body or between packages: what is delivered and queued is what is complete in pending + chunk, the rest stays pending, other connections are untouched |
| NetPack.Queue.Pop | 3rd/skynet/lualib-src/lua-netpack.c:400-414 | Takes the oldest package; none exactly if there is none |
| NetPack.Run | 3rd/skynet/lualib-src/lua-netpack.c:338-391 | For any interleaving of chunks and closes of any connections, each connection is delivered exactly the packages of its own streams, in order |
| NetPack.MessagesFound | 3rd/skynet/lualib-src/lua-netpack.c:228-308 | If peers send framed messages and perhaps the start of one more, those deliveries are exactly the messages |
| SocketBuffer.Buffer.Push | 3rd/skynet/lualib-src/lua-socket.c:104-151 | The contents are the old ones and then the chunk |
| SocketBuffer.Buffer.PopString | 3rd/skynet/lualib-src/lua-socket.c:176-216 | Takes exactly sz bytes off the front, over any number of chunks, and gives all of them but the last `skip` |
| SocketBuffer.Buffer.Pop | 3rd/skynet/lualib-src/lua-socket.c:242-257 | The first sz bytes if there are so many and sz is not 0; otherwise nothing changes |
| SocketBuffer.Buffer.ReadAll | 3rd/skynet/lualib-src/lua-socket.c:282-298 | All bytes, and an empty buffer |
| SocketBuffer.Buffer.Clear | 3rd/skynet/lualib-src/lua-socket.c:265-279 | An empty buffer |
| SocketBuffer.Buffer.CheckSep | 3rd/skynet/lualib-src/lua-socket.c:309-326 | True exactly if the separator stands at this byte, also across chunks |
| SocketBuffer.Buffer.Search | 3rd/skynet/lualib-src/lua-socket.c:333-370 | The first place of the separator, or none |
| SocketBuffer.Buffer.ReadLine | 3rd/skynet/lualib-src/lua-socket.c:333-370 | The bytes up to the first separator, which is removed with them; nothing changes when there is none |
| SocketBuffer.Buffer.HasLine | 3rd/skynet/lualib-src/lua-socket.c:333-370 | Whether there is a line, without taking it |
| SocketBuffer.LinesAppend | 3rd/skynet/lualib-src/lua-socket.c:333-370 | The lines of s + t are those of s and those of what s leaves over with t: a stream may be cut anywhere, also inside a separator |
| SocketBuffer.Feed | 3rd/skynet/lualib-src/lua-socket.c:104-370 | Chunk by chunk, reading all lines each time: the lines are those of the whole stream, however it was cut |
| LuaSeri.RoundTrip | 3rd/skynet/lualib-src/lua-seri.c:303-533 | A packed value is read back whatever bytes follow: nested tables, every integer width, all string forms (total length below 2^31) |
| LuaSeri.ListRoundTrip | 3rd/skynet/lualib-src/lua-seri.c:565-607 | The whole argument list comes back |
| LuaSeri.DepthLimit | 3rd/skynet/lualib-src/lua-seri.c:303-350 | Exactly which values can be packed: supported types at most 32 tables deep |
| LuaSeri.SameTable | 3rd/skynet/lualib-src/lua-seri.c:217-301 | Whatever border the length operator reports and in whatever order the keys come, the content read back is that of the table |
| LuaSeriForms.Shortest | 3rd/skynet/lualib-src/lua-seri.c:142-301 | No bytes that are read as the same values are shorter than those that are written |
| LuaSeriForms.HeadsRead | 3rd/skynet/lualib-src/lua-seri.c:477-542 | A value is read only from a head byte of the format |
| LuaSeriForms.LongRefused | 3rd/skynet/lualib-src/lua-seri.c:190-213 | Beyond the limit of the round trip: a string of 2^31 bytes or more is written but refused by the reader |
| LuaSeriForms.KeyOkIs | 3rd/skynet/lualib-src/lua-seri.c:444-475 | A table takes as a key everything but nil and the bit patterns above that of infinity |
| LuaSeri.WriteBlock.Push | 3rd/skynet/lualib-src/lua-seri.c:65-85 | Appends the bytes across the chain of fixed-size blocks |
| LuaSeri.WriteBlock.Flatten | 3rd/skynet/lualib-src/lua-seri.c:544-563 | One buffer with all bytes of the chain in order |
| LuaSeri.WriteBlock.Integer | 3rd/skynet/lualib-src/lua-seri.c:142-174 | Writes an integer in the smallest of the five forms, to the byte |
| LuaSeri.WriteBlock.String | 3rd/skynet/lualib-src/lua-seri.c:190-213 | Writes a string with a short, 2-byte or 4-byte length |
| LuaSeri.WriteBlock.PackTable | 3rd/skynet/lualib-src/lua-seri.c:217-301 | Writes the array part, the pairs and the closing nil; a table with `__pairs` has no array part |
| LuaSeri.WriteBlock.PackOne | 3rd/skynet/lualib-src/lua-seri.c:303-350 | Writes the encoding of a value, or fails exactly for those that cannot be packed |
| LuaSeri.ReadBlock.Read | 3rd/skynet/lualib-src/lua-seri.c:118-128 | Consumes n bytes if there are that many and otherwise nothing |
| LuaSeri.ReadBlock.GetInteger | 3rd/skynet/lualib-src/lua-seri.c:369-410 | Reads an integer of any width, sign included, or fails on a short buffer or unknown form |
| LuaSeri.ReadBlock.GetBuffer | 3rd/skynet/lualib-src/lua-seri.c:433-440 | Reads a string of the given length or fails |
| LuaSeri.ReadBlock.UnpackTable | 3rd/skynet/lualib-src/lua-seri.c:444-475 | Reads a table on any input, also malformed: as the specification, errors included |
| LuaSeri.ReadBlock.UnpackOne | 3rd/skynet/lualib-src/lua-seri.c:477-542 | Reads one value on any input, also malformed, and leaves the cursor behind it |
| LuaSeri.Pack | 3rd/skynet/lualib-src/lua-seri.c:609-622 | A buffer exactly if all values can be packed |
| LuaSeri.Unpack | 3rd/skynet/lualib-src/lua-seri.c:565-607 | All values of a buffer, or an error, on any input |
| LuaSeri.PackAndUnpack | 3rd/skynet/lualib-src/lua-seri.c:565-622 | Out and back through the two byte-level routines: the same values, or an error exactly if one is unsupported or nested too deep |
| Des.FinalInitial | 3rd/skynet/lualib-src/lua-crypt.c:208-230 | The final permutation undoes the initial one |
| Des.InitialFinal | 3rd/skynet/lualib-src/lua-crypt.c:208-230 | The initial permutation undoes the final one |
| Des.RoundsBack | 3rd/skynet/lualib-src/lua-crypt.c:234-247 | The rounds with subkeys reversed undo the rounds, for any S-boxes and subkeys |
| Des.BlockBack | 3rd/skynet/lualib-src/lua-crypt.c:320-342 | Decrypting a block is encrypting with the subkeys reversed |
| Des.PaddingFound | 3rd/skynet/lualib-src/lua-crypt.c:379-449 | For both padding modes and whatever the text ends with, the padding that was added is found again |
| Des.AddPadding | 3rd/skynet/lualib-src/lua-crypt.c:379-443 | Fills the last block; an error exactly for an unknown mode or a full block |
| Des.RemovePkcs | 3rd/skynet/lualib-src/lua-crypt.c:408-418 | Reads in front of the buffer if and only if the last byte exceeds the length and all bytes equal it; otherwise the answer does not depend on what is there |
| Des.WalkAnswers | 3rd/skynet/lualib-src/lua-crypt.c:408-418 | When it does read there its answer is no size that `ldesdecode` accepts |
| Des.RemovePadding | 3rd/skynet/lualib-src/lua-crypt.c:385-449 | On any bytes, and whatever lies in front of the buffer, what `ldesdecode` takes for the size of the padding |
| Des.Crypt | 3rd/skynet/lualib-src/lua-crypt.c:320-342 | Writes the block that `Block` gives, which `DesTables.BlockIs` identifies, at its place and leaves what is in front of it |
| Des.Encode | 3rd/skynet/lualib-src/lua-crypt.c:461-485 | An error exactly for a key of another size or an unknown mode, otherwise all blocks of the padded text, which `DesTables.BlocksAre` identifies |
| Des.Decode | 3rd/skynet/lualib-src/lua-crypt.c:487-517 | The text, or an error, for any key, text and mode |
| Des.Reversed | 3rd/skynet/lualib-src/lua-crypt.c:491-497 | The loop reverses the rounds and keeps the two subkeys of a round in order |
| Des.DecodeEncode | 3rd/skynet/lualib-src/lua-crypt.c:461-517 | Decoding what was encoded gives the text back: for all S-boxes, key schedules, 8-byte keys, texts and modes |
| DesTables.BoxIs | 3rd/skynet/lualib-src/lua-crypt.c:20-171 | Each of the 512 entries of the eight tables is what the S-box of FIPS 46-3 gives for these six bits, under the permutation P and rotated by one bit |
| DesTables.InitialIs | 3rd/skynet/lualib-src/lua-crypt.c:208-217 | Bit by bit the exchanges of `DES_IP` are the initial permutation of the standard, both halves rotated by one bit |
| DesTables.InputsAre | 3rd/skynet/lualib-src/lua-crypt.c:234-247 | Each S-box gets its six bits of the expanded half, under its six bits of the subkeys |
| DesTables.MixIs | 3rd/skynet/lualib-src/lua-crypt.c:234-247 | What a round adds to the other half is the cipher function of the standard |
| DesTables.RoundsAre | 3rd/skynet/lualib-src/lua-crypt.c:320-337 | The rounds, on rotated halves, are those of the standard, for any subkeys |
| DesTables.ChoiceIs | 3rd/skynet/lualib-src/lua-crypt.c:252-276 | The exchanges and look-ups on the key are permuted choice 1 |
| DesTables.SubkeysAre | 3rd/skynet/lualib-src/lua-crypt.c:278-314 | The two subkeys of a round hold, group by group, what permuted choice 2 gives |
| DesTables.ScheduleIs | 3rd/skynet/lualib-src/lua-crypt.c:252-315 | For every key the 32 subkeys hold the 16 round keys of the standard |
| DesTables.MainKs | 3rd/skynet/lualib-src/lua-crypt.c:252-315 | The loop fills the array with these subkeys |
| DesTables.BlockIs | 3rd/skynet/lualib-src/lua-crypt.c:320-342 | `des_crypt` is the standard's cipher with the round keys that the subkeys hold: the initial permutation of the output is the result of the rounds |
| DesTables.OneOutput | 3rd/skynet/lualib-src/lua-crypt.c:219-230 | Only one block can be that output |
| DesTables.BlocksAre | 3rd/skynet/lualib-src/lua-crypt.c:454-517 | Block by block, what `ldesencode` writes is the text enciphered, and what `ldesdecode` computes is its input deciphered, under the standard's key schedule |
| DiffieHellman.MulModP | 3rd/skynet/lualib-src/lua-crypt.c:795-815 | The product modulo P in 64-bit arithmetic that never overflows |
| DiffieHellman.PowModP | 3rd/skynet/lualib-src/lua-crypt.c:817-828 | The power as computed for a base up to P, for every exponent for which the recursion ends |
| DiffieHellman.PowEnds | 3rd/skynet/lualib-src/lua-crypt.c:817-828 | The recursion ends if and only if the exponent is not 0 |
| DiffieHellman.PowerModP | 3rd/skynet/lualib-src/lua-crypt.c:830-836 | The power modulo P if and only if not (base P and exponent 1), where it returns P |
| DiffieHellman.NeverZero | 3rd/skynet/lualib-src/lua-crypt.c:870-888 | No power of the generator is 0 modulo P |
| DiffieHellman.Exchange | 3rd/skynet/lualib-src/lua-crypt.c:870-888 | The message for the other side; an error exactly for a bad or zero key |
| DiffieHellman.Secret | 3rd/skynet/lualib-src/lua-crypt.c:853-866 | The secret from the other side's message and the own key; errors included |
| DiffieHellman.SentExactly | 3rd/skynet/lualib-src/lua-crypt.c:870-888 | A key is refused if and only if it has not eight bytes or they are all zero; otherwise the eight bytes of the message stand for the power of the generator |
| DiffieHellman.SharedExactly | 3rd/skynet/lualib-src/lua-crypt.c:853-866 | The secret is refused if and only if a side has not eight bytes or only zeros |
| DiffieHellman.KeyAgreement | 3rd/skynet/lualib-src/lua-crypt.c:838-888 | Both sides compute the same non-zero secret, for all non-zero keys, through the 8-byte messages |
| Sha1.PaddedIs | 3rd/skynet/lualib-src/lsha1.c:219-232 | The padding of the standard: a mark, as few zeros as make whole blocks, and the length as a number of 64 bits |
| Sha1.OutputIs | 3rd/skynet/lualib-src/lsha1.c:233-236 | Each word of the state comes out as four bytes that stand for it, the highest first |
| Sha1Block.Swapped | 3rd/skynet/lualib-src/lsha1.c:106-111 | A word loaded with its lowest byte first is turned into one with its highest byte first |
| Sha1Block.MixedIs | 3rd/skynet/lualib-src/lsha1.c:116-120 | The forms of the four functions in the code are those of the standard |
| Sha1Block.Expand | 3rd/skynet/lualib-src/lsha1.c:112-113 | The word of the message schedule for any round, kept in place of the one from sixteen rounds before |
| Sha1Block.RoundIs | 3rd/skynet/lualib-src/lsha1.c:116-120 | A round that updates two words in place and moves their names on is a step of the standard |
| Sha1Block.Transform | 3rd/skynet/lualib-src/lsha1.c:124-178 | The hash value after a block is that of the standard |
| Sha1Block.DigestIs | 3rd/skynet/lualib-src/lsha1.c:190-245 | So the digest of data below 2^61 bytes is the output of the standard for the padded data |
| Sha1.AbsorbAppend | 3rd/skynet/lualib-src/lsha1.c:190-214 | For any function on blocks: absorbing a + b is absorbing a, then what it leaves over with b |
| Sha1.CountedRight | 3rd/skynet/lualib-src/lsha1.c:199-200 | The bit count after a piece is right if and only if the piece is below 2^29 bytes or the low words add up to a carry |
| Sha1.Context.Update | 3rd/skynet/lualib-src/lsha1.c:190-214 | State, buffer and low word stay those of all data so far, for pieces of any size; the count is the specified one |
| Sha1.Context.Final | 3rd/skynet/lualib-src/lsha1.c:219-245 | The digest of the padded data with the counted length |
| Sha1.CountAllRight | 3rd/skynet/lualib-src/lsha1.c:190-214 | For pieces below 2^29 bytes the count is the length of all data in bits |
| Sha1.Sum | 3rd/skynet/lualib-src/lsha1.c:190-245 | The digest does not depend on how the data is cut into pieces below 2^29 bytes, for any function on blocks |
| Sha1.OnePiece | 3rd/skynet/lualib-src/lsha1.c:250-263 | Hashing a string in one call counts its length right if and only if it is below 2^29 bytes |

## Left out

- LpegAnalysis.GetFirstSound: does not say how small the set is; a larger one would cost speed, not correctness.
- LpegAnalysis.HeadFailSound: does not say for which patterns the answer is yes; fewer would cost speed, not correctness.
- LpegBuild.SeqOfMeans: does not say which simplifications are made; one left out would cost size, not correctness.
- LpegBuild.ChoiceOfMeans: likewise.
- LpegBuild.SubOfMeans: likewise.
- LpegVerify.VerifiedRuleSettles: goes one way only, for grammars on which `verifyrule` drops nothing at a nested grammar (`Keeps`) and without calls inside look-behinds, where the checks do not suffice (`NestedGrammarDiverges`, `CallBehindDiverges`); the converse would decide whether an arbitrary grammar terminates.
- LpegLeftCalls.VerifyRuleExact: the condition that `verifyrule` drops nothing at a nested grammar, without which it may accept too much (`NestedGrammarDiverges`); that it rejects only left recursion (`RejectedIffRecursion`) needs no condition.
- LpegLeftCalls.VerifyGrammarExact: the same condition on all rules.
- LpegLeftCalls.NullableExact: the same condition on all rules.
- LpegBudget.NullableNeverFails: the same condition on all rules.
- LpegBuild.RefusedLoopDiverges: patterns without predicates, calls and grammars; with a predicate the check errs on the safe side, as in (&'a')^0, which may end.
- LpegVerify.VerifiedSettles: the same condition on all grammars of the pattern.
- LpegVerify.VerifiedCompiles: the same condition on all grammars of the pattern.
- LpegBudget.AnalysesExact: the same condition (`NestedWalkDiverges`).
- LpegBudget.PatternExact: the same condition on all grammars of the pattern.
- LpegJumps.FinalTargetEnds: the same condition on all grammars of the pattern (`BehindCallJumps`).
- LpegJumps.EmitStops: the same condition on all grammars of the pattern.
- LpegCompiler.CompilePattern: the same condition on all grammars of the pattern, for `finaltarget` may not end otherwise.
- LpegCompiler.MatchPattern: the same condition on all grammars of the pattern.
- LpegBudget.FixedLenExact: grammars with more than MAXRULES rules, which `newgrammar` refuses, are not covered.
- LpegCompiler.Engine.Loop: takes a run that ends; that runs of verified patterns end is `LpegVerify.VerifiedCompiles`.
- SkynetSchedulerRuns.LaunchAccess: `cmd_launch` (skynet_server.c:484-498) also reads the context it is given back without a reference; that access is not a step of the model.
- LuaSeri.RoundTrip: total length below 2^31, because the reader counts in `int`; a table with a NaN key is packed but refused by the reader.
- LuaSeri.ListRoundTrip: the same limit on the total length.
- LuaSeri.PackAndUnpack: the same limit on the total length.
- LuaSeri.WriteBlock.PackTable: a table is given by its array part and its other pairs in the order `lua_next` or the iterator of `__pairs` yields them; errors raised by that iterator, userdata other than light, and Lua stack limits are out.

Assumptions:

- Atomic operations are sequentially consistent, and a region under a spin lock is one step.
- A handle is not given out again while anything of its former service is left.
- What a callback does (send, create, retire) is done by some other thread of the scheduler model. Whether a worker keeps a queue after a message is left open, which covers every `weight`.
- LPeg: every instruction is one cell, and offsets are relative to it; the widths of `set` instructions and of `OpenCall` keys are not modelled. The compiler and the machine use plain sets; `LpegCharset` connects these to bitmaps.
- LPeg builds without asserts (3rd/skynet/3rd/lpeg/makefile:4); in skynet's own build (3rd/skynet/Makefile:118-119) a look-behind of an open call stops in `hascaptures` instead of being accepted.
- `finaltarget` as a function has a bound on the jumps followed; `LpegJumps.FinalTargetEnds` shows that it is never reached.
- Memory is never exhausted.

Not modelled:

- LPeg: captures, substitution and run-time captures (lpcap.c), UTF-8 ranges, the limit on the backtrack stack, printing, the names of open calls and the conversion of Lua tables to grammars. Trees are values; they are not rewritten in an array.
- Scheduler: `dispatchall`, the monitor and the overload log line, harbor messages, commands other than the creation and retirement of services.
- Socket: UDP, user objects, listening and connecting apart from their effect on closing, sending on a socket that is not open yet, reuse of slots, statistics; a saturated 16-bit `sending` count is modelled as waiting.
- Timer: delays of 0 or less, which bypass the wheel; timers that are added while a list is being dispatched without the lock; the clock source. Lists are sequences and masks are division and remainder.
- Shared data: nested tables, the string table, metatables and reference counts; keys are 32-bit integers and strings, values are opaque.
- Receive buffer: the pool of list nodes; the list is a sequence of chunks, none of them empty, and sizes are unbounded.
- Packages: `lclear`, and the Lua values that carry events; hash chains and buffers are sequences, and a queue that is not there is an empty one.
- Serialisation on a big-endian host.
- Ciphers: MD5, HMAC, base64 and hex, which would only add easier members. Which byte of a word comes first in memory is that of a little-endian host. Lengths of single pieces stay below 2^61 bytes, where the shift of the 64-bit length would overflow.
- Handle store: `retireall`; registering a service and storing its handle in it is one step.
