# Verified models of zmake's build scheduler and of the demo algorithms beside it

Dafny models of the hard parts of the repository, each proved against an
independent statement of what it is for. `dafny verify dfyconfig.toml` checks
everything.

**Build scheduler** (`make2/dag`). The graph is a heap of node objects, as in
the source. On it are proved: the graph edits, the depth-first search with an
explicit stack, `is_dag`, `add_to_task_list` and the preprocessing pass. What
the pass hands over is a *plan*: the graph, the colours, the counters, and the
list. The stage with a master and `n` workers is modelled twice, as transition
systems on plans. `FineScheduling` steps from lock to lock, as the code does: a
release publishes the child as GREY before it takes the list lock, removes the
child and pushes it in two steps under that lock, and the master tests for an empty
list without it. `Scheduling` makes a release one step. In both the theorems range
over every interleaving of the system's steps and every `n`.

The two differ, and that is a result about the code. When the release is atomic,
every recipe runs exactly once, after its prerequisites, and the stage ends with
all of them run. Between the locks a node can be dispatched once from its old place
and once more after it was moved, and the list can look empty while its last node
is being moved. So the finer interleavings break exactly-once, the order of starts,
and completion. For each of the three `FineTheorems` and `FineEarly` prove exactly
which plans are safe, by a condition on the plan that can be tested before the run.

**JSON** (`demo/jsoncpp/jsoncpp.cpp`). The reader with its tokens, values, string and
number decoders and error recovery; both writers; integer printing and quoting.
The reader is also given as functions of the document and a position
(`JsonGrammar`), which its methods are proved to follow on every input. Which
documents it accepts is said again without it: by parse trees over tokens
(`JsonSyntax`), by what the text of each token looks like (`JsonLexing`), by the
pieces of a string literal (`JsonPieces`) and by the size of a number. Bytes are
characters. A JSON real is represented by its text, and whether the C library can
scan a text as floating point is a parameter (`scan`).

**Trees, rectangles, regular expressions, scans, nuggets**: the loops of
`bst.cpp`, `max_rectangle.cpp`, the simple regular expressions of
`gtest-port.cc`, `trap_rain.cpp`, `diffpar.c` and `nuggets.cpp`.

| file | contents |
|---|---|
| `Lists.dfy`, `CStrings.dfy` | colours, sequences without duplicates, regrouping; C strings |
| `Digraph.dfy` | walks, cycles, depth-first search on a mathematical graph |
| `Dag.dfy` | the graph in the heap, `is_dag`, `add_to_task_list` |
| `Preprocess.dfy` | what outdated means; the preprocessing pass |
| `Build.dfy` | from a collected list to a plan |
| `Scheduling.dfy`, `SchedulingInvariant.dfy`, `SchedulingTheorems.dfy` | the scheduling stage with atomic releases |
| `FineScheduling.dfy`, `FineInvariant.dfy` | the stage lock by lock, and its invariant |
| `FineSafety.dfy`, `FineProgress.dfy`, `FineEffects.dfy` | what every run of it keeps; bounded work and no deadlock; failing recipes, the list lock, order of starts |
| `FineMatching.dfy`, `FineGreedy.dfy`, `FineDouble.dfy`, `FineStall.dfy`, `FineTwice.dfy`, `FineDoubleAll.dfy` | building its critical runs in step with the atomic system |
| `FineTheorems.dfy`, `FineEarly.dfy`, `FineStrays.dfy`, `FineExamples.dfy` | the exact conditions; two plans that go wrong |
| `JsonLexing.dfy`, `JsonStrings.dfy`, `JsonPieces.dfy`, `JsonNumbers.dfy`, `JsonValues.dfy` | tokens, literals, their pieces, numbers, values |
| `JsonGrammar.dfy`, `JsonSyntax.dfy`, `JsonAcceptance.dfy`, `JsonErrors.dfy`, `JsonReader.dfy` | what the reader computes; parse trees without the reader; success means a tree; what a failure says; the reader |
| `JsonFastWriter.dfy`, `JsonStyledWriter.dfy`, `JsonPretty.dfy`, `JsonRoundTrip.dfy` | the writers; the indented form without columns; writing and reading back |
| `Trees.dfy`, `StackTraversals.dfy`, `Morris.dfy` | tree traversals |
| `Rectangles.dfy`, `Regex.dfy`, `Scans.dfy`, `Nuggets.dfy` | the smaller algorithms |

## Where the code decides

- A target that is a file, has no parents, has a recipe and does not exist is up
  to date for the code (`make2/dag/dag.cpp:443-452`); the comment at
  `make2/dag/dag.cpp:587-595` reads as if it had to exist. The model follows the code.
- A collected key that is added again is appended a second time
  (`make2/dag/dag.cpp:408-416`): `Dag.Dag.AddTarget` states it.
- The release loop publishes a child as GREY at `make2/dag/dag.cpp:548` and takes
  the list lock at line 551; a pass at lines 693-708 that meets the child in between
  sends it, and the worker then puts it back. The emptiness test at line 691 is made
  without the lock, between lines 552 and 553 too. `FineTheorems.ExactlyOnce` and
  `FineTheorems.EveryoneRuns`: with any number of workers, no interleaving does harm
  if and only if no outdated node has an outdated prerequisite. `FineEarly.NoEarlyStart`:
  a node can start too early if and only if some `c` waits for an outdated `v` and for
  a BLACK `u` such that no BLACK node up to `u` in the list waits for `v`.
- The comment at `make2/dag/dag.cpp:655` says that a released child must be
  BLACK. The release loop also counts down children that were never collected,
  whose counters the code never sets. `FineStrays.OnlyOutdatedStart` gives
  the exact condition under which this starts nothing that is up to date, and
  `SchedulingTheorems.OnlyOutdatedRun` the one for atomic releases.
- The second half of a surrogate pair is not checked to be a low surrogate
  (`demo/jsoncpp/jsoncpp.cpp:859-865`), an object whose last name is empty may end in a
  comma (`demo/jsoncpp/jsoncpp.cpp:592-600`), and after a comment that follows a member
  one token is dropped (`demo/jsoncpp/jsoncpp.cpp:626-637`). No comment may stand before
  a colon or alone between the brackets of an array. `JsonGrammar` does the same, and
  `JsonSyntax` has these as its only departures from section 2 of RFC 8259.
- A minus sign alone is a number for the code and reads as 0
  (`demo/jsoncpp/jsoncpp.cpp:700-731`).

## Model

| member | source | states |
|---|---|---|
| FineInvariant.MoveInv | make2/dag/dag.cpp:513-562 | every move of the master or of a worker from lock to lock keeps the whole invariant: counters, where each node is, list order, queue, workers, colours, log |
| FineInvariant.AlwaysFine | make2/dag/dag.cpp:671-717 | the invariant holds after every interleaving of moves with any number of workers |
| FineTheorems.ExactlyOnce | make2/dag/dag.cpp:543-556 | for each number of workers: no recipe starts or ends twice in any interleaving if and only if no node is BLACK after preprocessing |
| FineTheorems.EveryoneRuns | make2/dag/dag.cpp:691-717 | for each number of workers: whenever the stage is over all outdated nodes have run, if and only if no node is BLACK after preprocessing |
| FineEarly.NoEarlyStart | make2/dag/dag.cpp:527-556 | for four workers or more: every outdated node starts only after its outdated prerequisites have ended, in every interleaving, if and only if no `c` has outdated prerequisites `v` and `u` with `u` BLACK and no BLACK node up to `u` in the list waiting for `v` |
| FineSafety.SafeRun | make2/dag/dag.cpp:527-556 | the safe direction of this for any number of workers: then a ready node's outdated prerequisites have ended, and no start is early |
| FineSafety.AtMostTwice | make2/dag/dag.cpp:527-556 | in every interleaving a recipe starts at most twice, and only once unless its node was BLACK |
| FineDoubleAll.AllBlackTwice | make2/dag/dag.cpp:543-556 | one run ends with every BLACK node's recipe run twice and every GREY one's once |
| FineSafety.GreysRun | make2/dag/dag.cpp:671-717 | when the stage is over, nodes that were GREY have run and are WHITE, collected nodes up to date have not run, and each start has its end |
| FineSafety.CounterInEveryFineRun | make2/dag/dag.cpp:543-548 | `_wait_black` is the number of outdated prerequisites less the number of their dispatches that have released the node, and those prerequisites have ended |
| FineProgress.WorkIsBounded | make2/dag/dag.cpp:691-717 | in every interleaving the moves other than looking at the list and its lock are at most 2 N (3 N + 4) for N nodes |
| FineProgress.CanRunAll | make2/dag/dag.cpp:691-708 | no deadlock: as long as the master has not left and no recipe has failed, every run can be continued until all outdated nodes have ended |
| FineProgress.CanFinish | make2/dag/dag.cpp:691-717 | every run that no failing recipe has ended can be continued until the stage is over |
| FineEffects.CrashEndsRun | make2/dag/dag.cpp:529-536 | in every run a failing recipe is the last move, and the log is the one before it; only a started node with a recipe can fail |
| FineEffects.AbortedAtCrash | make2/dag/dag.cpp:531-535 | a run is aborted exactly when its last move is a failing recipe |
| FineEffects.AnyRecipeCanFail | make2/dag/dag.cpp:529-536 | in every run that none has ended, each running recipe can fail |
| FineEffects.LockIsExclusive | make2/dag/dag.cpp:551-554 | in every run at most one thread holds the list lock |
| FineEffects.HeldChildIsOut | make2/dag/dag.cpp:552-553 | while a worker holds it, the child it moves is out of the list |
| FineEffects.PassesEnd | make2/dag/dag.cpp:691-708 | a pass ends at the end of the list or at a BLACK node, the master leaves only from an empty list, and a purged task is out of the list |
| FineEffects.StartsInOrder | make2/dag/dag.cpp:525-527 | recipes start in the order in which their nodes were sent, and the queue holds the rest in that order |
| FineStrays.OnlyOutdatedStart | make2/dag/dag.cpp:542-556 | only outdated nodes ever start, in every interleaving, if and only if no uncollected node starts with a counter between one and the number of its outdated prerequisites, BLACK ones counted twice |
| FineExamples.PairGoesWrong | make2/dag/dag.cpp:548-553 | `u` after `a`, one worker: a run starts `u` twice, and a run is over without `u` |
| FineExamples.ForkGoesWrong | make2/dag/dag.cpp:548-553 | `u` after `a`, `c` after `u` and `v`: a run starts `c` before `v` has ended |
| FineGreedy.PoliteRunsHappen | make2/dag/dag.cpp:691-708 | an atomic run in which no pass of the master is interrupted is a run of the locked stage, with the same state at its end |
| SchedulingInvariant.StepInv | make2/dag/dag.cpp:513-562 | when the release is atomic: every step of the master or of a worker keeps the whole invariant: counters, list order, queue, workers, colours, log |
| SchedulingInvariant.Always | make2/dag/dag.cpp:671-717 | when the release is atomic: the invariant holds after every interleaving with any number of workers |
| SchedulingInvariant.ReadyMeansPrerequisitesEnded | make2/dag/dag.cpp:542-556 | when the release is atomic: when a counter has reached zero, every outdated prerequisite has finished |
| SchedulingInvariant.UpToDateNeverReady | make2/dag/dag.cpp:542-556 | a collected node that is up to date is never made ready |
| SchedulingTheorems.CounterInEveryRun | make2/dag/dag.cpp:543-548 | when the release is atomic: the counter of every collected node whose counter was set is the number of outdated prerequisites that have not yet released the node, and those that have are done |
| SchedulingTheorems.NoRecipeStartsEarly | make2/dag/dag.cpp:527-556 | when the release is atomic: in every run a recipe starts only after each outdated prerequisite's recipe has started and finished |
| SchedulingTheorems.NothingRunsTwice | make2/dag/dag.cpp:527-541 | when the release is atomic: no recipe starts twice or finishes twice |
| SchedulingTheorems.Conservation | make2/dag/dag.cpp:691-708 | when the release is atomic: listed, queued, running and done nodes partition the outdated nodes; the list is GREY nodes then BLACK ones, none WHITE, and holds every BLACK node |
| SchedulingTheorems.StepDecreases | make2/dag/dag.cpp:691-717 | when the release is atomic: every step lowers a measure of stages and unreleased edges by one |
| SchedulingTheorems.RunsAreBounded | make2/dag/dag.cpp:691-717 | when the release is atomic: a run has at most three steps a node, one an edge, and two more |
| SchedulingTheorems.Progress | make2/dag/dag.cpp:691-708 | when the release is atomic: while an outdated node is unfinished some working step is enabled |
| SchedulingTheorems.Completion | make2/dag/dag.cpp:671-717 | when the release is atomic: a run that cannot go on has finished exactly the outdated nodes among the collected ones, and left these WHITE, the queue empty and the workers idle |
| SchedulingTheorems.SameOutcome | make2/dag/dag.cpp:671-717 | when the release is atomic: what has run at the end depends neither on the interleaving nor on the number of workers |
| SchedulingTheorems.OnlyOutdatedRun | make2/dag/dag.cpp:542-556 | when the release is atomic: only outdated nodes ever start, in every run, if and only if no uncollected node starts with a counter between one and the number of its outdated prerequisites |
| SchedulingTheorems.StrayRuns | make2/dag/dag.cpp:542-556 | when the release is atomic: an uncollected node with such a counter does run in some interleaving |
| SchedulingTheorems.StrayPlanIsHarmful | make2/dag/dag.cpp:542-556 | a phony target with one uncollected child whose counter is 1 is a plan on which the child runs |
| SchedulingTheorems.CollectedChildrenAreHarmless | make2/dag/dag.cpp:542-556 | when every child of an outdated node is collected there is no such node |
| SchedulingTheorems.RepeatedRunsTwice | make2/dag/dag.cpp:691-708 | a phony target that stands in the list twice runs twice |
| SchedulingTheorems.FailEndsRun | make2/dag/dag.cpp:529-536 | in every run with atomic releases a failing recipe is the last step, and the log is the one before it |
| SchedulingTheorems.AnyRecipeMayFail | make2/dag/dag.cpp:529-536 | each running recipe can fail |
| Build.BeginSchedule | make2/dag/dag.cpp:671-680 | by kinds, recipes, edges and file times alone: the new list holds a collected node exactly when it is phony, or a parent is in the list, or it has a recipe and a parent is newer (a missing file has time 0), and is the least such set; fails exactly when a file without a recipe is missing or has a listed parent; leaves a plan that meets all the scheduling stage assumes |
| Build.LaterIsThere | make2/dag/dag.cpp:442-476 | with times that are not negative: newer means a normal parent that exists, with a time above the node's own, or above 0 when the node is missing |
| Build.StaleAreLate | make2/dag/dag.cpp:432-491 | the outdated set of the theory is that least set of nodes |
| Build.PlanIsPrepared | make2/dag/dag.cpp:576-617 | the handed-over graph is topologically ordered, listed GREY first and BLACK in collection order, a node is BLACK exactly when it has outdated prerequisites, and each counter that was set is their number |
| Build.PlanMirrors | make2/dag/dag.cpp:682-691 | the plan has exactly the graph's nodes, edges, colours, counters, recipes and lists, under their keys |
| Preprocess.Settle | make2/dag/dag.cpp:434-477 | by kind, recipe, edges and the file table: one node's time (its file's, or 0), its colour from its parents, its counter whenever it is phony or has parents, and exactly when it fails for want of a recipe |
| Preprocess.CountNonWhite | make2/dag/dag.cpp:436-439 | counts the parents that are not WHITE |
| Preprocess.AnyNewer | make2/dag/dag.cpp:471-476 | finds whether a parent is newer |
| Preprocess.Classify | make2/dag/dag.cpp:433-478 | over a topological list: each node ends BLACK exactly when a parent is outdated, with the count of such parents, GREY when it is outdated for itself, WHITE otherwise; fails exactly on a doomed node |
| Preprocess.Rearrange | make2/dag/dag.cpp:480-490 | the second loop leaves the reversed GREY nodes followed by the BLACK nodes in order |
| Preprocess.SchedulePreprocessing | make2/dag/dag.cpp:427-491 | both loops together |
| Outdated.StaleIsFixpoint | make2/dag/dag.cpp:611-612 | a node is outdated exactly when it is forced (phony, or a newer parent and a recipe) or some parent is outdated |
| Outdated.StaleIsLeast | make2/dag/dag.cpp:576-612 | the outdated set is the least set closed under these rules |
| Sieve.SiftedFacts | make2/dag/dag.cpp:480-490 | the sifted list keeps exactly the nodes that are not WHITE, once each, GREY ones first |
| Sieve.SiftedOrder | make2/dag/dag.cpp:480-490 | its BLACK nodes stand in their original order |
| Sieve.GreysTurnRound | make2/dag/dag.cpp:480-490 | its GREY nodes stand in the opposite of their original order |
| Dag.DagNode.constructor | make2/dag/dag.h:39-39 | a new node has no edges and no recipe |
| Dag.Dag.constructor | make2/dag/dag.h:94-94 | a new graph is empty and valid |
| Dag.Dag.GetNode | make2/dag/dag.cpp:183-187 | the node under a key or null |
| Dag.Dag.AddNode | make2/dag/dag.cpp:189-198 | the node under a key, made without edges if it is new |
| Dag.Dag.AddEdge | make2/dag/dag.cpp:200-206 | the edge set gains exactly this edge, and the in and out sets stay mutually inverse |
| Dag.Dag.RemoveEdge | make2/dag/dag.cpp:221-229 | the edge set loses exactly this edge, and the in and out sets stay mutually inverse |
| Dag.Dag.RemoveNode | make2/dag/dag.cpp:208-219 | the node goes with exactly the edges that touch it |
| Dag.Dag.Bleach | make2/dag/dag.cpp:719-723 | all nodes become WHITE |
| Dag.HasGrey | make2/dag/dag.cpp:298-299 | finds whether a neighbour is GREY |
| Dag.FirstWhite | make2/dag/dag.cpp:139-159 | a WHITE neighbour, or null when there is none |
| Dag.Dag.SourceOf | make2/dag/dag.cpp:94-109 | ends even inside a cycle: at a node without parents from which the start can be reached, or, only when there is a cycle among the start's ancestors, at the start itself |
| Digraph.EdgeClosesLoop | make2/dag/dag.cpp:99-104 | an edge to a node that reaches its other end closes a cycle above everything that node reaches |
| Dag.Dag.Search | make2/dag/dag.cpp:293-320 | the stack search in either direction: fails exactly when a cycle lies among the unvisited nodes that can be reached; otherwise gives them in post-order |
| Dag.Dag.FromNodeStack2 | make2/dag/dag.cpp:291-326 | the search along children, with the same verdict |
| Dag.Dag.FromNodeRecursive | make2/dag/dag.cpp:328-340 | the recursive search gives the same verdict from any colouring without GREY nodes |
| Dag.Dag.VisitFromSource | make2/dag/dag.cpp:357-362 | one round of `is_dag` visits the node it starts for, or there is a cycle |
| Dag.Dag.IsDag | make2/dag/dag.cpp:348-365 | true exactly when the graph has no cycle |
| Dag.Dag.ClearTaskList | make2/dag/dag.h:169-169 | the list becomes empty |
| Dag.Dag.AddToTaskList | make2/dag/dag.cpp:385-425 | fails exactly when the key is absent or a cycle lies among the ancestors not yet visited; otherwise appends these ancestors, parents first; a failing call has appended and turned BLACK a parents-first part of them, and left GREY only ancestors it did not finish, the target among them |
| Dag.Dag.AddTarget | make2/dag/dag.cpp:391-420 | on a collected list a WHITE target keeps it a duplicate-free topological order and adds exactly the target's ancestors; a BLACK one is appended again |
| DepthFirst.PostOrderOfAllIsAcyclic | make2/dag/dag.cpp:352-356 | a post-order of all nodes exists only without cycles |
| DepthFirst.SearchDone | make2/dag/dag.cpp:284-290 | a finished search has visited exactly the unvisited nodes that the root reaches |
| DepthFirst.BackEdge | make2/dag/dag.cpp:298-303 | an edge from the top of the stack back into the stack closes a cycle among the nodes searched |
| Digraph.LoopIsCycle | make2/dag/dag.cpp:348-365 | such a cycle is a cycle of the graph |
| JsonLexing.ReadToken | demo/jsoncpp/jsoncpp.cpp:422-491 | every token lies in the document, and each read advances unless the stream has ended |
| JsonLexing.ReadTokenShape | demo/jsoncpp/jsoncpp.cpp:422-585 | only spaces are skipped, and the text of a token is of its kind: a mark, a word, a string whose quotes are all escaped, a comment up to its first end, all the bytes of a number |
| JsonLexing.StringIsToken | demo/jsoncpp/jsoncpp.cpp:575-585 | wherever a text stands that has the shape of a string, the next token is all of it |
| JsonLexing.CommentIsToken | demo/jsoncpp/jsoncpp.cpp:514-564 | the same for a comment |
| JsonLexing.ErrorsAreNoTokens | demo/jsoncpp/jsoncpp.cpp:422-491 | a token is an error only where no text of any other kind begins |
| JsonLexing.RecoverShape | demo/jsoncpp/jsoncpp.cpp:913-924 | recovery stops after the first token of the wanted kind or at the end of the stream, and passes no such token |
| JsonLexing.RendersConcat | demo/jsoncpp/jsoncpp.cpp:422-491 | texts that read as tokens may be joined unless the seam glues two numbers |
| JsonLexing.SpacesRender | demo/jsoncpp/jsoncpp.cpp:493-501 | spaces between tokens read as nothing |
| JsonStrings.ContainsControlCharacter | demo/jsoncpp/jsoncpp.cpp:2995-3001 | finds a character from 1 to 31 |
| JsonStrings.ValueToQuotedString | demo/jsoncpp/jsoncpp.cpp:3075-3135 | the fast path and the escaping path both give the quoted form |
| JsonStrings.LiteralRoundTrip | demo/jsoncpp/jsoncpp.cpp:575-585 | for every string and whatever follows it, the reader takes exactly the quoted form as one token, and decoding it gives the string back |
| JsonStrings.EscapedDecodes | demo/jsoncpp/jsoncpp.cpp:793-844 | decoding inverts escaping |
| JsonStrings.DecodeBody | demo/jsoncpp/jsoncpp.cpp:793-844 | the decoding loop, with each of its errors and their positions |
| JsonStrings.DecodeUnicodeCodePoint | demo/jsoncpp/jsoncpp.cpp:846-873 | one \u escape or a surrogate pair |
| JsonStrings.DecodeUnicodeEscapeSequence | demo/jsoncpp/jsoncpp.cpp:875-901 | exactly four digits by the two tables of sixteen, worth their places in base sixteen; otherwise the first character in neither table is the error |
| JsonStrings.HexValueIsExact | demo/jsoncpp/jsoncpp.cpp:888-893 | a character has the value of its place in either table, and none when it is in neither |
| JsonPieces.DecodesExactlyPieces | demo/jsoncpp/jsoncpp.cpp:793-844 | a literal is decoded without error exactly when it is written in plain bytes, one-letter escapes, \u escapes and pairs of them, and gives what these are worth |
| JsonPieces.EscapeIsExact | demo/jsoncpp/jsoncpp.cpp:3085-3131 | only a quote, a backslash and the bytes from 1 to 31 are escaped, by one letter where there is one and else by \u and upper-case digits of the byte's number |
| JsonStrings.EscapesDecodeToUtf8 | demo/jsoncpp/jsoncpp.cpp:846-873 | any scalar values written as \u escapes, in either case and with surrogate pairs, decode to their UTF-8 |
| JsonStrings.Utf8IsExact | demo/jsoncpp/jsoncpp.cpp:100-126 | up to U+10FFFF the encoder's bytes are the only shortest UTF-8 of the number (section 3 of RFC 3629) |
| JsonNumbers.UintToString | demo/jsoncpp/jsoncpp.cpp:145-151 | writes the decimal digits and a NUL backwards inside the buffer and touches nothing else |
| JsonNumbers.SixtyFourBitsNeedTwentyDigits | demo/jsoncpp/jsoncpp.cpp:131-138 | twenty digits, a sign and a NUL fit the buffer of 25 |
| JsonNumbers.SignedToString | demo/jsoncpp/jsoncpp.cpp:3003-3014 | the decimal text, for the smallest number too |
| JsonNumbers.UnsignedToString | demo/jsoncpp/jsoncpp.cpp:3016-3022 | the decimal text |
| JsonNumbers.DigitsAreExact | demo/jsoncpp/jsoncpp.cpp:145-151 | the printed digits are worth the number |
| JsonNumbers.DecodeNumber | demo/jsoncpp/jsoncpp.cpp:689-735 | for any number of digits the 64-bit accumulation never wraps; a text of digits after an optional minus sign gives an integer exactly when its size is at most 2^64-1, or 2^63 after the sign, with exactly that value; everything else is left to `scan` |
| JsonNumbers.MeaningIsExact | demo/jsoncpp/jsoncpp.cpp:692-735 | this reading is the only one |
| JsonNumbers.WholeIsPlain | demo/jsoncpp/jsoncpp.cpp:692-698 | such texts are the ones without a point, an exponent, a plus sign or a minus sign inside |
| JsonNumbers.IntegerRoundTrip | demo/jsoncpp/jsoncpp.cpp:728-733 | every integer from -2^63 to 2^64-1 is read back, signed up to 2^31-1 and unsigned above |
| JsonValues.LessIsLexicographic | demo/jsoncpp/jsoncpp.cpp:1669-1672 | keys are ordered by the first byte that differs, a proper prefix first |
| JsonValues.StoreFacts | demo/jsoncpp/jsoncpp.cpp:2379-2397 | storing a member keeps the keys in order, replaces one value and leaves the others |
| JsonGrammar.ReadValue | demo/jsoncpp/jsoncpp.cpp:332-403 | reading stays inside the document, adds no error when it succeeds and exactly one when it fails, at any depth |
| JsonGrammar.ReadArray | demo/jsoncpp/jsoncpp.cpp:642-677 | the same for arrays |
| JsonGrammar.ReadMembers | demo/jsoncpp/jsoncpp.cpp:587-640 | the same for objects |
| JsonGrammar.ReadValueIsOrdered | demo/jsoncpp/jsoncpp.cpp:587-640 | on every input, valid or not, the objects built have distinct keys in order |
| JsonAcceptance.ReadsExactlyTrees | demo/jsoncpp/jsoncpp.cpp:332-677 | reading succeeds if and only if the document goes on with the tokens of a legal parse tree, and then gives the tree's value and stops after it |
| JsonAcceptance.ValueHasTree | demo/jsoncpp/jsoncpp.cpp:332-403 | what was read without error has a tree: closed brackets, commas between elements, a name, a colon and a value a member |
| JsonAcceptance.TreeIsRead | demo/jsoncpp/jsoncpp.cpp:332-403 | every legal tree is read without error |
| JsonErrors.ErrorsAreJust | demo/jsoncpp/jsoncpp.cpp:332-901 | on every document, at any depth, the error of a failed read is about a token that is not what the message asks for, and in a literal at the byte that went wrong |
| JsonErrors.FailedMemberStays | demo/jsoncpp/jsoncpp.cpp:619-625 | a member that is there already keeps its value when its name comes again with a scalar that cannot be read |
| JsonGrammar.ReadsBack | demo/jsoncpp/jsoncpp.cpp:332-403 | reading a value's tokens, whatever comes after them, gives the value with its integers re-tagged and stops right after it |
| JsonReader.Reader.Parse | demo/jsoncpp/jsoncpp.cpp:291-330 | for every document: ends; returns true exactly when the document begins with the tokens of a legal parse tree, and then with the value of the tree; otherwise with one error; the value and the error are those of the grammar |
| JsonReader.Reader.ReadValue | demo/jsoncpp/jsoncpp.cpp:332-403 | replaces the top of the stack as the grammar says and leaves the rest of the stack alone |
| JsonReader.Reader.SkipCommentTokens | demo/jsoncpp/jsoncpp.cpp:405-413 | the next token that is not a comment |
| JsonReader.Reader.ReadToken | demo/jsoncpp/jsoncpp.cpp:422-491 | the next token |
| JsonReader.Reader.SkipSpaces | demo/jsoncpp/jsoncpp.cpp:493-501 | stops at the first byte that is not a space |
| JsonReader.Reader.Match | demo/jsoncpp/jsoncpp.cpp:503-512 | takes the rest of a word if it is all there |
| JsonReader.Reader.ReadComment | demo/jsoncpp/jsoncpp.cpp:514-535 | takes a comment of either kind |
| JsonReader.Reader.ReadCStyleComment | demo/jsoncpp/jsoncpp.cpp:548-555 | up to the closing star and slash, or fails at the end |
| JsonReader.Reader.ReadCppStyleComment | demo/jsoncpp/jsoncpp.cpp:557-564 | up to the end of the line |
| JsonReader.Reader.ReadNumber | demo/jsoncpp/jsoncpp.cpp:566-573 | all the bytes that can be in a number |
| JsonReader.Reader.ReadString | demo/jsoncpp/jsoncpp.cpp:575-585 | up to the first quote that no backslash precedes |
| JsonReader.Reader.ReadObject | demo/jsoncpp/jsoncpp.cpp:587-640 | the members as the grammar gives them, with every error and recovery |
| JsonReader.Reader.ReadOneMember | demo/jsoncpp/jsoncpp.cpp:602-638 | one round of the member loop |
| JsonReader.Reader.ReadMember | demo/jsoncpp/jsoncpp.cpp:619-624 | reads into a new or an existing member |
| JsonReader.Reader.ReadArray | demo/jsoncpp/jsoncpp.cpp:642-677 | the elements as the grammar gives them, with every error and recovery |
| JsonReader.Reader.ReadOneItem | demo/jsoncpp/jsoncpp.cpp:653-674 | one round of the element loop |
| JsonReader.Reader.ReadItem | demo/jsoncpp/jsoncpp.cpp:654-657 | reads into a new element |
| JsonReader.Reader.DecodeNumber | demo/jsoncpp/jsoncpp.cpp:679-687 | stores the number or adds the error |
| JsonReader.Reader.DecodeString | demo/jsoncpp/jsoncpp.cpp:783-791 | the decoded text, or one error at the right place |
| JsonReader.Reader.AddError | demo/jsoncpp/jsoncpp.cpp:903-911 | one more error |
| JsonReader.Reader.RecoverFromError | demo/jsoncpp/jsoncpp.cpp:913-924 | ends at the wanted token or the end of the stream, with the errors as they were |
| JsonReader.Reader.AddErrorAndRecover | demo/jsoncpp/jsoncpp.cpp:926-931 | both |
| JsonReader.Reader.GetNextChar | demo/jsoncpp/jsoncpp.cpp:935-939 | the next byte, or NUL at the end without moving |
| JsonFastWriter.FastWriter.constructor | demo/jsoncpp/jsoncpp.cpp:3144-3146 | a writer with the default settings |
| JsonFastWriter.FastWriter.EnableYamlCompatibility | demo/jsoncpp/jsoncpp.cpp:3148-3148 | sets the flag |
| JsonFastWriter.FastWriter.OmitEndingLineFeed | demo/jsoncpp/jsoncpp.cpp:3152-3152 | sets the flag |
| JsonFastWriter.FastWriter.Write | demo/jsoncpp/jsoncpp.cpp:3154-3160 | exactly the texts of the value's tokens one after another, a space after each colon in YAML mode, and the line feed unless it is omitted |
| JsonFastWriter.FastWriter.WriteValue | demo/jsoncpp/jsoncpp.cpp:3162-3208 | appends exactly the value's tokens |
| JsonFastWriter.FastDocumentLexes | demo/jsoncpp/jsoncpp.cpp:3154-3208 | the written document is cut back into exactly the value's tokens |
| JsonStyledWriter.StyledWriter.Write | demo/jsoncpp/jsoncpp.cpp:3216-3225 | the document is the value's layout, a function of the value alone, and is cut back into exactly the value's tokens |
| JsonPretty.LayoutIsPretty | demo/jsoncpp/jsoncpp.cpp:3227-3375 | the layout at any depth is the text of the parts, each laid out on its own, moved right as a whole by three columns a level; an array is on one line exactly when it has fewer than 25 flat elements and that line is under 74 columns |
| JsonStyledWriter.LayoutRenders | demo/jsoncpp/jsoncpp.cpp:3227-3320 | at every depth the layout of a value is cut back into exactly the value's tokens, whatever stands around it |
| JsonStyledWriter.StyledWriter.WriteValue | demo/jsoncpp/jsoncpp.cpp:3227-3277 | appends the value's layout for the current depth, or caches the text of a small value; the indentation is as before |
| JsonStyledWriter.StyledWriter.WriteObject | demo/jsoncpp/jsoncpp.cpp:3253-3274 | one member a line, three columns deeper, the brace on its own line, with the unindent assertion met |
| JsonStyledWriter.StyledWriter.WriteArrayValue | demo/jsoncpp/jsoncpp.cpp:3279-3320 | the elements on one line or on several, as the layout has it |
| JsonStyledWriter.StyledWriter.WriteMultiLine | demo/jsoncpp/jsoncpp.cpp:3285-3308 | one element a line, three columns deeper, from the cache or directly |
| JsonStyledWriter.StyledWriter.WriteSingleLine | demo/jsoncpp/jsoncpp.cpp:3309-3318 | the cached elements between brackets and spaces, a comma and a space apart, with the child-count assertion met |
| JsonStyledWriter.StyledWriter.IsMultilineArray | demo/jsoncpp/jsoncpp.cpp:3322-3345 | true exactly when the array has too many elements, an element with something inside, or more than fits in 74 columns; when it is not decided early the cache holds every element's text |
| JsonStyledWriter.StyledWriter.PushValue | demo/jsoncpp/jsoncpp.cpp:3347-3352 | to the cache or to the document |
| JsonStyledWriter.StyledWriter.WriteIndent | demo/jsoncpp/jsoncpp.cpp:3354-3363 | nothing after a space, else the indentation, on a new line unless the document is empty or ends in one |
| JsonStyledWriter.StyledWriter.WriteWithIndent | demo/jsoncpp/jsoncpp.cpp:3365-3368 | that and then the text |
| JsonStyledWriter.StyledWriter.Indent | demo/jsoncpp/jsoncpp.cpp:3370-3370 | three more spaces |
| JsonStyledWriter.StyledWriter.Unindent | demo/jsoncpp/jsoncpp.cpp:3372-3375 | three fewer spaces |
| JsonRoundTrip.DocumentRoundTrip | demo/jsoncpp/jsoncpp.cpp:291-330 | any document made of a value's tokens, whatever spaces stand between them, is read without error as the value with its integers re-tagged |
| JsonRoundTrip.FastRoundTrip | demo/jsoncpp/jsoncpp.cpp:3154-3208 | parsing what the compact writer writes gives the value back up to re-tagging, with any settings and nesting |
| JsonRoundTrip.StyledRoundTrip | demo/jsoncpp/jsoncpp.cpp:3216-3375 | parsing what the indenting writer writes gives the value back up to re-tagging |
| JsonRoundTrip.WritersAgree | demo/jsoncpp/jsoncpp.cpp:3216-3375 | the two writers give the same tokens |
| JsonRoundTrip.NormalKeepsTokens | demo/jsoncpp/jsoncpp.cpp:728-733 | re-tagging shows nowhere in the text |
| Trees.RecursivePreorder | demo/algorithm/bst/bst.cpp:382-389 | visits the nodes in preorder |
| Trees.RecursiveInorder | demo/algorithm/bst/bst.cpp:391-398 | visits the nodes in order |
| Trees.RecursivePostorder | demo/algorithm/bst/bst.cpp:400-407 | visits the nodes in postorder |
| StackTraversals.StackPreorder | demo/algorithm/bst/bst.cpp:432-445 | the one-stack loop ends and visits exactly the preorder sequence |
| StackTraversals.StackInorder | demo/algorithm/bst/bst.cpp:450-466 | the one-stack loop ends and visits exactly the inorder sequence |
| StackTraversals.StackPostorder | demo/algorithm/bst/bst.cpp:471-495 | the one-stack loop ends and visits exactly the postorder sequence |
| StackTraversals.TwoStackInorder | demo/algorithm/bst/bst.cpp:515-538 | the two-stack loop ends and visits exactly the inorder sequence |
| StackTraversals.TwoStackPostorder | demo/algorithm/bst/bst.cpp:540-566 | the two-stack loop ends and visits exactly the postorder sequence |
| StackTraversals.NoFalseMatch | demo/algorithm/bst/bst.cpp:486-486 | a right child that no longer waits is on neither stack, so the test never matches wrongly |
| Morris.MorrisPreorder | demo/algorithm/bst/bst.cpp:592-613 | ends, visits exactly the preorder sequence, and gives every pointer of the tree back as it was |
| Morris.MorrisInorder | demo/algorithm/bst/bst.cpp:615-636 | ends, visits exactly the inorder sequence, and gives every pointer of the tree back as it was |
| Morris.Predecessor | demo/algorithm/bst/bst.cpp:600-602 | finds the rightmost node of the left subtree, threaded or not |
| Morris.ThreadsAvoid | demo/algorithm/bst/bst.cpp:600-611 | the only thread that starts inside what is left to visit starts at its last node |
| Rectangles.HistMaxArea | demo/leetcode/max_rectangle.cpp:18-39 | for heights of either sign, the maximum over all ranges of width times minimum, but at least minus INT_MAX, which is also the result without columns |
| Rectangles.PopCovers | demo/leetcode/max_rectangle.cpp:27-31 | the ranges that lose their last stacked position fit under the popped height |
| Rectangles.MaxRectangle | demo/leetcode/max_rectangle.cpp:50-68 | the area of the largest all-true rectangle |
| Rectangles.HeightTable | demo/leetcode/max_rectangle.cpp:52-58 | each cell counts the true cells upwards in its column |
| Rectangles.HeightIsExact | demo/leetcode/max_rectangle.cpp:56-58 | a height is at least k exactly when the k cells upwards are true |
| Regex.ValidateRegex | demo/gtest/src/gtest-port.cc:257-311 | accepts exactly the expressions of the grammar |
| Regex.ClassesByCode | demo/gtest/src/gtest-port.cc:210-219 | digits, spaces, word characters and punctuation by their ASCII codes |
| Regex.AtomsByCode | demo/gtest/src/gtest-port.cc:228-247 | what each atom matches, by codes |
| Regex.ValidEscapesMatch | demo/gtest/src/gtest-port.cc:222-247 | the validator lets through exactly the escapes that match something |
| Regex.GoesOnIsSimple | demo/gtest/src/gtest-port.cc:269-308 | the validator's bookkeeping is the grammar |
| Regex.MatchRepetitionAndRegexAtHead | demo/gtest/src/gtest-port.cc:320-342 | true exactly when some allowed number of matching characters is followed by a match of the rest |
| Regex.MatchRegexAtHead | demo/gtest/src/gtest-port.cc:347-373 | true exactly when some prefix is in the language, the whole text after a dollar sign |
| Regex.MatchRegexAnywhere | demo/gtest/src/gtest-port.cc:383-396 | true exactly when some substring is in the language, or some prefix after a caret |
| Regex.FirstThenRest | demo/gtest/src/gtest-port.cc:313-319 | a pattern matches at the head exactly when its first item takes some characters and the rest matches what follows |
| Scans.TrapRain | demo/leetcode/trap_rain.cpp:5-21 | for heights of either sign, the sum over all places of the lower of the two walls minus the height; only when no height is above zero is the first place left out |
| Scans.GetDiff | demo/algorithm/diffpar/diffpar.c:42-76 | on sorted input, a pair whose difference is nearest to the wanted one over all pairs |
| Nuggets.Nuggets.constructor | demo/algorithm/nuggets/nuggets.cpp:18-29 | establishes the invariant: the queues hold each denomination, and only zero is known |
| Nuggets.Nuggets.Next | demo/algorithm/nuggets/nuggets.cpp:31-46 | returns the least sum of the denominations beyond all returned before, so n calls give the n smallest, in order; zero for ever if a denomination is zero |
| Nuggets.LeastFrontIsNext | demo/algorithm/nuggets/nuggets.cpp:35-39 | the least of the three fronts is the next sum |

## Left out

- Worker shutdown: condition variables, joining and the final notify loop. The stage is over when the master has left its loop, the queue is empty and no worker has a task.
- The atomic system (`Scheduling`) has coarser releases than the code, and lets workers step in between two elements of a pass, which the lock forbids; what it proves is claimed for atomic releases only.
- FineEarly.NoEarlyStart: with one to three workers only the safe direction is proved (`FineSafety.SafeRun`).
- The memory model: the unlocked reads and writes of a colour, of the flag and of the list's size are atomic.
- Preprocess.Settle: file existence, modification times and target types are inputs; a call of `exit(1)` is a failure result; a failing recipe ends the run.
- Iteration over a `std::set` of pointers is an arbitrary choice of an element.
- `dag::dfs`, `sink_of`, `num_edge`, recipes as text, printing and time stamps.
- Fields the source leaves uninitialised have arbitrary values; counters and times are unbounded integers.
- Build.BeginSchedule: the start of `schedule` on a list made by successful calls on WHITE targets; a list with a key in it twice is not covered, and `SchedulingTheorems.RepeatedRunsTwice` shows that its recipe would run twice.
- Strings of 2^31 bytes or more, allocation failure, the depth of recursion, and line lengths beyond `int` in the JSON code.
- Comments of JSON values, their placement, and offsets of values: comments are read and skipped.
- Reader features other than the default ones, `dropNullPlaceholders`, numeric keys, sparse arrays, and `Path`.
- JsonRoundTrip.FastRoundTrip: reals are not covered, because their text is rounded by the C library; infinities and not-a-numbers are not modelled.
- JsonReader.Reader.ReadValue: the source keeps pointers into the value being built on its stack; the model keeps the values, and stores a finished one in its parent when it is popped.
- JsonReader.Reader.DecodeString: the decoders below it return their error instead of recording it.
- Trees.RecursivePreorder: the recursive traversals return the sequence of nodes that the source prints.
- StackTraversals.StackPreorder: the empty tree, on which the source dereferences a null pointer.
- Height balance, insertion and deletion of `bst.cpp`, and its unfinished Morris postorder.
- Rectangles.HistMaxArea: products beyond `int`.
- Regex.ValidateRegex: messages, null pointers, and the patterns `RE` builds for full matches.
- Nuggets.Nuggets.Next: sums stay below 2^64 - 1.
- Scans.GetDiff: exact reals in place of floating point; fewer than two elements, on which the source reads outside its array.
