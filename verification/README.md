# The controller's ledgers, requests, clock and publication race

This project models the parts of the chess controller that keep ownership, budget and time exact, and proves what they
promise. Code that works by changing things in place is modelled as classes and methods with loops; each such method
is tied by its contract to a function on values, and the theorems are about those functions, their runs and their
reachable states. `dafny verify dfyconfig.toml` checks everything.

**Prefix shards** (`PrefixShards`, `ShardInvariant`, `ShardSplit`, `ShardTheorems`, `ShardRuns`, `ShardOrder`,
`ShardPaths`, `ShardCommands`, `ShardValidator`, `PrefixShardLedger`). A tree of move prefixes under two indexes, with
owners and the states unassigned, leased, active, sealed, retired. `Inv` is an inductive strengthening of the
invariant that the program re-checks at run time after every mutation; every operation keeps it, so that check never
fails, three of the rejections in the split operation are unreachable, and the frontier is prefix-free, exact and
owned. When each command is accepted, what it changes, in which order the shards are walked and which corruptions the
check catches are told by plain facts. `Ledger` is the mutable class, with the two indexes holding the same objects.

**Budget ledger, journal and replayer** (`Amounts`, `Budget`, `BudgetInvariant`, `BudgetBounds`, `BudgetAccounts`,
`BudgetAvailability`, `BudgetObjects`, `BudgetInstances`, `BudgetLedger`, `Replay`, `ReplayRows`, `ReplayTheorems`,
`ReplayRuns`). Money is kept per lane, per purpose group, per open reservation and in a journal; a separately written
replayer folds the journal. The two agree at every cut under an explicit guard, and exactly under it. Settling and
releasing accept any object with an open id, as the code does; exactly which objects keep the books balanced is
characterised, and the theorems about replay are about the objects that reserving returned. Milliseconds are real
numbers and the replayer's tolerance is a parameter.

**Requests and dispatch** (`Text`, `GoRequest`, `GoRoundTrip`, `GoGrammar`, `Position`, `PositionRoundTrip`,
`PositionReading`, `PrefixDispatch`, `DispatchAlgebra`). Printers and parsers of the `go` and `position` commands of
the Universal Chess Interface, and the compilers that turn a move prefix or a set of sibling children into such
requests, connected to the shard frontier.

**Clock planning and envelopes** (`Envelopes`, `MoveEnvelopes`, `TimePlan`, `ClockSafety`, `ClockRequest`,
`ClockReading`, `ClockPlan`, `AnchorRequest`). Reading a clock request, the soft and hard budgets, the envelope clamp
in its three forms, and what holds over one move and over a whole game.

**Publication race** (`ClockOutcome`, `ClockRace`, `ClockRaceSafety`, `ClockRaceTheorems`, `ClockVerdicts`). Publish,
fail, finish and block as a transition system whose step is one statement of one thread, under the authority gate and
the state lock. Finishing takes only the lock and blocking only the gate. Every complete interleaving equals running
the operations whole, one after another, in a recorded order.

**Child partition and nomination** (`ChildPartition`, `ShardDeal`, `Nomination`, `NominationOrder`,
`NominationShards`). Dealing children to owners in turn, what split followed by transfers then leaves in the shard
tree, the choice of deeper zooms from stage evidence, exactly when that choice depends on the order in which the
evidence arrives, and the splitting of what was chosen.

**Trajectory statistics** (`RankAgreement`, `RankPairs`, `Trajectory`, `TrajectoryCounts`). Kendall's tau over the
shared moves, the prefix-based distance of two lines, and three separately written loops over one leader history.

## Where the code does less than its purpose suggests

- The replayer refuses some journals that the ledger writes. The ledger offers at least zero, so it admits a zero-size
  claim while a partition or the whole envelope is overrun; the replayer compares with the unclamped headroom.
  `charge_elapsed` also takes purposes other than the controller's, which the replayer refuses.
  `ReplayTheorems.RunReplays` gives the exact condition; `ReplayRuns.ZeroClaimAfterOverrunRefused` and
  `ReplayRuns.OtherChargeRefused` are an instance of each.
- Nominations can depend on the order in which the evidence arrives. They do exactly when two rows are rivals: both
  are clean, no clean row with a smaller key ends where either of them ends, they share parent, owner and search id,
  and they make different nominations (`Nomination.OrderIndependentIff`). `Nomination.ArrivalOrderShows` gives two
  valid rows and their two outcomes.
- Settling and releasing find a reservation by its id but book the fields of the object they are given, so the books
  stay balanced exactly when two subtractions come out right: in the lane the object names, and in the group of its
  purpose, what is reserved less the object's amount, clamped at zero, is what is reserved less the stored amount if
  that is the stored lane or group, and otherwise is unchanged, the stored amount being zero
  (`BudgetObjects.ClosingIff`). An object whose amount is no more than is reserved there must therefore show the
  stored amount and, unless that is zero, the stored lane and purpose group (`BudgetObjects.HarmlessWithin`). When the
  object is refused for its lane or purpose its id is closed all the same; the books stay balanced exactly when the
  stored amount is zero and the named lane loses nothing (`BudgetObjects.DroppedIff`).
  `BudgetInstances.ForeignObjectUnbalances` is a run that unbalances them.

## Model

| member | source | states |
|---|---|---|
| ShardInvariant.IdInjective | controller/prefix_shards.py:159-163 | the identifier text determines the generation and the whole move prefix |
| ShardInvariant.IdReads | controller/prefix_shards.py:159-163 | an identifier spells the generation in six digits, the depth in three and the moves between dots |
| ShardInvariant.CreatedKeeps | controller/prefix_shards.py:87-135 | every ledger that construction accepts satisfies the invariant |
| ShardInvariant.AssignmentIff | controller/prefix_shards.py:210-281 | a root partition is accepted exactly when none was assigned yet and the lists are an exact, repetition-free cover of the roots by the owners; the coverage-mismatch rejection is unreachable |
| ShardInvariant.AssignKeeps | controller/prefix_shards.py:210-281 | an accepted root assignment keeps the invariant |
| ShardInvariant.AdvanceKeeps | controller/prefix_shards.py:283-321 | activating and sealing keep the invariant |
| ShardInvariant.TransferKeeps | controller/prefix_shards.py:422-467 | an accepted transfer keeps the invariant |
| ShardCommands.CreateIff | controller/prefix_shards.py:87-135 | a ledger is created exactly from a positive generation, distinct named owners and distinct canonical roots |
| ShardCommands.CreatedRows | controller/prefix_shards.py:103-135 | a new ledger holds one unassigned, childless shard for each root, at the position the root was declared in, and nothing else |
| ShardCommands.AssignGives | controller/prefix_shards.py:210-281 | an accepted partition leases each root to the one owner whose list names its move, and changes nothing else |
| ShardCommands.ActivateIff | controller/prefix_shards.py:283-301 | an activation is accepted exactly for a leased frontier shard by its own owner |
| ShardCommands.SealIff | controller/prefix_shards.py:303-321 | a seal is accepted exactly for an active frontier shard by its own owner |
| ShardCommands.TransferIff | controller/prefix_shards.py:422-467 | a transfer is accepted exactly for distinct leased frontier shards of the giver, to another authorized owner |
| ShardCommands.StateChanges | controller/prefix_shards.py:283-420 | after assignment a shard's state changes only by an accepted command that names that shard and its current owner, and then exactly to the next state |
| ShardCommands.OwnerChanges | controller/prefix_shards.py:422-467 | after assignment a shard changes hands only by an accepted transfer that lists it, and then to the receiver |
| ShardCommands.RunAdvances | controller/prefix_shards.py:210-467 | over any run after assignment a shard has moved on exactly as many states as there were accepted commands of its current owner naming it |
| ShardSplit.AncestorHasChild | controller/prefix_shards.py:69-71 | a shard strictly above another shard has children |
| ShardSplit.FrontierUnrelated | controller/prefix_shards.py:648-657 | no frontier shard is a strict prefix of any other shard |
| ShardSplit.SplitIff | controller/prefix_shards.py:323-393 | a split is accepted exactly for a sealed shard, by its owner, with a non-empty, canonical, duplicate-free child list; recreating a prefix, breaking the frontier and splitting twice are rejections that cannot occur |
| ShardSplit.SplitResult | controller/prefix_shards.py:395-420 | a split retires the parent with its children listed in order, adds exactly those leased children under the same owner, and leaves every other shard alone |
| ShardSplit.SplitKeeps | controller/prefix_shards.py:323-420 | an accepted split keeps the invariant |
| ShardTheorems.StepKeeps | controller/prefix_shards.py:210-467 | every command, accepted or rejected, keeps the invariant |
| ShardTheorems.ValidatorAccepts | controller/prefix_shards.py:550-668 | the run-time check accepts every state that satisfies the invariant |
| ShardTheorems.EveryRunValidates | controller/prefix_shards.py:550-668 | after any sequence of commands from any accepted creation the run-time check passes |
| ShardValidator.RowTamperingCaught | controller/prefix_shards.py:566-632 | of a valid ledger with any one row replaced, the run-time check passes only rows with the same identity, place, children and retirement, and an authorized owner if any |
| ShardValidator.IndexTamperingCaught | controller/prefix_shards.py:551-586 | of a valid ledger with its prefix index or its list of roots replaced, the check passes only the original ones |
| ShardValidator.HeaderTamperingCaught | controller/prefix_shards.py:569-590 | a changed partition flag or generation fails the check, and so do owners that leave out one in use |
| ShardValidator.FrontierTestImplied | controller/prefix_shards.py:648-657 | the pairwise test on the frontier can never fire once the tests on the rows have passed |
| ShardTheorems.PreorderListsOnce | controller/prefix_shards.py:189-200 | the recursive walk lists every shard exactly once |
| ShardOrder.SubtreeContiguous | controller/prefix_shards.py:189-200 | the walk lists every subtree in one piece and nothing of it anywhere else |
| ShardPaths.WalkAscends | controller/prefix_shards.py:189-200 | the walk lists the shards in ascending order of their paths of ordinals: ancestors first, then roots and siblings as declared |
| ShardPaths.FrontierAscends | controller/prefix_shards.py:202-208 | the frontier keeps that order |
| ShardTheorems.FrontierExact | controller/prefix_shards.py:202-208 | the frontier is exactly the childless shards, each listed once |
| ShardTheorems.LineMeetsFrontier | controller/prefix_shards.py:530-535 | a line that starts at a root and takes only declared children passes a frontier shard exactly when it does not stop at a split shard, and then only one |
| ShardTheorems.LineHasOneOwner | controller/prefix_shards.py:537-544 | after assignment that frontier shard has exactly one owner, an authorized one |
| ShardTheorems.EligibleIffSplittable | controller/prefix_shards.py:490-513 | a sealed frontier leaf is reported exactly when its owner may split it by precisely the non-empty, canonical, duplicate-free child lists |
| ShardRuns.StepPersists | controller/prefix_shards.py:210-467 | one command never removes a shard, moves its state backwards, takes its owner away or alters a retired shard |
| ShardRuns.RunPersists | controller/prefix_shards.py:210-467 | the same over any run: identity and tree position of a shard are permanent, its state only advances |
| ShardRuns.RunCounts | controller/prefix_shards.py:210-467 | over any run the revision grows by the accepted commands, the retired shards by the accepted splits and the shards by the children they created |
| ShardRuns.CountsFromCreation | controller/prefix_shards.py:87-135 | from creation: revision, retired shards and total shards equal accepted commands, accepted splits, and roots plus created children |
| ShardRuns.SplitFrontier | controller/prefix_shards.py:395-420 | a split replaces exactly its shard by its children in the frontier |
| ShardRuns.OthersKeepFrontier | controller/prefix_shards.py:210-321 | no other command changes which shards are on the frontier |
| PrefixShardLedger.Ledger.Create | controller/prefix_shards.py:87-135 | construction reports the first objection, or a fresh valid ledger in the created state |
| PrefixShardLedger.Ledger.Visit | controller/prefix_shards.py:192-198 | the recursive visit appends the preorder below a shard, and ends |
| PrefixShardLedger.Ledger.OrderedIds | controller/prefix_shards.py:189-200 | the walk from all roots is the specified preorder |
| PrefixShardLedger.Ledger.FrontierShards | controller/prefix_shards.py:202-208 | the frontier objects are those of the specified frontier, in order |
| PrefixShardLedger.Ledger.FindsCycle | controller/prefix_shards.py:637-646 | following parent links from any accepted row meets no id twice |
| PrefixShardLedger.Ledger.ValidateInvariants | controller/prefix_shards.py:550-668 | the run-time check passes exactly on the accepted states |
| PrefixShardLedger.Ledger.AssignRootPartition | controller/prefix_shards.py:210-281 | assigns all roots or changes nothing, and stays valid |
| PrefixShardLedger.Ledger.Activate | controller/prefix_shards.py:283-301 | activates the owner's leased frontier shard or changes nothing, and stays valid |
| PrefixShardLedger.Ledger.Seal | controller/prefix_shards.py:303-321 | seals the owner's active frontier shard or changes nothing, and stays valid |
| PrefixShardLedger.Ledger.Split | controller/prefix_shards.py:323-420 | splits into all children and returns their ids in order, or changes nothing, and stays valid |
| PrefixShardLedger.Ledger.Transfer | controller/prefix_shards.py:422-467 | hands over all listed shards or none, and stays valid |
| PrefixShardLedger.Ledger.GetByPrefix | controller/prefix_shards.py:473-488 | the position and text of the first move that is not canonical, else the objection to an empty or unknown prefix, else the row filed there |
| PrefixShardLedger.Ledger.SealedFrontierLeaf | controller/prefix_shards.py:490-513 | the row of a sealed frontier leaf, else nothing |
| PrefixShardLedger.Ledger.FrontierForOwner | controller/prefix_shards.py:537-544 | the owner's rows of the frontier, in frontier order |
| PrefixShardLedger.OwnerFrontier | controller/prefix_shards.py:537-544 | an owner's frontier is exactly the childless shards it owns |
| PrefixShardLedger.OwnerFrontierInOrder | controller/prefix_shards.py:537-544 | an owner's frontier is in ascending order of paths, each shard once |
| BudgetLedger.SumValues | controller/budget.py:383-387 | adding up a table gives its sum whatever the order |
| BudgetLedger.Ledger.AvailableCpu | controller/budget.py:421-432 | the smaller of the group's and the whole CPU headroom, never below zero; an unknown purpose is an error |
| BudgetLedger.Ledger.AvailableGpu | controller/budget.py:434-445 | the same for the GPU |
| BudgetLedger.Ledger.Reserve | controller/budget.py:454-568 | the first objection, with a recorded denial when capacity is short, or a new reservation under an unused id; the books stay balanced |
| BudgetLedger.Ledger.Settle | controller/budget.py:570-660 | for any object handed in: turns an open id into spend by measured, estimated or declared amounts and journals it, or refuses, after taking the claim back as far as the fields are usable; balanced books stay balanced exactly when the object may close its id, as the stored one may |
| BudgetLedger.Ledger.Release | controller/budget.py:662-687 | for any object handed in: gives an open id back and journals it, or refuses part-way as settling does; a closed one is ignored; balanced books stay balanced exactly when the object may close its id, as the stored one may |
| BudgetLedger.Ledger.ChargeElapsed | controller/budget.py:689-711 | charges a lane and a purpose without a reservation and credits the native-work counter the note names, if any; the books stay balanced |
| BudgetLedger.Ledger.ControllerOverhead | controller/budget.py:756-783 | charges the controller's own lane and purpose and credits the label's own native-work counter; the books stay balanced |
| BudgetLedger.Ledger.WithinPartitionCaps | controller/budget.py:824-839 | true exactly when every group's commitment is within its cap |
| BudgetLedger.Ledger.WithinEnvelope | controller/budget.py:841-846 | true exactly when the total commitment is within the envelope |
| BudgetAccounts.ReserveIff | controller/budget.py:454-535 | a reservation is accepted exactly for non-negative amounts, complete or absent provenance, a named lane, a known purpose and enough of both resources |
| BudgetAccounts.DenialIff | controller/budget.py:505-535 | a refused reservation leaves a denial, with what was wanted and what there was, exactly when everything but capacity was in order |
| BudgetAccounts.SettleIff | controller/budget.py:570-616 | when a settlement is accepted, for any object, in terms of its arguments |
| BudgetAccounts.SettleSpends | controller/budget.py:586-623 | a settlement spends, on the lane and group of the stored reservation only, what was measured and otherwise what was declared, CPU and GPU apart |
| BudgetAccounts.SettleCommits | controller/budget.py:586-623 | it moves the commitment, in total and of its group alone, by measured less declared in each component |
| BudgetAccounts.UnmeasuredFreesNothing | controller/budget.py:586-595 | with nothing measured what is available to every group stays as it was |
| BudgetAccounts.SettleAttributes | controller/budget.py:597-645 | the spend of each component lands under the name given, or the one that goes with what was measured, and one settlement is counted under the CPU's name |
| BudgetAccounts.SettleJournals | controller/budget.py:646-660 | the journal row holds what was declared, what was spent and both names |
| BudgetAccounts.ReleaseUndoesReserve | controller/budget.py:454-687 | releasing what was just reserved restores every account, claim, denial and capacity |
| BudgetAccounts.ReleaseIff | controller/budget.py:662-671 | a release is accepted for any object that is not open, or that names a lane and a known purpose |
| BudgetAccounts.ChargeIff | controller/budget.py:689-711 | a charge is accepted exactly for a non-negative time, a named lane and a known purpose |
| BudgetAccounts.ChargeSpends | controller/budget.py:689-711 | a charge spends its CPU time on its own lane and group, reserves and frees nothing, and is journalled |
| BudgetAccounts.CountersAddUp | controller/budget.py:689-783 | over any run a native-work counter of a lane holds the sum of the accepted charges that name it |
| BudgetAvailability.AvailableFor | controller/budget.py:389-445 | over any run what each purpose is offered, from the envelope, the open claims and the journal alone: the verification fraction, the refinement fraction, the controller's absolute CPU reserve, or the remainder shared by solver and anchor |
| BudgetInvariant.StepKeepsBooks | controller/budget.py:454-711 | after every command lanes, groups, open reservations and journal still account for the same money |
| BudgetInvariant.RefusalLeavesBooks | controller/budget.py:454-711 | a refused command on the stored reservation changes nothing but the record of denials |
| BudgetInvariant.RunKeepsBooks | controller/budget.py:454-711 | the same after any run |
| BudgetInvariant.ClampNeverBites | controller/budget.py:614-623 | the clamps at zero in settle and release never change a value: what remains reserved is exactly the sum over the other open reservations |
| BudgetObjects.ClosingIff | controller/budget.py:611-687 | an accepted settlement or release with any object leaves the books balanced exactly when, in the named lane and in the named group, what it takes off is what the stored reservation claims there |
| BudgetObjects.DroppedIff | controller/budget.py:611-616 | a refusal after the id has left the open reservations keeps the books balanced exactly when nothing was claimed and the named lane, if any, loses nothing |
| BudgetObjects.StepKeepsBooksIff | controller/budget.py:454-711 | every command, refused or not, on any object: the books stay balanced exactly when a command that closes an id does so with an object that may |
| BudgetObjects.RunKeepsBooksIff | controller/budget.py:454-711 | over any run the books are balanced after every command exactly when every closing command has an object that may close its id |
| BudgetObjects.HarmlessWithin | controller/budget.py:614-623 | an object that asks for no more than its lane and group have reserved must show the stored amount and, unless that is nothing, the stored lane and purpose group |
| BudgetObjects.MatchingIsHarmless | controller/budget.py:614-623 | provenance, and which of two purposes of one group is named, never matter |
| BudgetObjects.OtherLaneUnbalances | controller/budget.py:611-623 | an object that names another lane than the stored one unbalances the books, unless nothing was claimed |
| BudgetInstances.ForeignObjectUnbalances | controller/budget.py:611-623 | a concrete accepted run, reserving on one lane and settling under another lane's name, after which the books are unbalanced |
| BudgetBounds.CapsPartition | controller/budget.py:402-411 | the four partition caps of a valid envelope add up to exactly the envelope |
| BudgetBounds.LanesAgreeWithGroups | controller/budget.py:383-400 | the commitment over lanes equals the commitment over purpose groups |
| BudgetBounds.ReservedAgrees | controller/budget.py:383-400 | group reservations sum to the open reservations, and lane spend equals group spend |
| BudgetBounds.CapsImplyEnvelope | controller/budget.py:824-846 | keeping every partition cap keeps the envelope |
| BudgetBounds.RunBounded | controller/budget.py:454-711 | over any run the commitment, in total and per group, exceeds its capacity by at most the settlement overruns and unreserved charges in the journal |
| BudgetLedger.ReplayJournal | controller/orchestration_integrity.py:593-906 | the loop over the journal computes the specified replay, with the first objection as its error |
| ReplayRows.ReplayIff | controller/orchestration_integrity.py:593-906 | for any ceilings, journal and tolerance the report exists exactly when all ceilings are given and non-negative and every row may follow those before it |
| ReplayRows.AcceptedNext | controller/orchestration_integrity.py:655-866 | one more row is accepted exactly when it may follow: in sequence; a new positive id with room for its amount; a row that repeats an open reservation up to the tolerance; or a controller's charge |
| ReplayRows.FoldIs | controller/orchestration_integrity.py:648-866 | after an accepted journal the open reservations are those of its rows that none closes, and each group has spent what its rows record |
| ReplayTheorems.StepReplays | controller/orchestration_integrity.py:655-906 | one more command: the longer journal is accepted exactly when an accepted command meets the guard, and the accounts then agree again |
| ReplayTheorems.RunReplays | controller/orchestration_integrity.py:593-906 | the whole journal of any run is accepted exactly when every accepted command meets the guard, and then all accounts agree |
| ReplayRuns.CutIsRun | controller/budget.py:332-346 | every prefix of a run's journal is the whole journal of a prefix of the run |
| ReplayRuns.ReplayAtEveryCut | controller/orchestration_integrity.py:593-906 | at every cut of a guarded run's journal the replayer reports the ledger's open count, commitment, spend per group and lane, settlement counts and, without tolerance, its envelope and partition flags |
| ReplayRuns.UnguardedRefused | controller/orchestration_integrity.py:742-755 | the replayer's report exists exactly for guarded runs |
| ReplayRuns.ZeroClaimAfterOverrunRefused | controller/orchestration_integrity.py:742-755 | a concrete accepted run, a zero-size claim after an overrun, whose journal the replayer refuses |
| ReplayRuns.OtherChargeRefused | controller/orchestration_integrity.py:852-857 | under every valid envelope a single accepted charge for another purpose than the controller's gives a journal that the replayer refuses |
| ReplayRuns.AcceptedIsARun | controller/orchestration_integrity.py:655-906 | every well-formed journal accepted without tolerance is, up to renaming reservation ids, the journal of a run of accepted commands |
| ReplayRuns.AcceptedEndsAlike | controller/orchestration_integrity.py:655-906 | and that run ends in the accounts the replayer reports |
| GoRequest.ParseGo | common/search_request.py:114-167 | the two nested loops end and compute the specified request |
| GoRequest.TokensConserved | common/search_request.py:124-160 | the pieces the parser bites off are, in order, exactly the tokens |
| GoRequest.EveryTokenCounted | common/search_request.py:124-160 | every token is a limit name or value, a flag, a root move, an unknown token or a searchmoves keyword, counted once |
| GoGrammar.OnlyReading | common/search_request.py:124-160 | every token list has exactly one reading by the grammar of limits, flags, maximal restrictions and unknown tokens, and it is the one the parser makes |
| GoGrammar.NaturalIff | common/search_request.py:132-147 | the texts read as a natural number are its decimal digits behind any zeros, and a minus sign before zeros for zero |
| GoGrammar.ReadIff | common/search_request.py:120-121 | a command is read exactly when it is "go" or starts with "go" and a blank |
| GoRequest.SortNames | common/search_request.py:178 | the names of a limit dictionary in ascending order without repeats |
| GoRequest.SortedUnique | common/search_request.py:178 | a dictionary has only one such list |
| GoRequest.BuildGo | common/search_request.py:170-205 | the first objection in the builder's order, or the one canonical command text, with every truthy flag and no falsy one |
| GoRoundTrip.BuildThenParse | common/search_request.py:114-205 | parsing a built command returns the sorted limits without false flags, the lower-cased moves in order and no unknown token |
| GoGrammar.BuiltIff | common/search_request.py:170-205 | a command is built exactly from positive integers under numeric names, flags, and distinct root moves if any are given, when something is printed |
| Position.ParsePositionCommand | common/search_request.py:79-111 | the reassigned remainder and the move loop compute the specified request or first error |
| PositionRoundTrip.ParsedIsPrintable | common/search_request.py:79-111 | whatever parsing returns has canonical moves, a known variant and a FEN that printing keeps recognisable |
| PositionRoundTrip.PrintThenParse | common/search_request.py:69-111 | a printed request is read back as itself exactly when its variant is known, its moves are canonical and its FEN is the start position or a trimmed, non-empty field without the moves marker |
| PositionReading.NothingIgnored | common/search_request.py:79-111 | the words of an accepted command are its base position and its moves up to letter case, and nothing more |
| PositionReading.AnyCaseReads | common/search_request.py:79-111 | a canonical text with moves in any case is read as its lower-cased moves exactly under the two known variants |
| PositionReading.LowersToMove | common/search_request.py:103-109 | the tokens taken as moves are two squares and an optional promotion piece, in either case |
| PrefixDispatch.DescendantPosition | common/prefix_dispatch.py:38-57 | the position after the whole canonical prefix, or the first refused index |
| PrefixDispatch.CompilePrefixDispatch | common/prefix_dispatch.py:59-97 | the compiled prefix, or the first objection |
| PrefixDispatch.CompileDescendantRegion | common/prefix_dispatch.py:99-156 | the compiled sibling region, or the first objection |
| DispatchAlgebra.DescendantComposes | common/prefix_dispatch.py:38-57 | descending through a concatenation is descending twice, refusals included |
| DispatchAlgebra.CompilesIff | common/prefix_dispatch.py:59-97 | a prefix compiles exactly when it is non-empty and canonical and the limits can be printed |
| DispatchAlgebra.RegionCompilesIff | common/prefix_dispatch.py:99-156 | a region compiles exactly for a canonical parent, unique canonical children and printable limits |
| DispatchAlgebra.PrefixExtendsHistory | common/prefix_dispatch.py:59-97 | compiled moves plus the one search move are the history plus the whole prefix; both commands read back as what was compiled |
| DispatchAlgebra.OneChildRegion | common/prefix_dispatch.py:99-156 | a one-child region is the request of the prefix one move deeper |
| DispatchAlgebra.RegionIsUnion | common/prefix_dispatch.py:99-156 | a region is responsible for exactly the games its one-child prefixes are responsible for |
| DispatchAlgebra.FrontierDisjoint | common/prefix_dispatch.py:59-97 | different frontier shards never compile to requests responsible for a common game |
| DispatchAlgebra.FrontierCoversOnce | common/prefix_dispatch.py:59-97 | every line that follows the declared children is the responsibility of exactly one frontier shard's request |
| Envelopes.ClampAccepted | controller/budget.py:122-159 | which clamps are accepted; the result passes its own construction checks and exceeds neither its parent nor the ceilings |
| Envelopes.ClampedCaps | controller/budget.py:122-159 | each partition cap of a clamped envelope is within its parent's |
| Envelopes.ClampedCapsSum | controller/budget.py:122-204 | the four CPU partition caps of a clamped envelope sum to exactly its CPU |
| Envelopes.SolverYieldsFirst | controller/budget.py:141-159 | the controller's absolute reserve shrinks exactly when it no longer fits, and then the solver's ceiling is zero |
| Envelopes.ClampsCompose | controller/budget.py:122-159 | two successive clamps are one clamp by the minima |
| Envelopes.BoundedAccepted | controller/budget.py:161-169 | a move's envelope exists for every positive bound and is one clamp, no wider than its processors |
| Envelopes.ScaledIsOneClamp | controller/adaptive_time.py:202-220 | scaling a move's envelope to the host is one clamp of the declared envelope by the smaller parallelism |
| Envelopes.PlanNeverFails | controller/adaptive_time.py:223-325 | beneath a move's envelope the selection succeeds for every host report; none of the guards against exceeding the time plan can fire |
| Envelopes.AdaptsIff | controller/adaptive_time.py:223-305 | the envelope is adapted exactly on a ready host whose processors, quota and declared slots are all positive, by the fewest of them and the planned ones |
| MoveEnvelopes.BoundedUse | controller/budget.py:161-169 | a move's envelope has the lesser wall time and the CPU time of its processors over that wall time, or all there is |
| MoveEnvelopes.AdaptedUse | controller/adaptive_time.py:202-220 | an adapted move keeps the wall time and has the CPU time of the processors counted on, or all there is |
| MoveEnvelopes.ScaledIff | controller/adaptive_time.py:202-220 | which envelopes and processor counts scaling refuses, and with what |
| MoveEnvelopes.GuardIff | controller/adaptive_time.py:320-325 | the guards pass exactly an envelope that exceeds the time plan's in no component by more than 1e-12 |
| MoveEnvelopes.KeptForFirstReason | controller/adaptive_time.py:223-305 | an envelope is kept for the first reason, in the program's order, that holds of the host and the composition, and for none other |
| TimePlan.TakeLimits | controller/online_time.py:82-104 | the loop over the parsed limits computes the specified limits or first refusal |
| ClockReading.ReadIff | controller/online_time.py:82-104 | clock mode reads exactly the commands without unknown tokens, with distinct numeric limits in range and at most one restriction to distinct lower-case moves, and what it reads are those limits and moves |
| ClockSafety.PlanIsSafe | controller/online_time.py:187-207 | soft is at least one, soft plus stop grace plus output margin is hard, hard plus reserve fits the clock, and the envelope is the declared one clamped to the move |
| ClockSafety.AcceptedIff | controller/online_time.py:174-194 | an offer becomes a plan exactly when the clock, its share and the envelope each exceed the margins, on a CPU-only envelope |
| ClockSafety.MoreClockNeverHurts | controller/online_time.py:155-190 | with more time on the clock an accepted request stays accepted and its hard budget does not shrink |
| ClockSafety.FlagNeverFalls | controller/online_time.py:155-207 | over any number of moves that use at most hard plus reserve the clock is never negative, not even before the increment |
| ClockRequest.ShareIsSustainable | controller/online_time.py:182-183 | the share is the largest whole number of milliseconds that clock and hinted increments can pay for on every move of the horizon |
| ClockRequest.SideAlternates | common/search_request.py:54-64 | each further move of the history passes the turn |
| ClockRequest.BuiltClockReads | controller/online_time.py:82-104 | a built request with plain numeric limits is read back as exactly those limits and its lower-cased root moves |
| ClockPlan.SideIsKnown | common/search_request.py:54-64 | the side is known exactly for six fields of which the second is w or b: that side after an even number of moves, the other after an odd number |
| ClockPlan.StartposSide | common/search_request.py:54-64 | from the start position White is to move after an even number of moves and Black after an odd number |
| ClockPlan.CommandPlan | controller/online_time.py:155-207 | the plan of any accepted command: the side from the FEN's field and the parity of the moves, that side's clock and increment, the share over the lesser of horizon and movestogo, and each budget the largest its bounds allow; or the fixed time with nothing held back |
| ClockPlan.PlannedIff | controller/online_time.py:155-207 | exactly when a command becomes a plan, in terms of its limits, the position, the settings and the envelope |
| ClockPlan.PlanUsesMoversClock | controller/online_time.py:155-207 | the plan for a printed clock request draws on the clock and increment printed for the side the FEN's field and the parity of the moves give, less the reserve, and keeps its root moves |
| AnchorRequest.ParsedRootsAreMoves | common/search_request.py:153-157 | root moves collected by the parser are canonical whatever the tokens |
| AnchorRequest.AnchorReadsBack | controller/online_time.py:196-198 | the anchor request parses to one movetime limit and the accepted root moves, and clock mode itself reads it as that fixed budget |
| AnchorRequest.PlanPromises | controller/online_time.py:155-207 | an accepted plan is safe, keeps the request's root moves, sends a canonical anchor request and leaves an envelope under which the adaptive selection succeeds |
| ClockOutcome.ClockSearch.TryPublish | controller/online_time.py:256-293 | answers and changes the state as the publish operation does alone; the write is attempted only past every check |
| ClockOutcome.ClockSearch.FailSearch | controller/online_time.py:300-320 | answers and changes the state as the fail operation does alone |
| ClockOutcome.ClockSearch.FinishSearch | controller/online_time.py:322-331 | answers and changes the state as the finish operation does alone |
| ClockOutcome.ClockSearch.BlockAuthority | controller/online_time.py:248-254 | answers and changes the state as the block operation does alone |
| ClockOutcome.ClockSearch.Outcome | controller/online_time.py:333-338 | reports the terminal values, and in time exactly for a finished search with a line, no failure and an emission by the hard budget |
| ClockOutcome.CommittedIsFinal | controller/online_time.py:256-331 | in any sequence of operations committed authority means finished, without failure, never blocked |
| ClockOutcome.EndsOnce | controller/online_time.py:256-331 | a search is finished exactly when one terminal verdict was given, and there is never a second |
| ClockOutcome.EndIsFrozen | controller/online_time.py:256-331 | nothing after the end changes line, failure, time or commitment |
| ClockOutcome.EndIsTheTerminals | controller/online_time.py:256-331 | the terminal state is that of the one terminal operation; a publication was checked before hard expiry and its write was accepted |
| ClockRaceTheorems.StepSound | controller/online_time.py:216-331 | every statement of every thread, every tick and every soft close keeps the race invariant |
| ClockRaceTheorems.AtMostOneWrite | controller/online_time.py:256-293 | in every reachable state at most one write was accepted and at most one terminal verdict given |
| ClockRaceTheorems.EndStands | controller/online_time.py:256-331 | once finished, no interleaving changes line, failure, time or commitment |
| ClockRaceTheorems.CommittedIsSafe | controller/online_time.py:248-320 | committed authority is never blocked nor a failure, and the search is finished by the time the committing thread drops the lock |
| ClockRaceTheorems.LateNeverPublishes | controller/online_time.py:277-280 | a publish whose deadline check is at or past hard expiry is refused for good |
| ClockRaceTheorems.DecidedOnce | controller/online_time.py:248-331 | each decided operation has exactly one place in the record, with the verdict it gives when the recorded operations are taken whole |
| ClockRaceTheorems.RecordGrows | controller/online_time.py:248-331 | what the record holds stays in it, in place, whatever runs next |
| ClockRaceTheorems.RealTimeOrder | controller/online_time.py:248-331 | an operation that has its verdict while another has none is ahead of the other in the record for good |
| ClockRaceTheorems.QuietIsRecorded | controller/online_time.py:333-338 | whenever the lock is free the outcome shown is the recorded one |
| ClockRaceTheorems.RaceIsSequential | controller/online_time.py:216-331 | every complete race ends in the state and with the verdicts of the same operations taken whole in record order |
| ClockRaceTheorems.SomeoneCanAct | controller/online_time.py:222-232 | gate before lock admits no deadlock: while an operation is unfinished some thread can move |
| ClockRaceTheorems.RunsAreShort | controller/online_time.py:248-331 | no interleaving executes more statements than the operations contain |
| ClockRaceTheorems.CanComplete | controller/online_time.py:248-331 | from every reachable state all operations can be brought to their end |
| ClockRaceTheorems.OneOutcomeWins | controller/online_time.py:256-331 | a complete race is finished exactly when it contains a fail, a finish or a successful publish, and then exactly one terminal verdict was given |
| ClockRaceTheorems.EveryRaceIsSafe | controller/online_time.py:216-331 | from a fresh search, for any operations and any interleaving: safe in every state, frozen once finished, no longer than the operations, always completable, and at its end sequential with exactly one winner if anything concludes it |
| ClockVerdicts.VerdictFromRecord | controller/online_time.py:248-331 | the verdict of every recorded operation from earlier entries alone: finished after a conclusion, else expired when late, else revoked when it needs authority and a stop was accepted, else blocked when its write is refused, else published; fail, finish and block accepted exactly before any conclusion |
| ClockVerdicts.FlagsFromRecord | controller/online_time.py:210-331 | the finished, blocked, committed and closed flags, each from the recorded operations |
| ClockVerdicts.EndFromRecord | controller/online_time.py:300-338 | the line, failure and time left behind by the concluding operation, and when that is in time |
| ClockVerdicts.NothingEmitted | controller/online_time.py:333-338 | before any conclusion there is no line, failure or time |
| ClockVerdicts.RaceVerdicts | controller/online_time.py:248-331 | in every reachable state of every race each verdict is the one its place in the record calls for; in a complete race every operation has one |
| ChildPartition.PartitionChildren | controller/refinement.py:305-322 | the bucket loop returns the first refusal, else the dealt list of every owner |
| ChildPartition.AcceptedIff | controller/refinement.py:305-316 | a partition is accepted exactly for some owner and canonical children without repeats |
| ChildPartition.DealtAt | controller/refinement.py:305-322 | owner k of n receives children k, k+n, k+2n, ... in order, and how many |
| ChildPartition.Reinterleaves | controller/refinement.py:305-322 | child i is entry i / n of owner i mod n |
| ChildPartition.DealIsPartition | controller/refinement.py:305-322 | the lists are disjoint and repetition-free, cover the children and differ in size by at most one |
| ChildPartition.AcceptedDeal | controller/refinement.py:305-322 | for every accepted input, repeated owners included: each child is with exactly the owner of its position, nothing else is dealt, no list repeats, list lengths are the quotas of the positions, and distinct owners differ by at most one |
| ShardDeal.SplitThenDeal | controller/refinement.py:1104-1123 | splitting a sealed leaf and handing every other owner its share: each transfer is accepted, the end state is valid and adds just the children, all other shards are as before, and below the parent each owner's frontier is its dealt share, in order |
| Nomination.KeyOrder | controller/refinement_policy.py:85-93 | sort keys are totally ordered, equal only when the same |
| Nomination.KeyTrans | controller/refinement_policy.py:85-93 | and transitively so |
| NominationOrder.StageBeforeIs | controller/refinement_policy.py:85-93 | the sort order in plain terms: parents by first difference, then owners by their last position in the given order, unlisted ones last and by name, then search identity |
| NominationOrder.ListedOrder | controller/refinement_policy.py:85-93 | of two stages of one parent the one whose owner stands last earlier in the given order goes first, and any listed owner goes before an unlisted one |
| NominationOrder.ParentBeforeContinuation | controller/refinement_policy.py:85-93 | a stage of a parent goes before a stage of any line that continues it |
| Nomination.EvaluateNominations | controller/refinement_policy.py:75-121 | the loop over the sorted rows computes the specified nominations; another policy is refused |
| Nomination.OrderIndependentIff | controller/refinement_policy.py:75-121 | all arrangements of the evidence give the same nominations exactly when no two rows are rivals |
| Nomination.OrderIndependent | controller/refinement_policy.py:75-121 | with distinct keys there are no rivals, and sorted evidence and nominations do not depend on the order of the evidence |
| Nomination.ArrivalOrderShows | controller/refinement_policy.py:75-121 | two valid rows whose nominations come in the order the rows arrived in |
| Nomination.NominatesEachTerminalOnce | controller/refinement_policy.py:95-121 | nominated prefixes are distinct, each extends a clean stage's parent by its own child, taken from the first such stage in key order, and every clean terminal is nominated |
| NominationOrder.NominatedIff | controller/refinement_policy.py:95-121 | a move below a parent is nominated exactly when a stage of that parent ended on it cleanly |
| NominationOrder.TakenFromLeader | controller/refinement_policy.py:95-121 | each nomination is taken from a stage before which no cleanly ended stage on the same move goes |
| NominationOrder.NominationsInOrder | controller/refinement_policy.py:95-121 | of two nominations the one taken from the stage that goes first comes first |
| NominationOrder.LaterIsNotTaken | controller/refinement_policy.py:95-121 | of two cleanly ended stages on one move the later is not the one nominated |
| Nomination.NominationsAreCanonical | controller/refinement_policy.py:36-55 | from valid evidence every nomination is a canonical non-empty prefix with a named expansion, owner and search |
| NominationShards.NominationsNameShards | controller/prefix_shards.py:490-513 | each nomination from evidence about retired shards is filed as a shard, and no two as the same; of these, as of any filed prefix, being a sealed frontier leaf decides whether it may be split |
| NominationShards.NominationsCanSplit | controller/prefix_shards.py:323-420 | any choice of nominations that are sealed leaves can be split in any order: every split is accepted, each chosen shard is retired with exactly its children, no other shard changes, and stages over the new children are evidence about retired shards again |
| RankAgreement.ComputeRankAgreement | common/residuals.py:131-160 | the pair loops compute tau over the shared moves |
| RankAgreement.TauSymmetric | common/residuals.py:131-160 | swapping the rankings does not change tau |
| RankAgreement.PairsAll | common/residuals.py:145-158 | without repeats every pair counts: s(s-1)/2 of them |
| RankAgreement.TauExtremes | common/residuals.py:131-160 | tau is undefined exactly below two shared moves, lies in [-1, 1], and is 1 or -1 exactly for the same or the reverse order |
| RankPairs.TauCountsPairs | common/residuals.py:131-160 | over the common moves every pair is ordered alike or oppositely, and tau is the difference of the two counts over n(n-1)/2 |
| RankPairs.TauCountsPlaces | common/residuals.py:131-160 | for any rankings, repeats included: over the pairs of places of the common moves tau is the pairs ranked alike less those ranked oppositely over their sum, undefined when that is zero |
| RankPairs.RankIsLast | common/residuals.py:143-144 | a repeated move is ranked at its last place |
| Trajectory.CommonPrefixLength | common/residuals.py:163-169 | the length of the longest common prefix |
| Trajectory.PvDivergence | common/residuals.py:172-179 | the distance of two lines, none when either is empty, an error for an empty move |
| Trajectory.DivergenceIsMetric | common/residuals.py:172-179 | the distance is in [0, 1], symmetric, zero exactly for equal lines, and satisfies the triangle inequality |
| TrajectoryCounts.DivergenceIs | common/residuals.py:172-179 | undefined exactly beside an empty line; otherwise the part of the longer line beyond the longest common prefix |
| Trajectory.LeaderFlipCount | common/residuals.py:182-192 | counts the changes among the observed leaders |
| Trajectory.StabilizationIndex | common/residuals.py:195-208 | the least observed index after which only the final leader occurs, none exactly without observations |
| Trajectory.PastOnlyFeatures | common/residuals.py:259-277 | observations, the same number of changes, and the stable run as a fraction |
| Trajectory.ReadingsAgree | common/residuals.py:182-277 | the stable run is the number of observations after the stabilization index, and there are no flips exactly when that index is the first observed one |
| TrajectoryCounts.ObservedAt | common/residuals.py:182-277 | the observations are the observed leaders, each at the number of those observed before it |
| TrajectoryCounts.ChangesAreFlips | common/residuals.py:182-192 | the changes are the places at which an observation differs from the one before |
| TrajectoryCounts.RunIsTail | common/residuals.py:259-277 | the stable run reaches from the last observation back to the first that differs from it |

## Left out

- Lane accounts are values in a map rather than shared mutable objects, so aliasing of an account is not captured.
- The locks of the shard ledger and the budget ledger: their methods are modelled as running one at a time.
- IEEE rounding and the rounding in snapshots; times and amounts are real numbers.
- Python's permissive integer spellings (underscores, signs, other digits) and lower-casing outside ASCII.
- SHA-256 identities, canonical JSON, manifests and their reconstruction, including position and plan identities.
- Error message texts and the constant reason text of nominations; errors are told apart by their kind and arguments.
- Snapshots, engine-native counters with their per-stage maxima, wall-clock readings of the budget ledger, and its journal digest.
- Type checks of dynamically typed arguments, such as a boolean passed for an integer.
- A write attempt that raises instead of returning, and the watch thread's waits; time in the race is any non-decreasing input.
- Reading the authority flag and the open-work flags in the race, which change nothing.
- The tail of the move resource plan (game environment, catalog and composition identities) beyond its envelope.
- The depth limit of Python's recursion, which the recursive walk over a deep enough chain of prefixes would meet, also in the check after a mutation.
- Chess legality, which the ledger and the compilers leave to others.
- Engine processes, telemetry, calibration models, decision gates and static profile validators.
