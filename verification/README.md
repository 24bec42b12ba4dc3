# A verified model of the Thor node

This project models the parts of the VeChain Thor node in which a wrong step would break the chain, and
proves what they promise. All of it is Dafny; `dafny verify dfyconfig.toml` checks it.

The model follows five connected components.

- **BFT finality** (`BlockTree`, `WeightedSets`, `BftVotes`, `BftRounds`, `BftTallies`, `BftAnswers`, `BftSearch`,
  `BftFinality`, `BftQuorums`, `BftVoting`, `BftForkChoice`, `BftSelection`, `BftEngine`, `BftProcessor`, `BftLateSibling`,
  `BftUnstable`, `BftOvertaken`). A block is a recursive
  value that contains its parent, so that an id stands for a block with its history. `BftRounds.StateOf` is the state of
  a block computed from scratch. The engine may instead extend a tally that it rebuilt at any earlier height of the
  round: `BftAnswers.IsAnswer` says which states it can arrive at, on top of the qualities it has saved.
  `BftEngine.Engine` is the engine with its caches, from which entries may vanish at any time; its tallies are mutable
  objects that move between caches. Every method is proved against these answers, the linear search `CheckpointFor`
  and `NextFinalized`, whatever the weights are. `BftProcessor.Processor` takes in blocks as the node does, and every block
  it takes is a step of the runs over which `BftSelection` states fork choice.
- **Revertible state and execution** (`StackedMaps`, `WorldState`, `WorldStaging`, `WorldStates`, `EnergyGrowth`,
  `TxFees`, `TxRuntime`, `TxExecutors`). The stacked map is proved against a stack of journals. The world state is an
  object on top of it. Staging replays the journal into a new database version, and reopening that version shows what
  was readable before. The executor runs transactions on a stacked map of energy, credit and everything else, and is
  proved against a pure account of the whole transaction.
- **Packing and validating** (`Packing`). The invariant of the packer is that the validator accepts what was adopted so
  far and arrives at the same receipts, gas and world. In every block that replays, no transaction is on the chain or
  twice in the block, and every dependency is met by what comes before.
- **Schedulers and candidates** (`CandidateLists`, `Slots`, `Schedulers`, `SchedulersV1`). Time slots, their owners, and
  what is deactivated for missed slots, however many there were. Candidate lists share arrays and copy on write.
- **Indexes and searches over the block tree** (`ChainRepository`, `NodeKeys`, `BlockReaders`, `ChainSync`).

What stands in for code that is not modelled: the virtual machine, the sponsor of a contract, hash functions, the
pseudo-random process, sort keys, chain lookups of the packer and the prefix of the transaction filter are arbitrary
functions. Hashes of code are assumed free of collisions, and so are block ids. The clock is a parameter.

## Findings

- Committing a block that ends the round of the finalized checkpoint itself, a late sibling of a block that was
  committed before, makes the search for the checkpoint to finalize fail, and `CommitBlock` returns an error although the
  block is valid. `BftFinality.FinalizationFoundIff` shows that this is the only case, and
  `BftLateSibling.LateSiblingFails` that it happens after five blocks of a single proposer.
- What the engine answers for a block can depend on what its caches hold. Housekeeping changes weights in the
  checkpoint block itself (`builtin/staker/housekeep.go:38-41`, `builtin/staker/validation/validation.go:218`, run from
  `consensus/validator.go:45`), and `computeState` weighs every signer by the state of its block's parent
  (`bft/engine.go:328-349`), so that the signer of the checkpoint has its old weight there and its new weight later in
  the round. A tally keeps the weight it sees first: that of the oldest block if it is extended, that of the newest if
  it is rebuilt. `BftUnstable.TwoAnswers` gives a chain of three blocks on which the engine answers a justified state of
  quality 2 or one of quality 1 that is not justified. `BftTallies.TalliesAgreeIffStable` shows that all tallies of a
  block agree exactly if no signer changes its weight in the round up to the block, and
  `BftTallies.StableIffCheckpointSigner` that, with weights that change at checkpoints only, this holds exactly if the
  checkpoint's signer signs no other block of the round so far or weighs the same before and after. Finality stays
  monotone in either case.
- Fork choice inherits this. If weights do not change within rounds, nodes that saw the same blocks have the same best
  block (`BftSelection.SelectionConfluent`). Otherwise two nodes that saw the same three blocks can differ in it, by
  whether they kept a tally (`BftUnstable.TwoBestBlocks`). The best block follows a growing chain in every run exactly if
  no answer for a block has a lower quality than an answer for its parent (`BftSelection.BestFollowsIff`).
- The block reader fails exactly if the best block lies behind its position on the same chain. It has then moved its
  position without reporting the blocks it left, so that a listener is out of step from there on
  (`BlockReaders.BlockReader.Read`). In stable rounds the best block is never behind (`BftSelection.SelectionNotBehind`);
  in the second run of `BftUnstable.TwoBestBlocks`, in which the tally was lost, it is.
- The voting rule alone does not keep a signer out of the COM quorums of two conflicting finalizations. If it is in both,
  the later one has the higher quality (`BftVoting.LaterFinalizationIsHigher`), and a difference of one is enough:
  `BftOvertaken.OvertakenSigner` is a run in which a signer follows rule and fork choice and is in both, while the rest of
  the weight signs on both branches.
- Keys of history nodes are injective for every partition factor, except that with a single partition for all versions
  the major versions 0 and 2^32-1 collide; and deleting history then deletes nothing
  (`NodeKeys.HistKeyInjective`, `NodeKeys.SinglePartitionKept`).
- The packer's guard on gas is a 64-bit sum. It is right exactly unless the sum wraps around to no more than the limit
  (`Packing.GuardExactUnlessWrapped`), for which there is a transaction whatever gas has been used before
  (`Packing.GuardCanWrap`). Where gas is free a block filled with the smallest transactions adopts such a transaction and
  exceeds its limit (`Packing.AdoptedBeyondLimit`); at a price, somebody must own enough energy for almost 2^64 gas.
- Under proof of stake the validator checks the balance of the staker contract and the packer does not. The validator
  accepts what was packed exactly if that check passes (`Packing.Flow.Pack`).
- The comment on `HasTransaction` promises a check on the whole chain. For a recent block reference the code looks no
  further back than the reference. The results agree exactly if the head is at least 100 blocks above the reference, or
  the chain does not hold the transaction, or holds it at or above the reference
  (`ChainRepository.Repository.HasTransaction`); `ChainRepository.HeldBelowReference` is a chain on which they do not.
  The validator refuses transactions below their reference.

## Model

| member | source | states |
|---|---|---|
| `BftVotes.VotesAppend` | bft/justifier.go:102-125 | Adding a block to the votes of a round gives the votes of the longer round, where a signer counts as COM iff all its blocks are COM and weighs what it did first. |
| `BftVotes.FoldIsVotes` | bft/justifier.go:102-125 | Adding block by block computes the votes of the round as defined signer by signer. |
| `BftVotes.VotesPermute` | bft/engine.go:326-366 | With stable weights the votes depend on the set of blocks only, not on their order. |
| `BftVotes.VotesPrepend` | bft/engine.go:308-366 | Adding a block before the others gives the same votes as adding it after them. |
| `BftVotes.HistoriesAgreeIffStable` | bft/engine.go:308-366 | For the ballots of a round, rebuilding a prefix backwards and extending it forwards agrees with the fold for every split of the round, if and only if every signer keeps one weight. |
| `BftVotes.HistoryVotes` | bft/engine.go:308-366 | However a tally came about, it has one vote per signer, COM iff all its blocks are, with the weight of one of them; only weights can differ. |
| `BftVotes.CommittedIsJustified` | bft/justifier.go:128-152 | Every committed summary is justified. |
| `BftVotes.AddingKeepsJustified` | bft/justifier.go:102-152 | A block added to a round never takes its justification away. |
| `BftVotes.QuorumOverlapByWeight` | bft/justifier.go:84-98 | Two rounds justified by weight, out of a total of at least 2, share signers with more than a third of the weight. |
| `BftVotes.QuorumOverlapByCount` | bft/justifier.go:84-98 | Two rounds justified by head count share more than a third of the proposers. |
| `BftVotes.Justifier.constructor` | bft/justifier.go:38-48 | A new tally is empty and its counters are exact. |
| `BftVotes.Justifier.AddBlock` | bft/justifier.go:102-125 | The votes change as `AddVote` says and the counters stay the exact sums over them. |
| `BftVotes.Justifier.Summarize` | bft/justifier.go:128-152 | The counters give the summary defined on the votes themselves. |
| `BftRounds.EngineArithmetic` | bft/engine.go:467-478 | The engine's divisions compute the greatest multiple of the epoch not above a height, recognize round ends, and compare rounds. |
| `BftRounds.RoundVotesMeaning` | bft/engine.go:326-366 | Walking back through the round of a block yields one vote per signer, COM iff all its blocks in the round are, and fails iff a signer is no validator. |
| `BftRounds.StateSummary` | bft/justifier.go:128-152 | The quality of a state is that of the round before, plus one iff justified, and committed implies justified. |
| `BftRounds.QualityStep` | bft/justifier.go:50-75 | From one round to the next the quality rises by one exactly if the round is justified. |
| `BftRounds.FirstRoundQuality` | bft/justifier.go:50-75 | The round of the finality fork has quality at most one. |
| `BftTallies.TallyIsHistory` | bft/engine.go:308-366 | A tally rebuilt at some height and extended from there is the history of the round with its turning point at that height, and fails iff a signer is no validator. |
| `BftTallies.StableTally` | bft/engine.go:308-366 | In a round without changes of weight, the tally does not depend on the height at which it was rebuilt. |
| `BftTallies.TalliesAgreeIffStable` | bft/engine.go:308-366 | All tallies of a block agree, wherever they were rebuilt, if and only if no signer changes its weight in the round up to the block; in the round of genesis, as long as nobody else has its signer, which is the zero address. |
| `BftTallies.StableIffCheckpointSigner` | builtin/staker/housekeep.go:38-41 | With stakes that change at checkpoints only, no weight changes in the round up to a block, if and only if the checkpoint is before the fork and not tallied, or its signer signs no other block up to there, or weighs the same before and at the checkpoint. |
| `BftAnswers.AnswerQuality` | bft/justifier.go:128-152 | Every state the engine can answer has the quality its round started from, plus one iff it is justified, and is justified if committed. |
| `BftAnswers.AnswerFails` | bft/engine.go:294-372 | Whether the engine has an answer does not depend on the tally it kept. |
| `BftAnswers.AnswerIsScratch` | bft/engine.go:294-372 | In a round without changes of weight, on exact saved qualities, the engine has one answer, the state from scratch. |
| `BftAnswers.JustifiedStays` | bft/engine.go:308-366 | Within a round without changes of weight, a block on top of a justified block is justified, with the same quality. |
| `BftAnswers.QualityNeverDrops` | bft/engine.go:294-372 | If weights do not change within rounds, no block has a lower quality than its parent. |
| `BftAnswers.SavedGrows` | bft/engine.go:173-184 | Saving the quality of an answer for a block that ends its round keeps everything saved the quality of some answer. |
| `BftAnswers.SavedStaysExact` | bft/engine.go:173-184 | What is saved for rounds without changes of weight is the quality from scratch. |
| `BftSearch.QualityRises` | bft/engine.go:376-424 | Saved qualities rise by 0 or 1 per round along any chain, whatever the weights are. |
| `BftSearch.QualityMonotone` | bft/engine.go:376-424 | No later round has a lower quality. |
| `BftSearch.LastQuality` | bft/engine.go:376-424 | No round searched has a higher quality than the round the head ends. |
| `BftSearch.CheckpointForIsFirst` | bft/engine.go:376-424 | What the search finds is a checkpoint on the chain whose round has exactly the target quality, and no earlier round from the start on reaches it. |
| `BftSearch.CheckpointFoundIff` | bft/engine.go:376-424 | The search succeeds iff the target lies between the first and the last quality searched. |
| `BftSearch.Store32Is` | bft/engine.go:470-478 | The last height of a round, in 32 bits. |
| `BftSearch.WrappedProbe` | bft/engine.go:384-407 | If the head is below the search start, the 32-bit subtraction wraps and the first probe is off the chain, as long as no other sum wraps. |
| `BftSearch.SearchResult` | bft/engine.go:399-423 | The index at which a binary search stops determines what the linear search returns. |
| `BftFinality.FinalityAdvances` | bft/engine.go:173-198 | A step of finality yields genesis or a checkpoint that has the old finalized value as an ancestor. |
| `BftFinality.FinalizationFoundIff` | bft/engine.go:186-197 | For a block that commits its round, the search for the checkpoint to finalize succeeds iff the block is not in the finalized checkpoint's own round. |
| `BftFinality.FinalityIsMonotone` | bft/engine.go:142-198 | Over every run of accepted blocks, with any weights and any tallies kept, all finalized values are genesis or checkpoints, and each is an ancestor of every later one. |
| `BftFinality.SavedOverRun` | bft/engine.go:173-198 | Over every run, what is saved are qualities of answers; and those from scratch, if no weight changes within rounds. |
| `BftFinality.RecentJustifiedIsFirst` | bft/engine.go:247-267 | Whichever branch determines it, the checkpoint voted for is the first from the search start on whose round reaches the head's quality. |
| `BftFinality.EarlierQuality` | bft/engine.go:186-197 | A committed round has a higher quality than all rounds before it. |
| `BftQuorums.QuorumOf` | bft/justifier.go:84-152 | Under one set of validators, a block is justified iff three times the weight of its round's signers exceeds twice the total, and committed iff that of its COM signers does. |
| `BftQuorums.WeighedAnswer` | bft/justifier.go:84-152 | Every state answered for a round with stake is justified iff three times the weight of its signers exceeds twice the total weight, and committed iff that of its COM signers does; a signer weighs what the state of a parent of one of its blocks says, and nothing before the end of the transition. With a total of 1 any signer is enough. |
| `BftQuorums.CountedAnswer` | bft/justifier.go:84-152 | Every state answered for a round without stake is justified iff three times the number of its signers exceeds twice the proposer limit, or 202 if that is 0 or above 101, and committed iff that of its COM signers does. |
| `BftQuorums.AnswerByQuorum` | bft/justifier.go:84-152 | Every state answered for a block past the FINALITY fork says which quorum signed the round, by weight or by count. |
| `BftQuorums.JustifiedOverlap` | bft/justifier.go:84-152 | Two blocks justified under one set of validators, on whatever branches, share signers of more than a third of the weight. |
| `BftQuorums.ConflictIsAccountable` | bft/engine.go:173-198 | If two nodes finalize conflicting checkpoints under one set of validators, the blocks that did so lie on different branches and more than a third of the weight voted COM throughout both rounds. |
| `BftQuorums.CountedOverlap` | bft/justifier.go:84-152 | By head count, among as many proposers as the limit allows and 101 if it is 0 or above, two justified blocks share more than a third of the proposers, and two committed ones as many COM signers. |
| `BftVoting.CastLocks` | bft/engine.go:269-290 | As long as a cast counts, COM is not voted for a checkpoint that conflicts with an ancestor of the cast, unless the head has a quality higher by at least two. |
| `BftVoting.CastQuality` | bft/engine.go:200-213 | A cast in the round of a block has at least the block's quality less one, for all nodes with exact qualities. |
| `BftVoting.HeadQuality` | bft/engine.go:219-246 | The head on which COM is voted in a justified round has the quality of the round or one less. |
| `BftVoting.RecentNotBelow` | bft/engine.go:247-267 | The checkpoint that a COM vote refers to is not below the one that the round of the vote finalizes. |
| `BftVoting.LaterFinalizationIsHigher` | bft/engine.go:269-290 | If a signer that follows the rule votes COM in the rounds of two conflicting finalizations, the one it votes in later has the higher quality; so at equal qualities every common COM signer has broken the rule. |
| `BftOvertaken.DuoState` | bft/justifier.go:128-152 | On the chains of the example a round is justified iff the heavy validator signs in it, and committed iff it does with COM only. |
| `BftOvertaken.OvertakenSigner` | bft/engine.go:269-290 | A run in which a signer always builds on its best block and votes as the rule lets it, and is in the COM quorums of two conflicting finalizations whose qualities differ by one. |
| `BftLateSibling.SoloState` | bft/engine.go:294-372 | On a chain of one proposer who always votes COM, every block is justified and committed, with one quality per round so far. |
| `BftLateSibling.LateSiblingFails` | bft/engine.go:173-198 | After a run of five accepted blocks that finalizes block 2, committing an accepted sibling of block 3 calls for a finalization that fails. |
| `BftUnstable.TwoAnswers` | bft/engine.go:308-366 | On a chain of three blocks whose validator loses weight at the checkpoint, the engine can answer a justified state for block 3, or one that is not justified although its parent is. |
| `BftUnstable.TwoBestBlocks` | bft/engine.go:153-170 | Two runs over the same three blocks with rising scores: the node that kept its tally ends at block 3, the one that lost it stays at block 2, a strict ancestor. |
| `BftForkChoice.PreferredTrans` | block/header.go:321-336 | The preference by quality, total score and smaller id is transitive. |
| `BftForkChoice.PreferredTotal` | block/header.go:321-336 | Of two blocks with different ids exactly one is preferred. |
| `BftForkChoice.ChildPreferredIff` | consensus/validator.go:102-104 | A block whose score is higher than its parent's is preferred to the parent, by any two qualities, iff its quality is not lower. |
| `BftForkChoice.StableIsRising` | consensus/validator.go:102-104 | If scores rise and no weight changes within rounds, quality does not drop. |
| `BftSelection.SelectionIsBest` | bft/engine.go:153-170 | Over every run, in which each arriving block is compared with the best block by the states answered for the two and then committed: if no weight changes in the rounds, the run ends at the best block by qualities from scratch. |
| `BftSelection.SelectionIsMaximum` | bft/engine.go:153-170 | Such a run ends at the maximum of all blocks seen: any other has a lower quality; or the same and a lower total score; or the same and a higher number; or the same and a greater digest. |
| `BftSelection.SelectionConfluent` | bft/engine.go:153-170 | If no weight changes in the rounds, two nodes that saw the same blocks past the fork, in whatever order and with whatever caches, have the same best block. |
| `BftSelection.SelectionNotBehind` | bft/engine.go:153-170 | If no weight changes in the rounds and scores rise from parent to child, the best block of a run is never a strict ancestor of a block that has arrived. |
| `BftSelection.BestFollowsIff` | bft/engine.go:153-170 | As a chain with rising scores arrives block by block, each block becomes the best in turn in every run, if and only if in no run an answer for a block has a lower quality than an answer for its parent; from genesis on, across the fork. |
| `BftSelection.StableAnswersHold` | bft/engine.go:294-372 | If no weight changes within the rounds of a chain, no answer for a block has a lower quality than one for its parent. |
| `BftSelection.GrownNext` | bft/engine.go:173-198 | As a chain arrives, what is finalized and all that is saved stays on the chain, and its rounds stay concluded. |
| `BftProcessor.AnsweredIff` | bft/engine.go:294-372 | Whether the engine has an answer for a block depends on the block only: its round must have weight, and its signers be validators. |
| `BftProcessor.Processor.constructor` | cmd/thor/node/block_exec.go:95-135 | A node that holds genesis starts the runs of fork choice. |
| `BftProcessor.Processor.Decide` | cmd/thor/node/block_exec.go:136-144 | Asks the engine iff both blocks are past the fork, and else takes the higher total score, then the lower number, then the smaller digest; fails iff the engine is asked and has no answer. |
| `BftProcessor.Processor.Process` | cmd/thor/node/block_exec.go:95-192 | A block that is new, has its parent, is accepted, valid and has answers is a step of the runs of fork choice, also if finalization fails; a block that is not taken changes nothing, and the errors tell why. |
| `BftProcessor.NextFits` | cmd/thor/node/block_exec.go:157-192 | Taking in a block keeps all chains in the repository concluded and answered, so that every block on top can be processed. |
| `BftEngine.ExtendTally` | bft/engine.go:308-366 | A tally of the parent, wherever it was rebuilt, with just the block added is a tally of the block. |
| `BftEngine.Engine.constructor` | bft/engine.go:62-86 | A new engine has finalized genesis and satisfies the invariant. |
| `BftEngine.Engine.Evict` | bft/engine.go:44-60 | Losing any cache entries keeps the invariant. |
| `BftEngine.Engine.GetCheckPoint` | bft/engine.go:467-469 | Computes the greatest multiple of the epoch that is not above the height. |
| `BftEngine.Engine.GetStorePoint` | bft/engine.go:476-478 | Computes the last height of the round. |
| `BftEngine.Engine.GetQuality` | bft/engine.go:448-465 | The cached quality is the saved one, zero if none. |
| `BftEngine.Engine.NewJustifier` | bft/justifier.go:50-99 | The new tally is empty and has the quality saved for the block before the round, and as threshold two thirds, rounded down, of the total weight where stake counts, or of the proposer limit, where 0 and more than 101 count as 101; it fails iff stake counts and there is none. |
| `BftEngine.Engine.TakeJustifier` | bft/engine.go:308-320 | The tally taken belongs to no cache any more, and the blocks still to be added complete it to a tally of the block. |
| `BftEngine.Engine.AddBlocks` | bft/engine.go:322-366 | The walk back completes the tally of the round, or meets a signer that is no validator. |
| `BftEngine.Engine.Remember` | bft/engine.go:368-371 | Caching a state and its tally keeps the caches exact and unaliased. |
| `BftEngine.Engine.ComputeState` | bft/engine.go:294-372 | Whatever the caches hold and the weights are, the result is a state that a tally of the round gives, and says which quorum signed the round; it is the state from scratch if no weight changes in the round and saved qualities are exact. No two cached tallies alias. |
| `BftEngine.Engine.FindCheckpoint` | bft/engine.go:376-424 | The binary search in 32-bit arithmetic returns what the linear search returns, and an error if the head is below the start and no other sum wraps. |
| `BftEngine.Engine.Search` | bft/engine.go:399-407 | The binary search stops between rounds below the target and rounds that reach it, or at a probe off the chain. |
| `BftEngine.Engine.Accepts` | bft/engine.go:142-150 | Accepts a parent iff the finalized checkpoint is on its chain. |
| `BftEngine.Engine.ConcludeAtEnd` | bft/engine.go:173-198 | A block that ends its round saves the quality of the state answered and moves finality as `NextFinalized` says; another block changes neither. |
| `BftEngine.Engine.CommitBlock` | bft/engine.go:173-215 | A commit is a step of the specified runs: qualities saved, finality, recorded votes and the errors are exactly those of the state answered and `NextFinalized`. |
| `BftEngine.Engine.Select` | bft/engine.go:153-170 | A block is preferred to the best block iff the quality answered for it is higher; or equal with a higher total score; or both equal with a lower number, or the same number and a smaller digest. Qualities are those from scratch if no weight changes in the two rounds. |
| `BftEngine.Engine.FindRecentJustified` | bft/engine.go:240-267 | Both branches find the recent justified checkpoint as specified. |
| `BftEngine.Engine.ShouldVote` | bft/engine.go:219-291 | Votes exactly if no conflicting vote was cast from the finalized checkpoint on with at least the quality answered for the head less one. |
| `BftEngine.Engine.NoConflict` | bft/engine.go:269-290 | The loop over the casts decides whether all relevant ones lie on one chain with the checkpoint. |
| `StackedMaps.CheckpointRestores` | stackedmap/stackedmap.go:52-77 | Popping to the depth a push returned undoes any operations since then that did not pop below it, nested checkpoints included. |
| `StackedMaps.RevisionsIncrease` | stackedmap/stackedmap.go:93-107 | The revisions of a key are strictly increasing. |
| `StackedMaps.TopRevision` | stackedmap/stackedmap.go:81-89 | The top revision of a key is where a top-down search finds it. |
| `StackedMaps.TopDownIsLast` | stackedmap/stackedmap.go:81-119 | A top-down search returns the last journal entry of the key, else the source's value. |
| `StackedMaps.ConsistentAfterPut` | stackedmap/stackedmap.go:93-107 | A put keeps every key's revisions equal to the levels that hold the key. |
| `StackedMaps.StackedMap.constructor` | stackedmap/stackedmap.go:37-43 | A new map has one empty level and an exact index. |
| `StackedMaps.StackedMap.Push` | stackedmap/stackedmap.go:52-55 | Adds an empty level and returns the depth before. |
| `StackedMaps.StackedMap.Pop` | stackedmap/stackedmap.go:59-70 | Drops the top journal and keeps the index exact. |
| `StackedMaps.StackedMap.PopTo` | stackedmap/stackedmap.go:73-77 | Truncates the stack to a depth. |
| `StackedMaps.StackedMap.Get` | stackedmap/stackedmap.go:81-89 | Returns the last put still in effect, else what the source says. |
| `StackedMaps.StackedMap.Put` | stackedmap/stackedmap.go:93-107 | Appends to the top journal and keeps the index exact. |
| `StackedMaps.StackedMap.Journal` | stackedmap/stackedmap.go:111-119 | Visits all puts in effect, oldest first, until the callback stops it. |
| `WorldState.ReadBarrier` | state/state.go:147-154 | The barrier read for an account is the number of its deletions still in effect. |
| `WorldState.ReadFuture` | state/state.go:90-95 | Under a barrier that is yet to come storage reads as empty. |
| `WorldState.ReadStorage` | state/state.go:254-265 | Storage read under the current barrier is what was written since the last deletion, over the stored storage if there was none. |
| `WorldStaging.ReplayMirrors` | state/state.go:419-475 | Replaying the journal with discards yields, per account, exactly what barrier-keyed reads see. |
| `WorldStaging.ReplayNames` | state/state.go:457-464 | Names given to new storage tries in one staging are pairwise different. |
| `WorldStaging.ReplayCodes` | state/state.go:444-448 | Code that is readable is in the database already or staged under its hash. |
| `WorldStaging.NewStorageReads` | state/state.go:485-512 | The staged storage trie reads as the account's storage did. |
| `WorldStaging.NamesDiffer` | state/state.go:457-464 | No two accounts, changed or not, name the same storage trie. |
| `WorldStaging.Reopened` | state/state.go:404-544 | Reopening the committed version shows for every address the same balance, energy, master, code hash and code; an account is present iff it has a balance, energy, a master or a code hash, and only then keeps its time and storage. |
| `WorldStaging.CommittedSound` | state/state.go:404-544 | The committed version is a sound database again, so that the next block can be staged on it. |
| `WorldStates.State.constructor` | state/state.go:53-64 | A state opened on a sound database has an empty journal. |
| `WorldStates.State.GetAccount` | state/state.go:126-132 | Returns the account that the journal means. |
| `WorldStates.State.GetEnergy` | state/state.go:177-184 | Returns the account's energy with its growth. |
| `WorldStates.State.GetStorageBarrier` | state/state.go:147-150 | Returns the number of deletions in effect. |
| `WorldStates.State.GetRawStorage` | state/state.go:254-260 | Returns the slot's value that the journal means. |
| `WorldStates.State.GetCode` | state/state.go:292-298 | Returns the code that the journal means. |
| `WorldStates.State.Exists` | state/state.go:330-336 | True iff the account has a balance, energy, a master or a code hash. |
| `WorldStates.State.UpdateAccount` | state/state.go:143-145 | Replaces one account and leaves all others as they read; its code and storage read as before if code hash and storage root stay. |
| `WorldStates.State.SetBalance` | state/state.go:166-174 | Changes one balance and nothing else that can be read. |
| `WorldStates.State.SetEnergy` | state/state.go:187-195 | Changes one energy and its time and nothing else that can be read. |
| `WorldStates.State.SetMaster` | state/state.go:208-220 | Changes one master, the zero address meaning none, and nothing else that can be read. |
| `WorldStates.State.SetRawStorage` | state/state.go:263-265 | Changes one slot of one account and nothing else that can be read. |
| `WorldStates.State.SetCode` | state/state.go:310-326 | Changes the code and code hash of one account and nothing else that can be read. |
| `WorldStates.State.Delete` | state/state.go:340-345 | The account reads as empty, with no code and every slot empty; all others read as before. |
| `WorldStates.State.NewCheckpoint` | state/state.go:349-351 | Pushes a level; everything reads as before. |
| `WorldStates.State.RevertTo` | state/state.go:354-356 | Truncates the levels to the revision; what remains is a sound journal iff the revision is not zero. |
| `WorldStates.State.Stage` | state/state.go:404-544 | For every run of operations before it, the staged version is sound and shows for every address the balance, energy, master, code hash and code that were readable; it holds exactly the accounts with a balance, energy, a master or a code hash, and their time and storage; new storage tries hold no empty value. |
| `EnergyGrowth.GrowthIs` | state/account.go:48-81 | An account grows by 5 * 10^9 parts of 10^18 of its balance per second from its own time to now or the stop, rounded down once, and else not at all. |
| `WorldStates.SaveChanges` | state/state.go:480-518 | Saving the changed accounts in any order commits each account and its storage, and keeps all older tries. |
| `EnergyGrowth.EnergyMonotone` | state/account.go:48-81 | Energy never shrinks with time and stays the same once growth has stopped. |
| `EnergyGrowth.SettlingIsNeutral` | state/account.go:48-81 | Bringing energy up to date in between gains nothing and loses at most one unit. |
| `EnergyGrowth.SettlingNow` | state/account.go:48-81 | Bringing energy up to date does not change what is read at that time. |
| `TxFees.PriceSplits` | tx/transaction.go:429-461 | A price that covers the base fee leaves a priority fee that is not negative; with dynamic fees the price is exactly base fee plus priority fee. |
| `TxFees.EffectivePriceIs` | tx/transaction.go:425-438 | A legacy price exceeds the base price by the share of the coefficient in 255, rounded down; a dynamic one is at most the maximum fee and at most base fee plus maximum priority fee, and is one of the two. |
| `TxFees.OverallPriceIs` | tx/transaction.go:531-555 | Proved work raises the price by its share of the base price in the gas, rounded down; work of at least the gas raises it by the base price. |
| `TxFees.PriorityFeeIs` | tx/transaction.go:444-461 | The priority fee is the overall price above the base fee; with dynamic fees it is at most what the maximum fee leaves and at most the maximum priority fee, and is one of the two. |
| `TxFees.LegacyPriceSpan` | tx/tx_legacy.go:82-87 | The price coefficient spans from exactly the base price to exactly twice the base price; what lies between is in `TxFees.EffectivePriceIs`. |
| `TxFees.OverallAtLeastEffective` | tx/transaction.go:531-555 | Proved work raises a legacy price, by at most the base price. |
| `TxFees.AddedEnergy` | builtin/energy/energy.go:159-178 | Adding energy changes one account and the total added, and no other cell. |
| `TxFees.SubtractedEnergy` | builtin/energy/energy.go:182-207 | Energy is taken iff there is enough; then one account and the total taken change, and no other cell. |
| `TxRuntime.ResolveTransaction` | runtime/resolved_tx.go:30-88 | Accepts exactly the transactions with recoverable signers, enough gas, values that are not negative and sum to 256 bits, and fees in order. |
| `TxRuntime.CommonTo` | runtime/resolved_tx.go:92-112 | Returns the contract that all clauses call, and none iff there is no such contract. |
| `TxRuntime.BoughtCharges` | runtime/resolved_tx.go:115-219 | Buying gas takes the price of all gas from one account that can afford it and touches nothing else but the total taken; a credit in use covers it. |
| `TxRuntime.FirstAbleIn` | runtime/resolved_tx.go:142-219 | The payer is one of those asked, and has enough energy. |
| `TxRuntime.OriginPaysLast` | runtime/resolved_tx.go:142-219 | A delegator pays alone; without one the origin pays only if no sufficient credit exists or neither sponsor nor contract can pay. |
| `TxRuntime.LeftAfter` | runtime/runtime.go:468-475 | The refund never exceeds the refund counter or half the gas used, and is less than the counter only if it is that half. |
| `TxRuntime.RunFrom` | runtime/runtime.go:446-490 | Running the clauses never gains gas; a failure leads back to the world in which gas had been bought, with no outputs; success yields one output per clause. |
| `TxRuntime.RewardIsShare` | runtime/runtime.go:513-531 | Before fees are dynamic, the reward is the rounded share of the overall price of the gas used. |
| `TxRuntime.ReturnedGas` | runtime/resolved_tx.go:134-140 | Returning gas changes the payer's energy, the total added and a credit in use, which shrinks by what was used. |
| `TxRuntime.GasUsedBounds` | runtime/runtime.go:437-507 | Intrinsic gas <= gas used <= provided gas, and what is paid is gas used at the effective price, which covers the base fee. |
| `TxRuntime.PaidPrice` | runtime/runtime.go:437-507 | Every executed transaction paid for its gas at one price that covers the base fee: for a legacy transaction the base price and the share of the coefficient in 255, rounded down; for a dynamic one the lesser of its two bounds. |
| `TxRuntime.RewardPrice` | runtime/runtime.go:513-540 | The reward of every executed transaction: with dynamic fees what a legacy price with proved work leaves above the base fee; before, the share of the reward ratio in 10^18, rounded down, of the price with proved work. The price with proved work is bounded by its rounding. |
| `TxRuntime.FreeExecuted` | runtime/runtime.go:437-542 | A transaction without clauses at no price changes nothing and uses exactly its intrinsic gas. |
| `TxRuntime.BaseFeeIsBurned` | runtime/runtime.go:532-540 | With dynamic fees, what is paid is the reward plus the base fee of the gas used. |
| `TxRuntime.SettledWorld` | runtime/runtime.go:491-542 | From the world the clauses left, the payer gets the gas left back, the beneficiary the reward, a credit in use is what it was less what was paid, and no other cell changes. |
| `TxRuntime.FailureUndoesClauses` | runtime/runtime.go:477-484 | If a clause fails, exactly one payer has lost exactly what was paid, a credit in use has shrunk by as much, the beneficiary has the reward, and nothing else but the totals has changed. |
| `TxRuntime.FailureBurns` | builtin/energy/energy.go:139-146 | Then the energy burned has grown by what was paid less the reward. |
| `TxExecutors.Runtime.Add` | builtin/energy/energy.go:159-178 | The world in place changes as `AddEnergy` says; lower levels stay. |
| `TxExecutors.Runtime.Sub` | builtin/energy/energy.go:182-207 | Succeeds iff there is enough energy; a failure changes nothing. |
| `TxExecutors.Runtime.Charge` | runtime/resolved_tx.go:142-219 | Deducts from the first who can pay: the delegator alone, else sponsor and contract if the credit suffices, else the origin. |
| `TxExecutors.Runtime.BuyGas` | runtime/resolved_tx.go:115-219 | Fails iff the price is below the base fee or nobody can pay; else the world is that of the purchase, at the base price and the share of the coefficient in 255, rounded down, or at the lesser of the two bounds of dynamic fees. |
| `TxExecutors.Runtime.ReturnGas` | runtime/resolved_tx.go:134-140 | Returns the gas left to the payer and updates the credit as specified. |
| `TxExecutors.Runtime.Settle` | runtime/runtime.go:500-541 | Receipt and world are those of the specified settlement. |
| `TxExecutors.TransactionExecutor.constructor` | runtime/runtime.go:417-448 | Starts behind a checkpoint with the gas that is left after the intrinsic gas. |
| `TxExecutors.TransactionExecutor.ExecNext` | runtime/runtime.go:452-490 | Running one clause does not change where the clauses lead; a failure reverts to the checkpoint. |
| `TxExecutors.TransactionExecutor.Undo` | runtime/runtime.go:477-484 | Takes the world back to where gas had been bought, and drops the outputs. |
| `TxExecutors.TransactionExecutor.Finalize` | runtime/runtime.go:491-542 | Refused while clauses are pending or when done before, changing nothing; else settles what the clauses led to. |
| `TxExecutors.PrepareTransaction` | runtime/runtime.go:417-448 | Prepares exactly the transactions that resolve and whose gas can be bought. |
| `TxExecutors.ExecuteTransaction` | runtime/runtime.go:402-414 | Receipt, world and failures are those of the specified execution, whose prices `TxRuntime.PaidPrice` and `TxRuntime.RewardPrice` state; levels below the top are untouched. |
| `Packing.ValidateBlockBody` | consensus/validator.go:171-213 | Accepts a body iff the transactions root is right and every transaction has recoverable signers that are not on the blocklist once that applies, the chain tag, a reference to no later block, has not expired, is of a type that the fork allows, and uses supported features only. |
| `Packing.VerifiedRecorded` | consensus/validator.go:238-291 | In every block that replays, no transaction is on the chain or twice in the block, and one that depends on another comes after it and that was not reverted, or the chain has it, not reverted. |
| `Packing.VerifiedIff` | consensus/validator.go:238-291 | A block that replays goes on with a transaction iff that is neither on the chain nor in the block, its dependency is met by an earlier transaction or by the chain, and it can be executed there. |
| `Packing.VerifiedGas` | consensus/validator.go:288-290 | The gas used by a block is the sum of the gas of its receipts, in 64 bits. |
| `Packing.VerifyTransactions` | consensus/validator.go:238-291 | Succeeds iff the replay of all transactions does, with its receipts, gas and world; then no transaction is on the chain or twice in the block, all dependencies are met by what comes before, and the gas is what the receipts add up to in 64 bits. |
| `Packing.VerifyStep` | consensus/validator.go:257-290 | Fails iff the transaction is on the chain or processed, depends on one that is neither processed nor on the chain or was reverted, or cannot be executed; else its receipt, gas and whether it was reverted are recorded. |
| `Packing.VerifyBlock` | consensus/validator.go:171-326 | Accepts a block iff its transactions are acceptable and replay, gas, receipts root and state root are what they lead to, and under proof of stake the staker contract's balance is right and rewards can be distributed; then no transaction is on the chain or twice in the block, and all dependencies are met. |
| `Packing.CloseBlock` | consensus/validator.go:304-313 | Rewards are distributed once proof of stake is active; the world is then the specified one. |
| `Packing.Conclude` | consensus/validator.go:293-325 | The checks after the last transaction pass iff the header agrees with the ledger and the closed world. |
| `Packing.GuardExactUnlessWrapped` | packer/flow.go:157-164 | The guard on gas says whether the gas fits, iff the 64-bit sum does not wrap around to at most the limit. |
| `Packing.GuardCanWrap` | packer/flow.go:157-164 | Whatever gas was used before, there is an amount of gas that passes the guard and exceeds the limit. |
| `Packing.FreeBlockExists` | packer/flow.go:157-164 | There are blocks with any gas limit in which gas is free. |
| `Packing.IdlesAdopted` | packer/flow.go:132-208 | Transactions without clauses are adopted one after the other as long as the limit has room, and use 21000 gas each. |
| `Packing.AdoptedBeyondLimit` | packer/flow.go:157-208 | Where gas is free, for every limit from 21000 to 2^64 - 42000: as many transactions without clauses as fit are adopted, and then one more that provides just enough gas for the sum to wrap, which takes the block beyond its limit. |
| `Packing.IncludeNext` | packer/flow.go:203-208 | What was adopted still replays with one more transaction, and stays within the limit if the sum does not wrap. |
| `Packing.ScreenedAndRun` | packer/flow.go:132-202 | The packer's checks and a successful execution together are what the validator demands, plus gas and fee. |
| `Packing.UnwrappedFits` | packer/flow.go:157-204 | A transaction that passes the guard without wrapping keeps the gas used within the limit. |
| `Packing.Flow.constructor` | packer/flow.go:38-53 | An empty block replays. |
| `Packing.Flow.Screen` | packer/flow.go:132-194 | Passes exactly what the specified checks pass; a bad transaction is barred from every block with this number or tips too little, a known one is processed or on the chain, and every other error has its cause as well. |
| `Packing.Flow.ScreenFee` | packer/flow.go:97-127 | Passes exactly adequate fees, and legacy transactions before fees are dynamic. |
| `Packing.Flow.Adopt` | packer/flow.go:132-208 | Adopts a transaction iff the validator would accept it at this place and its gas and fee suit the packer; a refusal leaves everything as it was. What has been adopted is never on the chain or adopted twice, and all its dependencies are met by what comes before. |
| `Packing.Flow.Execute` | packer/flow.go:196-202 | A failed execution is undone completely. |
| `Packing.Flow.Pack` | packer/flow.go:211-250 | Fails iff the key is not the packer's or rewards cannot be distributed. After any sequence of adoptions and refusals, the replay gets to the same world, and the validator accepts the block iff the staker contract's balance is right; the gas is within the limit unless a sum wrapped, and COM is set only from the FINALITY fork on. |
| `CandidateLists.SatisfyingExact` | scheduler/candidates.go:54-75 | Whoever is picked satisfies the condition, and who satisfies it and is not picked comes after the list was full. |
| `CandidateLists.SatisfyingAscends` | scheduler/candidates.go:63-71 | Candidates are picked in the order of the list. |
| `CandidateLists.Candidates.constructor` | scheduler/candidates.go:27-44 | Masters and endorsors of a new list are exactly those in it. |
| `CandidateLists.Candidates.Copy` | scheduler/candidates.go:47-51 | The copy reports the same, and no list of the family reports anything else than before. |
| `CandidateLists.Candidates.Pick` | scheduler/candidates.go:54-83 | Returns the remembered or newly picked proposers, new ones in the order of the list; no other list of the family is affected. |
| `CandidateLists.Candidates.Update` | scheduler/candidates.go:87-101 | Changes the activity of one candidate of this list iff the address is a master; no other list of the family is affected. |
| `CandidateLists.Candidates.InvalidateCache` | scheduler/candidates.go:109-111 | Forgets the picked candidates of this list only. |
| `Slots.EachHasSlot` | scheduler/poa_v2.go:86-127 | Within as many consecutive slots as there are members every member has a slot. |
| `Slots.EachHasOneSlot` | scheduler/poa_v2.go:86-127 | Within as many consecutive slots as there are members no member has two. |
| `Slots.OwnerUnique` | scheduler/poa_v2.go:113-127 | No time belongs to two members of a plan. |
| `Slots.IsScheduled` | scheduler/poa_v2.go:113-127 | True iff the address owns a slot at that time. |
| `Slots.Schedule` | scheduler/poa_v2.go:86-105 | Returns the least time, not before now and after the parent, at which the proposer owns a slot. |
| `Slots.MissedInFirstRound` | scheduler/poa_v2.go:130-140 | However many slots were missed, their owners are found within one round of the members. |
| `Schedulers.SortedIsSorted` | scheduler/pos.go:88-99 | Sorting orders the entries by key and neither drops nor adds any. |
| `Schedulers.SortedStable` | scheduler/pos.go:88-99 | Entries with the same key stay in the order of the list. |
| `Schedulers.SequenceExact` | scheduler/poa_v2.go:48-82 | The sequence holds the active proposers and the one to be scheduled, each once, by ascending key. |
| `Schedulers.NewScheduler` | scheduler/pos.go:38-107 | Builds a scheduler iff the address is listed, with the specified sequence. |
| `Schedulers.NeverBoth` | scheduler/poa_v2.go:108-127 | Two different active proposers who look at the same parent never both find a time to be theirs. |
| `Schedulers.ScheduleFor` | scheduler/pos.go:111-130 | A scheduler of its own sequence returns the least suitable time. |
| `Schedulers.AppliedUpdates` | scheduler/poa_v2.go:130-150 | Applying updates leaves active those who took part, without the deactivated ones. |
| `Schedulers.FirstMissed` | scheduler/poa_v2.go:130-150 | The deactivated are exactly the owners, other than the proposer, of all slots between parent and new block. |
| `Schedulers.UpdatesV2` | scheduler/poa_v2.go:130-150 | Updates are exact, and the score is the number of proposers active after them, which is at least one. |
| `Schedulers.RemainingIsActive` | scheduler/pos.go:160-177 | The weight left after the loop is the weight of the proposers that stay active. |
| `Schedulers.SelectedWeight` | scheduler/pos.go:62-83 | The members weigh no more than all listed proposers, and as much if all are active. |
| `Schedulers.UpdatesPos` | scheduler/pos.go:155-189 | Updates are exact, the active weight never underflows, and the score is the specified one of the weight that stays active, at most 10000 if listed weights sum to at most the total. |
| `Schedulers.ScoreOf` | scheduler/pos.go:183-186 | The score is the share of the active weight in the total in parts of 10000, rounded down, with the product in 64 bits; it is at most 10000 for an active weight up to the total. |
| `SchedulersV1.LookBack` | scheduler/poa_v1.go:102-113 | Collects exactly the owners, other than the proposer, of the times looked at, in 64-bit arithmetic and for all block times. |
| `SchedulersV1.MissedBackIsLately` | scheduler/poa_v1.go:102-113 | For a block at the time of a slot these are the owners of the last 101 slots before it, and after the parent. |
| `SchedulersV1.UpdatesV1` | scheduler/poa_v1.go:102-129 | Updates are exact for those times, and the score is the number of proposers active after them, which is at least one. |
| `ChainRepository.BlockAdded` | chain/repository.go:225-255 | A block saved under the count of blocks at its height keeps versions distinct and every index exact. |
| `ChainRepository.IndexExtends` | chain/chain.go:370-382 | The parent's index with the block added is the block's index. |
| `ChainRepository.TxsAdded` | chain/repository.go:161-185 | The transaction index stays exact when a block is saved. |
| `ChainRepository.IndexTxs` | chain/repository.go:161-185 | Indexes the transactions of a block under its version and leaves all other entries alone. |
| `ChainRepository.Repository.constructor` | chain/repository.go:73-126 | A new repository holds genesis. |
| `ChainRepository.Repository.ScanConflicts` | chain/repository.go:244-255 | Counts the saved blocks with a number. |
| `ChainRepository.Repository.AddBlock` | chain/repository.go:225-241 | Fails iff the parent is missing; else saves the block, and makes it the best block if told so; all indexes stay exact if the block is new and the counter is the number of blocks at its height. |
| `ChainRepository.Repository.GetBlockID` | chain/chain.go:86-103 | Returns the ancestor of the head at that height, and nothing above the head. |
| `ChainRepository.Repository.HasBlock` | chain/chain.go:258-267 | True iff the block is an ancestor of the head. |
| `ChainRepository.Repository.GetTransactionMeta` | chain/chain.go:106-139 | Finds an entry iff some block of this chain holds the transaction, and the entry tells its place and how it ended there. |
| `ChainRepository.Repository.HasTransaction` | chain/chain.go:143-198 | Decides whether the chain holds the transaction from the reference on, or at all if the head is 100 above it; and says exactly when that agrees with the whole chain. |
| `ChainRepository.HeldBelowReference` | chain/chain.go:143-198 | A chain of three blocks holds a transaction below its reference, where the walk back does not look. |
| `ChainRepository.Repository.WalkBack` | chain/chain.go:150-165 | Finds the transaction iff a block from the reference up to the head holds it. |
| `NodeKeys.NodePathInjective` | muxdb/backend.go:81-94 | An encoded path tells the path and where it ends. |
| `NodeKeys.IdInjective` | state/state.go:457-464 | A storage id tells version and counter and where it ends. |
| `NodeKeys.NameInjective` | state/state.go:28-33 | A trie name tells the trie and where it ends. |
| `NodeKeys.BigEndianReads` | muxdb/backend.go:34-51 | Big-endian numbers can be read back from their bytes. |
| `NodeKeys.UvarintReads` | muxdb/backend.go:53-55 | A varint can be read back whatever follows, goes on to its last byte, and is as short as possible. |
| `NodeKeys.NodePathReads` | muxdb/backend.go:81-94 | A path can be read back from its bytes whatever follows. |
| `NodeKeys.ModWidthIsLeast` | muxdb/backend.go:39-51 | The version within a partition takes the least bytes in which all of them can be told apart. |
| `NodeKeys.NamesBegin` | muxdb/trie.go:16-21 | Trie names begin with the letters i, a and s. |
| `NodeKeys.AppendHistNodeKey` | muxdb/backend.go:26-56 | Appends the key that consists of space, partition, name, path, version within the partition and minor version. |
| `NodeKeys.HistKeyInjective` | muxdb/backend.go:26-56 | Two keys are equal iff name, path and version are, or there is a single partition and the major versions are 0 and 2^32-1. |
| `NodeKeys.HistKeysOrdered` | muxdb/backend.go:26-56 | The keys of one node are in the order of its major versions, across partitions too; with a single partition the very last version counts as the first. |
| `NodeKeys.BigEndianOrdered` | muxdb/backend.go:70-78 | Big-endian byte strings are ordered as the numbers are. |
| `NodeKeys.RangeIsPartitions` | muxdb/backend.go:70-78 | A history key is in the deleted range iff its partition is in the range of partitions. |
| `NodeKeys.OtherSpacesKept` | muxdb/backend.go:70-78 | No key of another space is in the range. |
| `NodeKeys.SinglePartitionKept` | muxdb/backend.go:70-78 | With a single partition for all versions no history key is in the range. |
| `NodeKeys.HistoryInRange` | muxdb/backend.go:70-78 | For every partition factor, a history key is in the range iff its partition is, and there is not just one. |
| `NodeKeys.Backend.DeleteHistoryNodes` | muxdb/backend.go:70-78 | A history node goes iff its partition is in the range of partitions, and none if there is one partition for all; keys of other spaces and the values of all keys that stay are kept. |
| `BlockReaders.FollowTwice` | chain/block_reader.go:31-72 | A listener may take batches one after the other. |
| `BlockReaders.BlockReader.constructor` | chain/block_reader.go:31-32 | A reader starts at a saved block. |
| `BlockReaders.BlockReader.Read` | chain/block_reader.go:31-72 | A batch takes a listener from the chain of the old position to that of the new one, which is on the best chain; fails iff the best block is a strict ancestor of the position. |
| `BlockReaders.BlockReader.Retreat` | chain/block_reader.go:41-70 | Goes back to the best chain and reports what is left behind, in order. |
| `BlockReaders.BlockReader.ReadToEnd` | chain/block_reader.go:31-72 | With the best block fixed, and not behind the position, repeated reads terminate exactly at it. |
| `ChainSync.OverlapsBelow` | comm/sync.go:169-179 | Chains agree below every height at which they agree. |
| `ChainSync.MiddleIff` | comm/sync.go:192 | Half of the 32-bit sum of two heights lies between them iff the sum does not wrap around. |
| `ChainSync.FindsForkPoint` | comm/sync.go:181-206 | The recursive search finds the last height of agreement if it is in the range or is the height known so far. |
| `ChainSync.FastSeek` | comm/sync.go:208-228 | Stepping back by growing strides terminates at a height of agreement. |
| `ChainSync.FindCommonAncestor` | comm/sync.go:164-238 | Returns the greatest height at which both chains agree. |

## Left out

- Trie nodes, Merkle hashing and LevelDB: a trie is a map per version.
- The virtual machine, the clauses it runs and the statedb on top of the state: an arbitrary function of the world that never returns more gas than it was given.
- The native contracts except adding and subtracting energy: sponsors, credit and parameters are cells of the world; credit plans and the recovery of credit over time are not modelled.
- Crypto, VRF, RLP, Blake2b and Keccak: uninterpreted.
- Float scores and ChaCha8 of the proof-of-stake scheduler: an arbitrary sort key per position of the list.
- `PoASchedulerV1.Schedule`: its loop ends only if the pseudo-random process eventually picks the proposer.
- `State.BuildStorageTrie`: it starts from the stored storage root whatever was deleted, so it does not agree with staging after a deletion.
- The caches of accounts, code and storage in the state: which storage tries are open already is a parameter of staging, which does not matter.
- `Engine.Justified` and the scan of casts at startup.
- Locks, atomics and goroutines: calls are serialized.
- Failures of the store: lookups of stored data succeed; chains whose head is not saved are not asked for.
- `Flow.Pack`: signing, VRF, and the fields of the header that are copied from the context.
- Header validation but for the checks on gas and COM; base fee and block interval changes in `consensus`.
- `Chain.Exclude`, `FindBlockHeaderByTimestamp`, `ScanHeads` and the block, transaction and receipt getters, which read the same indexes.
- The pipeline that downloads blocks, the transaction pool, p2p, the API, logs and metrics.
- ComputeState: requires that the rounds before the block's were concluded, which `Process` keeps for all blocks it takes; sums of weights and twice the total weight are assumed to fit 64 bits.
- FindCheckpoint: what it returns for a head below the search start is left open if a 32-bit sum of start, head and three epochs wraps.
- CommitBlock: requires that the block's parent was accepted and its chain concluded, and that the block was not committed before, which the caller ensures.
- Stage: requires a version that nothing was stored under before, as block number and conflict counter give.
- UpdatesV1: requires that no address is listed twice, as the other updates do and the contracts ensure.
- UpdatesPos: times, and the sum of the weights of the members, are assumed to fit 64 bits.
- AddBlock: promises exact indexes only for a new block with the number of blocks at its height, which its callers take from `ScanConflicts`; blocks come with at least as many receipts as transactions.
- LaterFinalizationIsHigher: speaks of rounds without changes of weight, of a cast that is not below the signer's finalized checkpoint, and of a vote for a checkpoint that is not below where the finalization starts to search.
- SelectionConfluent: speaks of blocks past the FINALITY fork; before it, and while the best block is before it, the score decides whatever the qualities are.
- Process: does not cover a block without answers that arrives past the fork while the best block is before it; and not the node's own blocks, which become the best block without being compared.
- FindCommonAncestor: requires a head below 2^31; above that the 32-bit sum of two heights wraps.
- HasTransaction: block numbers are below 2^32-1, the number that stands for the parent of genesis.
