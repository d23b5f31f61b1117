# Verified model of the flon system contracts

This project models the stateful core of the flon contracts in Dafny and proves the properties they
are relied on for: that staking, voting and lazily settled rewards stay solvent across three contracts,
that elections and finalizer policies are what the documentation says, that multisig delays are
observed, that name auctions and block rewards add up, and that the Base58 decoder and the block-info
window are exact.

Each contract is modelled twice. A *specification* gives, on immutable tables, what one action does to
the rows, error conditions included; a *contract* class holds the tables as fields and runs the action
as the source does, with its loops, in-place updates and early exits, and every method is proved to
have exactly the specified effect (`Tables()` is the value of the fields). An action whose check fails
leaves all tables as they were. The theorems are about the specifications, first for one action, then
for every history of actions.

| part | files |
|---|---|
| rewards per vote (flon.reward) | `RewardSpec`, `RewardInvariant`, `RewardActions`, `RewardRuns`, `RewardContract` |
| votes, stakes and refunds (flon.system) | `VoteSpec`, `VoteContract` |
| token ledger (flon.token) | `Token` |
| the three together: transactions with inline actions | `World`, `WorldProofs`, `WorldRuns`, `WorldHistories` |
| finalizer keys and elections (flon.system) | `FinalizerSpec`, `FinalizerContract`, `FinalizerRuns`, `Election` |
| multisig proposals (flon.msig) | `MultisigSpec`, `MultisigRuns`, `MultisigContract` |
| name auctions (flon.system) | `AuctionSpec`, `AuctionProofs`, `AuctionNames`, `AuctionRuns`, `AuctionContract` |
| block rewards (flon.system) | `Emission` |
| onblock as one action (flon.system) | `OnBlock` |
| block-info window (flon.system) | `BlockInfo` |
| Base58 decoding (pubkey.token) | `Base58`, `Base58Decoder` |
| shared vocabulary | `Common` |

Account names are their 64-bit values. 64-bit and 128-bit registers are unbounded integers passed
through `Int64` and `Int128`, which wrap; block slots are 32-bit numbers; an asset outside plus or minus
2^62 - 1 aborts the action.
Authorization is a precondition: actions are signed by the accounts the source asks for, and the
custody accounts flon.vote, flon.reward and flon.names act only through the contracts.

## What the proofs brought to light

- **A kept producer that is inactive blocks a revote.** `voteproducer` compares iterators of two
  different vectors, so a producer in both lists is removed and added again instead of being kept, and
  adding requires it to be active (`WorldRuns.KeptInactiveProducerBlocksRevote` gives the exact condition,
  `WorldHistories.KeptInactiveReachable` a history). The totals are right all the same.
- **`actfinkey` can propose a policy that holds one key twice.** A deleted key stays in the last
  proposed list and may be registered and activated by somebody else who is listed too
  (`FinalizerRuns.DuplicateKeyHistory`; the exact condition is `FinalizerRuns.ActivationPolicyDistinct`).
- **`invalidate` does not restart a multisig delay.** A proposal can be executed although its
  transaction was not authorized for part of the delay (`MultisigRuns.InvalidationKeepsTimer`; the exact
  condition is `MultisigRuns.AuthorizationLasts`).
- **The Base58 buffer size wraps.** `strlen * 733` is a 32-bit product. Below the wrap every well-formed
  string decodes; at or above it none does that has no trailing whitespace
  (`Base58Decoder.FitsUnlessWrapped`). Trailing whitespace counts towards the length, so with it a string past
  the wrap decodes exactly when its value happens to fit (`Base58Decoder.DecodeBase58`). This is a property of the
  function: it takes 5.86 million characters, which default transaction limits keep out of actions.
- **Total rewards can outgrow their fields.** `cfgelection` bounds the block reward only from below. The
  fields stay exact in every history exactly up to the reward at which all blocks that 32-bit slots allow
  fit 64 bits (`Emission.ExactThreshold`); at the largest asset amount the third block overflows
  (`Emission.ThirdBlockOverflows`).

## Model

| member | source | states |
|---|---|---|
| RewardInvariant.SettleExact | contracts/flon.reward/src/flon.reward.cpp:257-296 | a settlement whose debt is covered passes every check, wraps nowhere, pays the debt / 10^18 rounded down and moves exactly that between the producer's books |
| RewardInvariant.VoterShare | contracts/flon.reward/src/flon.reward.cpp:275-280 | in a solvent state a voter's votes are at most the producer's, and what it is owed is at most what is still allocating |
| RewardInvariant.RowBounds | contracts/flon.reward/src/flon.reward.cpp:208-227 | no row exceeds all deposits or all votes, and no rate exceeds deposits x 10^18 |
| RewardInvariant.ResettleSolvent | contracts/flon.reward/src/flon.reward.cpp:257-296 | settling a voter on any producers is never rejected, pays each debt rounded down and keeps solvency |
| RewardActions.RegProducerSolvent | contracts/flon.reward/src/flon.reward.cpp:82-102 | registration keeps solvency |
| RewardActions.RegistrationLeaves | contracts/flon.reward/src/flon.reward.cpp:82-102 | and marks exactly that producer as registered, a new one with empty books |
| RewardActions.ChangeVoteSolvent | contracts/flon.reward/src/flon.reward.cpp:229-255 | addvote and subvote fail only for a nonpositive or too large amount; otherwise they settle the voter and stay solvent |
| RewardActions.VoteProducerSolvent | contracts/flon.reward/src/flon.reward.cpp:115-176 | voteproducer fails only for an unsorted list; otherwise it settles the voter on exactly the new producers |
| RewardActions.ClaimSolvent | contracts/flon.reward/src/flon.reward.cpp:184-200 | a claim succeeds iff the voter is known and something is claimable, pays all of it and stays solvent |
| RewardActions.RaiseDebts | contracts/flon.reward/src/flon.reward.cpp:57-65 | raising the rate by r adds r x votes to what all supporters together are owed |
| RewardActions.RiseBounds | contracts/flon.reward/src/flon.reward.cpp:57-65 | the rise of the rate times the votes is at most the scaled deposit and misses it by less than the votes |
| RewardActions.DepositSolvent | contracts/flon.reward/src/flon.reward.cpp:208-227 | a deposit fails only for an unknown or unregistered sender or an asset overflow, and keeps solvency |
| RewardRuns.RunSolvent | contracts/flon.reward/src/flon.reward.cpp:208-296 | every reachable state is solvent: votes add up, every debt is covered, books balance |
| RewardRuns.OthersUntouched | contracts/flon.reward/src/flon.reward.cpp:257-296 | settling one voter changes neither the row nor the debts of another |
| RewardRuns.SettleAccount | contracts/flon.reward/src/flon.reward.cpp:67-73 | a settlement turns all debts into credit and loses at most one unit per producer |
| RewardRuns.StepAccount | contracts/flon.reward/src/flon.reward.cpp:208-296 | one action moves a voter's account by its exact share up to one unit per settlement and the rounding of the rate |
| RewardRuns.AccountTracksFairShare | contracts/flon.reward/src/flon.reward.cpp:57-73 | over every history credit plus debt is at most the exact pro-rata share, and at least that minus one per settlement minus weights / 10^18 |
| RewardRuns.SettledVoterIsPaidProRata | contracts/flon.reward/src/flon.reward.cpp:184-200 | the same bounds for the credit of a voter without outstanding debts |
| RewardRuns.WeightChangesOnlyWhenSettled | contracts/flon.reward/src/flon.reward.cpp:229-296 | votes and producers of a voter change only in actions that leave it without debts |
| RewardContract.Reward.AllocateProducerRewards | contracts/flon.reward/src/flon.reward.cpp:257-296 | the loop settles every entry; the outcome does not depend on the order of the entries |
| RewardContract.MergeProducers | contracts/flon.reward/src/flon.reward.cpp:135-165 | the merge splits old and new producers into the gone with their checkpoints, the kept, and the new at checkpoint 0 |
| RewardContract.GroupsResettle | contracts/flon.reward/src/flon.reward.cpp:167-172 | settling the three groups one after the other is one settlement on the new producers |
| RewardContract.Reward.SettleSplit | contracts/flon.reward/src/flon.reward.cpp:167-172 | the three passes in place, tied to that settlement |
| RewardContract.Reward.ChangeVotes | contracts/flon.reward/src/flon.reward.cpp:229-255 | the in-place action accepts, rejects and updates exactly as ChangeVoteSolvent describes |
| RewardContract.Reward.VoteProducers | contracts/flon.reward/src/flon.reward.cpp:115-176 | the in-place merge and passes have exactly the effect that VoteProducerSolvent describes |
| RewardContract.Reward.ClaimRewards | contracts/flon.reward/src/flon.reward.cpp:184-200 | the in-place action pays and records exactly what ClaimSolvent describes |
| RewardContract.Reward.OnTransfer | contracts/flon.reward/src/flon.reward.cpp:208-227 | the in-place action credits exactly what DepositSolvent describes |
| Token.TransferLedger | contracts/flon.token/src/flon.token.cpp:84-134 | a transfer succeeds iff the sender has the tokens, moves them between the two balances only and keeps supply = sum of balances |
| Token.IssueLedger | contracts/flon.token/src/flon.token.cpp:34-58 | issuing succeeds iff the maximum supply allows it and keeps the identity |
| Token.RetireLedger | contracts/flon.token/src/flon.token.cpp:60-82 | retiring succeeds iff the issuer has the tokens and keeps the identity |
| Token.OpenCloseLedger | contracts/flon.token/src/flon.token.cpp:136-163 | a row opens iff the account exists and closes iff it exists with balance 0; only that row appears or disappears and no balance changes |
| Token.TokenContract.TransferTokens | contracts/flon.token/src/flon.token.cpp:84-134 | the in-place transfer has exactly the effect that TransferLedger describes, also when the receiving side fails |
| VoteContract.VoteTables.UpdateProducerVotes | contracts/flon.system/src/voting.cpp:256-276 | the loop adds the votes to every listed producer, or fails iff one is missing, inactive while gaining, or would go negative |
| VoteContract.VoteTables.DiffLists | contracts/flon.system/src/voting.cpp:220-241 | whichever list each step takes from, all old producers are removed and all new ones added |
| VoteContract.VoteTables.VoteForProducers | contracts/flon.system/src/voting.cpp:195-254 | the in-place walk and updates have exactly the effect that VoteProducerSystem describes |
| VoteContract.VoteTables.AddVotes | contracts/flon.system/src/voting.cpp:278-313 | the in-place action has exactly the system half of the effect that AddVoteWorld describes |
| VoteContract.VoteTables.SubVotes | contracts/flon.system/src/voting.cpp:315-361 | the in-place action has exactly the system half of the effect that SubVoteWorld describes |
| VoteContract.VoteTables.PayRefund | contracts/flon.system/src/voting.cpp:363-374 | the in-place action pays exactly the refund that VoteRefundWorld describes |
| WorldProofs.AddVoteWorld | contracts/flon.system/src/voting.cpp:278-313 | addvote with its inline actions succeeds iff the voter has the tokens and its producers are active; coupling and custody survive |
| WorldProofs.SubVoteWorld | contracts/flon.system/src/voting.cpp:315-361 | subvote succeeds iff elections are active, the votes suffice and no refund is pending; the stake becomes a refund |
| WorldProofs.VoteProducerSystem | contracts/flon.system/src/voting.cpp:214-245 | each total changes by votes x ([in new] - [in old]); accepted iff the list is legal and, for a voter with votes, active |
| WorldProofs.VoteProducerWorld | contracts/flon.system/src/voting.cpp:195-254 | flon.reward never rejects a vote that flon.system accepted; coupling and custody survive |
| WorldProofs.VoteRefundWorld | contracts/flon.system/src/voting.cpp:363-374 | a refund is paid in full iff its request second lies three days back |
| WorldRuns.ClaimWorld | contracts/flon.reward/src/flon.reward.cpp:184-200 | a claim is paid iff there is something to claim: the balance always covers it |
| WorldRuns.PayWorld | contracts/flon.reward/src/flon.reward.cpp:208-227 | only registered producers can pay into flon.reward, and each payment backs exactly what it creates |
| WorldRuns.LiabilitiesAreOpenRewards | contracts/flon.reward/src/flon.reward.cpp:275-287 | deposits minus claims equals all allocating plus all unclaimed rewards |
| WorldRuns.NextOk | contracts/flon.system/src/voting.cpp:195-374 | every transaction keeps solvency, the ledger, the coupling of both contracts' tables and custody |
| WorldRuns.RunOk | contracts/flon.system/src/voting.cpp:195-374 | so does every history from genesis; spare tokens of flon.reward never change |
| WorldRuns.RefundOrigin | contracts/flon.system/src/voting.cpp:315-361 | every pending refund was created by a successful subvote of its owner |
| WorldRuns.RefundWaitsThreeDays | contracts/flon.system/src/voting.cpp:363-374 | no refund is paid before the second of its owner's subvote plus three days |
| WorldRuns.NoOverflow | contracts/flon.reward/src/flon.reward.cpp:57-73 | rates and products stay below 2^122, votes within the total stake, and both contracts' totals agree |
| WorldRuns.KeptInactiveProducerBlocksRevote | contracts/flon.system/src/voting.cpp:220-245 | a revote that a comparison of names would accept is rejected iff a kept producer is inactive |
| WorldHistories.KeptInactiveReachable | contracts/flon.system/src/voting.cpp:220-245 | from genesis a funded user reaches a state in which keeping an inactive producer while adding an active one is rejected, and dropping it is accepted |
| WorldHistories.RewardsRefine | contracts/flon.system/src/voting.cpp:195-361 | flon.reward's part of every history of the three contracts is an admissible history of flon.reward alone |
| WorldHistories.VotersPaidProRata | contracts/flon.reward/src/flon.reward.cpp:57-73 | so in every history of the three contracts a voter without debts has been credited its exact share within the stated rounding |
| WorldHistories.ElectionInRange | contracts/flon.system/include/flon.system/flon.system.hpp:248-252 | in every history the totals lie in the range in which the packed key is exact |
| WorldHistories.ActivityHistory | contracts/flon.system/src/voting.cpp:60-122 | in every history a producer is active iff its latest registration came after its latest deactivation, and the activation time is that of the latest configuration that set it to the future while it was still open |
| FinalizerInvariant.RegFinKeyOk | contracts/flon.system/src/finalizer_key.cpp:186-232 | registration succeeds iff the account is a producer, the key is new and the proof holds; it adds exactly one row under a fresh id, activates only a first key and keeps the invariant |
| FinalizerInvariant.ActFinKeyOk | contracts/flon.system/src/finalizer_key.cpp:240-288 | activation succeeds iff the key is the owner's and inactive; only the owner's row changes, a listed former key gives way to it in a new policy, all other entries stay, and listed keys stay active or deleted |
| FinalizerInvariant.DelFinKeyOk | contracts/flon.system/src/finalizer_key.cpp:297-328 | deletion succeeds iff the key is the owner's and inactive or its last; exactly this key goes, other keys and finalizers stay, and erasing the row at count 1 is safe |
| FinalizerInvariant.SetProposedOk | contracts/flon.system/src/finalizer_key.cpp:52-99 | proposing current entries leaves them in the list, strictly sorted by id |
| FinalizerInvariant.SetProposedExact | contracts/flon.system/src/finalizer_key.cpp:52-99 | the host receives one policy, with the proposed entries in id order and the least threshold above two thirds, iff their ids or keys differ from the last ones; otherwise nothing changes |
| FinalizerInvariant.SortByIdSorts | contracts/flon.system/src/finalizer_key.cpp:54-56 | sorting distinct ids gives a strictly sorted permutation |
| FinalizerContract.LowerBound | contracts/flon.system/src/finalizer_key.cpp:272-274 | the binary search returns the first position whose id is not smaller |
| FinalizerContract.FinalizerTables.LastProposed | contracts/flon.system/src/finalizer_key.cpp:102-113 | the cached list equals the table |
| FinalizerContract.FinalizerTables.NextKeyId | contracts/flon.system/src/finalizer_key.cpp:117-133 | the next id is one more than the last handed out |
| FinalizerContract.FinalizerTables.ProposeFinalizers | contracts/flon.system/src/finalizer_key.cpp:52-99 | the in-place action has exactly the effect that SetProposedExact describes, for table and cache; it calls the host iff there is a new policy |
| FinalizerContract.FinalizerTables.RegisterKey | contracts/flon.system/src/finalizer_key.cpp:186-232 | the in-place action keeps the invariant and has exactly the effect that RegFinKeyOk describes |
| FinalizerContract.FinalizerTables.ActivateFinalizerKey | contracts/flon.system/src/finalizer_key.cpp:240-288 | the in-place action, with its binary search of the cached list, has exactly the effect that ActFinKeyOk describes |
| FinalizerContract.FinalizerTables.DeleteFinalizerKey | contracts/flon.system/src/finalizer_key.cpp:297-328 | the in-place action keeps the invariant and has exactly the effect that DelFinKeyOk describes |
| FinalizerRuns.RunOk | contracts/flon.system/src/finalizer_key.cpp:186-328 | the invariant holds after every history; the branches marked "should never happen" are dead |
| FinalizerRuns.IdsNeverReused | contracts/flon.system/src/finalizer_key.cpp:115-133 | a later registration gets a larger id, whatever was deleted in between |
| FinalizerRuns.ActivationPolicyDistinct | contracts/flon.system/src/finalizer_key.cpp:279-287 | the policy after an activation has distinct keys iff the other listed entries have and none of them carries the activated key |
| FinalizerRuns.DuplicateKeyHistory | contracts/flon.system/src/finalizer_key.cpp:279-287 | a history that ends in a policy with the same key twice |
| FinalizerRuns.RejoinElected | contracts/flon.system/src/finalizer_key.cpp:155-174 | the election in that history selects the top two of two voted producers with keys |
| FinalizerRuns.TopElectable | contracts/flon.system/src/voting.cpp:137-186 | the finalizers that an election selects are a legal step of these histories |
| ElectionSpec.PackedKeyOrder | contracts/flon.system/include/flon.system/flon.system.hpp:248-252 | the packed key orders active before inactive and more votes before fewer |
| ElectionSpec.TopUnique | contracts/flon.system/src/voting.cpp:124-187 | there is only one selection of the best eligible producers |
| Election.ScanIndex | contracts/flon.system/src/voting.cpp:137-161 | the early-exit scan selects exactly the best eligible producers up to the limit |
| Election.TopOfIsTop | contracts/flon.system/src/voting.cpp:137-161 | so does the scan as a function, which the histories of onblock use |
| Election.ProposalLegal | contracts/flon.system/src/voting.cpp:138-152 | proposed entries are current and distinct in id and key |
| Election.ThresholdLegal | contracts/flon.system/src/finalizer_key.cpp:73-76 | the threshold is reachable and the least above two thirds |
| Election.ElectionPolicyLegal | contracts/flon.system/src/voting.cpp:163-186 | the policy of an election names each elected producer's active key exactly once, with the least threshold above two thirds; it is proposed iff ids or keys differ from the last ones |
| Election.ElectOk | contracts/flon.system/src/voting.cpp:124-187 | an election keeps the finalizer invariant, adds at most one legal policy, and keeps the schedule size between the last one and 21 |
| Election.QuorumsIntersect | contracts/flon.system/src/finalizer_key.cpp:73-76 | any two quorums share more than a third of the finalizers |
| Election.ElectionTables.UpdateElectedProducers | contracts/flon.system/src/voting.cpp:127-187 | proposes the names of the top producers in order and, under Savanna, their keys; the schedule size never shrinks nor exceeds 21 |
| Election.ElectionTables.SwitchToSavanna | contracts/flon.system/src/finalizer_key.cpp:142-176 | succeeds iff not yet switched and the last schedule's size can be filled with keys; the host then receives exactly those keys as its first policy |
| MultisigSpec.CountedSound | contracts/flon.msig/src/flon.msig.cpp:28-35 | a counted level has a provided approval later than its actor's invalidation |
| MultisigSpec.CountedComplete | contracts/flon.msig/src/flon.msig.cpp:28-35 | and every such approval is counted |
| MultisigSpec.ProvideKeeps | contracts/flon.msig/src/flon.msig.cpp:109-115 | approving moves one level and keeps requested + provided |
| MultisigSpec.RevokeKeeps | contracts/flon.msig/src/flon.msig.cpp:140-145 | unapproving moves it back |
| MultisigRuns.EqualDomains | contracts/flon.msig/src/flon.msig.cpp:78-91 | proposals and approvals have the same keys in every history |
| MultisigRuns.ProposalHistory | contracts/flon.msig/src/flon.msig.cpp:41-92 | every proposal goes back to one propose, whose requested levels are exactly those requested or provided now |
| MultisigRuns.ProposesExactly | contracts/flon.msig/src/flon.msig.cpp:41-92 | in any history of legal tables a propose succeeds iff the name is new and not empty, levels are requested that can authorize the transaction, and it is unexpired and without context-free actions; it adds exactly its two rows |
| MultisigRuns.ApprovesExactly | contracts/flon.msig/src/flon.msig.cpp:94-132 | an approve succeeds iff the proposal exists, the level is still requested and a given hash is that of the transaction; it moves the level, starts the timer iff that now authorizes, and leaves the rest |
| MultisigRuns.UnapprovesExactly | contracts/flon.msig/src/flon.msig.cpp:134-166 | an unapprove succeeds iff the level was provided; it moves the level back, stops the timer iff the rest no longer authorizes, and leaves the rest |
| MultisigRuns.CancelsExactly | contracts/flon.msig/src/flon.msig.cpp:168-185 | a cancel succeeds iff it comes from the proposer or after expiration; exactly its two rows disappear |
| MultisigRuns.ExecutesExactly | contracts/flon.msig/src/flon.msig.cpp:187-217 | whatever its delay, a transaction is executed iff the standing approvals authorize it then, it is unexpired and without context-free actions, and its timer has passed or there is neither timer nor delay; exactly its two rows disappear |
| MultisigRuns.TimerHistory | contracts/flon.msig/src/flon.msig.cpp:120-131 | a running timer was started by an approval that found the transaction authorized, and every later unapproval left it so |
| MultisigRuns.ExecutionWaited | contracts/flon.msig/src/flon.msig.cpp:187-217 | an execution with a delay comes at least that long after such an approval, within the latest proposal |
| MultisigRuns.CountedStands | contracts/flon.msig/src/flon.msig.cpp:28-35 | a counted level approved after the latest propose and strictly after all invalidations by its actor |
| MultisigRuns.StandingCounted | contracts/flon.msig/src/flon.msig.cpp:28-35 | conversely such an approval, not taken back, is counted |
| MultisigRuns.AuthorizationLasts | contracts/flon.msig/src/flon.msig.cpp:219-233 | with fixed monotone permissions the authorization lasts for the whole delay iff, whenever somebody invalidates, the approvals of the others suffice in the tables before that |
| MultisigRuns.InvalidationKeepsTimer | contracts/flon.msig/src/flon.msig.cpp:219-233 | a history in which it does not last and the transaction is executed |
| MultisigContract.Multisig.GetApprovals | contracts/flon.msig/src/flon.msig.cpp:21-39 | the loop returns exactly the levels of the approvals that count |
| MultisigContract.Multisig.ProposeTransaction | contracts/flon.msig/src/flon.msig.cpp:41-92 | the in-place action has exactly the effect that ProposesExactly describes |
| MultisigContract.Multisig.ApproveProposal | contracts/flon.msig/src/flon.msig.cpp:94-132 | the in-place action has exactly the effect that ApprovesExactly describes, also when it fails halfway |
| MultisigContract.Multisig.UnapproveProposal | contracts/flon.msig/src/flon.msig.cpp:134-166 | the in-place action has exactly the effect that UnapprovesExactly describes, also when it fails halfway |
| MultisigContract.Multisig.CancelProposal | contracts/flon.msig/src/flon.msig.cpp:168-185 | the in-place action has exactly the effect that CancelsExactly describes |
| MultisigContract.Multisig.ExecuteProposal | contracts/flon.msig/src/flon.msig.cpp:187-217 | the in-place action sends the transaction once and erases both rows exactly when ExecutesExactly says so |
| MultisigContract.Multisig.InvalidateAccount | contracts/flon.msig/src/flon.msig.cpp:219-233 | invalidate records the current time |
| AuctionProofs.LowerBoundIsHighest | contracts/flon.system/include/flon.system/flon.system.hpp:157 | the row at lower_bound of the negated unsigned key is the largest open bid, smallest name first, if any |
| AuctionProofs.BidKeeps | contracts/flon.system/src/name_bidding.cpp:11-58 | a bid succeeds iff name, funds, raise above ten percent and bidder are in order; custody is kept |
| AuctionProofs.RefundKeeps | contracts/flon.system/src/name_bidding.cpp:60-68 | every recorded refund can be paid, in full and once |
| AuctionProofs.BlockKeeps | contracts/flon.system/src/producer_pay.cpp:62-85 | onblock closes exactly the largest open bid that has stood for a day, if a day has passed since the last closing, and never fails here |
| AuctionProofs.CreationKeeps | contracts/flon.system/src/flon.system.cpp:265-309 | creation succeeds iff the name is new and, for a user and a name with a dot or below twelve characters, the user won its closed auction or is its suffix; it erases at most that auction |
| AuctionNames.LetterIs | contracts/flon.system/src/flon.system.cpp:273-279 | the i-th group of five bits that the loop tests is the i-th of the twelve characters from the right |
| AuctionNames.DotsFound | contracts/flon.system/src/flon.system.cpp:273-279 | the test is true iff one of the twelve characters, in any place, is a dot |
| AuctionNames.CreationByCharacters | contracts/flon.system/src/flon.system.cpp:265-297 | told by the characters of the name: a user creates a name with a dot in any place iff it won the closed auction (top-level) or is the suffix (otherwise), and any new name without a dot |
| AuctionNames.BiddableCharacters | contracts/flon.system/src/name_bidding.cpp:15-17 | a name can be bid on iff it is at most eleven characters long and not empty |
| AuctionRuns.CustodyRun | contracts/flon.system/src/name_bidding.cpp:11-68 | the names account always covers open bids plus refunds, exactly so without outside transfers |
| AuctionRuns.Escalation | contracts/flon.system/src/name_bidding.cpp:34-36 | after k outbids 10^k x price > 11^k x first bid |
| AuctionRuns.ClosedOnce | contracts/flon.system/src/producer_pay.cpp:69-83 | a closed auction takes no bid and is never closed or charged again |
| AuctionRuns.PremiumNameWasWon | contracts/flon.system/src/flon.system.cpp:282-290 | a premium name created by a user went to the winner of its closed and charged auction |
| AuctionRuns.CreatedOnce | contracts/flon.system/src/flon.system.cpp:265-309 | no name is created twice |
| AuctionRuns.ClosingsApart | contracts/flon.system/src/producer_pay.cpp:65-73 | two closings are more than a day's slots apart |
| AuctionContract.NameHasDot | contracts/flon.system/src/flon.system.cpp:273-279 | the bit loop decides what DotsFound describes |
| AuctionContract.BiddableNeedsAuction | contracts/flon.system/src/name_bidding.cpp:15-17 | names that can be bid on always take the auction branch of newaccount |
| AuctionContract.NameAuctions.PlaceBid | contracts/flon.system/src/name_bidding.cpp:11-58 | the in-place action has exactly the effect that BidKeeps describes, also when the inline transfer fails |
| AuctionContract.NameAuctions.RefundBid | contracts/flon.system/src/name_bidding.cpp:60-68 | the in-place action has exactly the effect that RefundKeeps describes |
| AuctionContract.NameAuctions.LowerBound | contracts/flon.system/src/producer_pay.cpp:66-69 | the index position at or after half the key range |
| AuctionContract.NameAuctions.CloseHighest | contracts/flon.system/src/producer_pay.cpp:61-85 | the in-place action closes exactly the auction that BlockKeeps describes |
| AuctionContract.NameAuctions.CreateAccount | contracts/flon.system/src/flon.system.cpp:265-309 | the in-place action accepts, rejects and erases exactly as CreationKeeps describes |
| EmissionSpec.PayBlockExact | contracts/flon.system/src/producer_pay.cpp:50-59 | with 32-bit block slots the power is always exact, so the reward part never aborts and credits the halved reward |
| EmissionSpec.ConfigureExact | contracts/flon.system/src/producer_pay.cpp:95-123 | cfgelection is accepted iff the reward is not negative and a time that has passed stays while any other lies in the future, in order; it then leaves exactly the three given values and nothing else changed |
| EmissionSpec.RewardHalves | contracts/flon.system/src/producer_pay.cpp:11-17 | of the function alone: dividing by the loop's result is halving k times for k < 64, and the result is 0 iff k >= 64 |
| EmissionSpec.PeriodInSlots | contracts/flon.system/src/producer_pay.cpp:52 | the halving period counted in seconds is the one counted in half-second slots |
| EmissionSpec.CapacityLimited | contracts/flon.system/src/producer_pay.cpp:50-59 | the rewards of any number of slots are below twice those of the first period |
| Emission.BlockKeeps | contracts/flon.system/src/producer_pay.cpp:50-59 | in exact amounts one block keeps the three records equal and within the capacity of its slot, for any configured reward |
| Emission.StartNeverMoves | contracts/flon.system/src/producer_pay.cpp:114-120 | once the start of the rewards has passed, no later configuration in the history moves it |
| Emission.InForce | contracts/flon.system/src/producer_pay.cpp:95-123 | in every history the times and the reward in force are those of the latest accepted configuration |
| Emission.RegisteredProducers | contracts/flon.system/src/producer_pay.cpp:50-51 | the producers that can be rewarded are exactly those that registered before |
| Emission.BlockEarns | contracts/flon.system/src/producer_pay.cpp:50-59 | in every history a block by a known producer after the start is worth the reward of the latest accepted configuration, halved once per 157,680,000 seconds since its start; any other block changes nothing |
| Emission.UnconfiguredEarnsNothing | contracts/flon.system/src/producer_pay.cpp:38-51 | before the first configuration no block changes anything |
| Emission.EmissionBound | contracts/flon.system/src/producer_pay.cpp:50-59 | over every history the exact rewards stay within a ceiling for the highest configured reward, below 2 x that reward x blocks per period, and equal the sum over producers |
| Emission.FieldsWrap | contracts/flon.system/src/producer_pay.cpp:54-58 | the contract's fields hold the exact amounts modulo 2^64 in every history |
| Emission.TotalsAgree | contracts/flon.system/src/producer_pay.cpp:54-58 | the produced and unclaimed fields always agree; all fields are exact iff what has been produced fits 64 bits, as it does while the ceiling does |
| Emission.BlockStaysExact | contracts/flon.system/src/producer_pay.cpp:54-58 | told before a block, exact fields stay exact iff the produced field plus the block's reward fits 64 bits |
| Emission.ExactThreshold | contracts/flon.system/src/producer_pay.cpp:95-123 | a limit on the configured reward keeps the fields exact in every history iff its ceiling fits 64 bits |
| Emission.ThirdBlockOverflows | contracts/flon.system/src/producer_pay.cpp:95-123 | at the largest asset amount as reward the third block overflows the fields |
| Emission.PowerLoop | contracts/flon.system/src/producer_pay.cpp:11-17 | the loop computes the power in a wrapping register: exact up to 62, zero from 64 |
| Emission.BlockRewards.RewardBlock | contracts/flon.system/src/producer_pay.cpp:36-59 | the in-place action, with the power loop, pays exactly the reward that EmissionBound sums up, or aborts |
| Emission.BlockRewards.ConfigureElection | contracts/flon.system/src/producer_pay.cpp:95-123 | the in-place action has exactly the effect that ConfigureExact describes |
| OnBlock.FailsExactly | contracts/flon.system/src/producer_pay.cpp:19-87 | onblock, with record, reward, election and auction, fails iff the height is recorded already; it proposes legal policies only and never shrinks the schedule |
| OnBlock.BlockLeaves | contracts/flon.system/src/producer_pay.cpp:19-87 | what a successful onblock leaves, part by part: before activation only the block record changes; then the three reward fields grow by the halved reward, and more than 120 slots after the last time the election proposes whatever selection is the top one and the largest open bid that has stood for a day is closed if the last closing is a day back |
| OnBlock.NeverFails | contracts/flon.system/src/producer_pay.cpp:19-87 | while heights grow, no onblock of any history fails, whatever happens between blocks |
| BlockInfo.AddKeeps | contracts/flon.system/src/block_info.cpp:17-45 | recording a block keeps at most ten rows and erases none of the window |
| BlockInfo.ErasesTwo | contracts/flon.system/src/block_info.cpp:36-44 | of the rows that have left the window it erases the two oldest, or as many as there are, and no other |
| BlockInfo.WindowHolds | contracts/flon.system/src/block_info.cpp:17-45 | the same after any increasing heights, with gaps |
| BlockInfo.TenConsecutive | contracts/flon.system/src/block_info.cpp:17-45 | ten consecutive blocks leave exactly their own ten rows |
| BlockInfo.LatestBatchExact | contracts/flon.system/include/flon.system/block_info.hpp:84-173 | the reader succeeds iff the latest batch exists and its start is recorded, and returns that batch |
| BlockInfo.WriterServesReader | contracts/flon.system/include/flon.system/block_info.hpp:84-173 | after ten consecutive blocks every batch size from 1 to 10 succeeds |
| BlockInfo.BlockInfoTable.AddBlock | contracts/flon.system/src/block_info.cpp:17-45 | inserting in key order and erasing from the front has exactly the effect that AddKeeps describes |
| Base58Spec.TablesInverse | contracts/pubkey.token/include/pubkey_utils.hpp:13-31 | the two tables invert each other and no digit is whitespace |
| Base58Spec.AlphabetExact | contracts/pubkey.token/include/pubkey_utils.hpp:13-31 | the digits number, in ASCII order, exactly the letters and decimal digits other than 0, I, O and l |
| Base58Spec.DecodeEncode | contracts/pubkey.token/include/pubkey_utils.hpp:33-71 | decoding inverts encoding on all byte strings |
| Base58Spec.EncodeDecode | contracts/pubkey.token/include/pubkey_utils.hpp:33-71 | what decodes is the encoding of its result, up to surrounding whitespace |
| Base58Spec.DecodeInjective | contracts/pubkey.token/include/pubkey_utils.hpp:33-71 | strings with the same decoding have the same word |
| Base58Decoder.BufferAdequate | contracts/pubkey.token/include/pubkey_utils.hpp:42-44 | 58^n <= 256^(733 n / 1000 + 1) while the product does not wrap |
| Base58Decoder.ValueFits | contracts/pubkey.token/include/pubkey_utils.hpp:57 | the rejection for a non-zero carry is then unreachable |
| Base58Decoder.FitsUnlessWrapped | contracts/pubkey.token/include/pubkey_utils.hpp:43-57 | a well-formed string without trailing whitespace fits its buffer iff the size product does not wrap |
| Base58Decoder.MultiplyAdd | contracts/pubkey.token/include/pubkey_utils.hpp:49-58 | the inner loop multiplies the buffer by 58 and adds the digit; bytes beyond the used length stay zero |
| Base58Decoder.SkipZeros | contracts/pubkey.token/include/pubkey_utils.hpp:64-66 | the first non-zero byte |
| Base58Decoder.DecodeBase58 | contracts/pubkey.token/include/pubkey_utils.hpp:33-71 | succeeds iff the string is well formed and its value fits the buffer, which without trailing whitespace means that the size does not wrap; yields one zero byte per leading 1 and the minimal bytes of the value |

## Left out

- Host functions and cryptography: BLS decoding and proofs of possession, sha256, transaction authorization, set_finalizers and set_proposed_producers are parameters or logged calls. Whether the host rejects a policy with duplicate keys is not modelled.
- `name::suffix` and `is_account` are not part of this repository; the suffix is a fixed but arbitrary function of the name, and existing accounts are a set in the ledger.
- Authorization checks: they are preconditions, and custody accounts never sign transactions of their own.
- Serialization, memos, RAM payers, logging, ABI dispatch and deferred delivery: a mature refund may be claimed by anyone.
- Producer metadata (url, location, keys, reward_shared_ratio), voters' timestamps, and setparams, wasmcfg, setpriv, setalimits, buygas and similar wrappers.
- Builds without ENABLE_VOTING_PRODUCER or ENABLE_NAME_BID, in which the actions concerned do not exist or reject.
- Initialization of the contracts: every model starts from initialized, empty tables; the early return of newaccount before init is not modelled.
- The `votes` field of flon.reward's producer rows has no initializer in the source; a new row starts at 0.
- A missing lastpropfins row reads as the empty list; the source assigns `{}` to the optional cache and then dereferences it (finalizer_key.cpp:106-112).
- Which of several failing checks of one settlement loop reports first: the specification says only that the settlement is rejected.
- Vectors compared by `voteproducer` are distinct objects, so their iterators are never equal; their order is arbitrary.
- Widths of counters that cannot be exhausted: finalizer key ids and counts, block heights below 2^32 - 1, lengths of C strings below 2^31.
- The position of a stored block height in the previous block's id; the height is an argument.
- Election.ElectionTables.UpdateElectedProducers: the proposed schedule lists names without block signing authorities, and the slot of the update is recorded in `AuctionSpec.OnBlock` instead.
- Tokens that a producer sends while nobody votes for it stay allocating; the model has this behaviour, and the pro-rata results count no weight for such deposits.
- flon.boot, flon.bios, flon.wrap, the account actions of pubkey.token and the generic helper headers.
