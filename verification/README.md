# Verified model of the chain, the custodial bank and their algorithms

The repository runs a small proof-of-work chain with a gossip network, and beside it a custodial
bank: a double-entry ledger with a P2P market, transfers, on-chain withdrawals and deposits, and
recharges paid in cash. This project models both as state machines, proves what holds over every
run of them, models the services as classes that update fields and rows and proves each method
against the state machine, and proves the algorithms (decimals, fees, Merkle root, route of funds,
busiest time window, passport check digits) against specifications that do not mention their code.

`dafny verify dfyconfig.toml` checks everything. Every induction is written out; `{:induction false}`
keeps the verifier from adding its own.

## The parts

**The chain.** `crypto_util.dfy` and `domain.dfy` hold hashes, transactions, blocks and mining;
`blockchain.dfy` the node's store and `BlockchainService`; `p2p.dfy` the messages, one handler per
message, and `P2pService`. `gossip.dfy` is the network: nodes, open sockets and a pool of messages
in flight, delivered in any order, with the events mine, submit, deliver, connect, drop and
restart, each possible at any time. Its invariant says of every block a node has seen, and of
every height any node has, that each other node has reached it, is about to be told of it, or is
owed it by a pending exchange. From it follow safety and agreement on heights (`agreement.dfy`),
when the tips agree as well (`tips.dfy`), when transaction ids stay unique (`ids.dfy`), termination
of gossip (`quiescence.dfy`), that agreement holds exactly on full meshes (`topology.dfy`), and that
one announced block or transaction reaches everybody on any connected topology (`spread.dfy`).
`signatures.dfy` lets anybody put any message in flight and proves that nothing unsigned is stored or
passed on. `supply.dfy` is the conservation of money on one node.

**The bank.** `ledger.dfy` is double entry and holds, `fees.dfy` the quotes, `banking.dfy` every
table and every operation as a function that either gives the new tables or refuses. `custody.dfy`
states the invariant: each hold has exactly one owner (an order until it is taken, then its trade;
or a withdrawal) which says its account, amount and status; the ledger holds exactly the journals
the business rows call for; users can pay what is held; deposits and recharges match their
payments one to one. `custody_steps.dfy`, `custody_payments.dfy` and `custody_runs.dfy` prove it
over every run, `custody_books.dfy` draws the conclusions. `actors.dfy` says who brings a trade, an
order or a recharge request into each state, and when they succeed; `origins.dfy` the same for every
payment row, with the fee it pays. `withdrawals.dfy` is the withdrawal worker, stopped and restarted
between any two database writes, `outcomes.dfy` how the answers of wallet and chain decide its
outcomes, and `withdrawal_cycle.dfy` what one undisturbed cycle does to each row; `indexer.dfy` the deposit scanner
with its windows, failures and retries, `deposits.dfy` who is credited by it, and `stalls.dfy` when
its cursor moves; `idempotency.dfy` client requests whose lookup and transaction interleave, and
`answers.dfy` whose payment such a request is answered with.
`scenarios.dfy` holds runs from the empty bank that end where one might not expect it. `database.dfy`,
`market.dfy`, `payments.dfy`, `withdrawal_service.dfy`, `indexer_service.dfy` and `recharge.dfy` are
the services over mutable tables, each method proved to do what the function of the bank says, and
each that a client or a timer calls to keep the invariant.

**The algorithms.** `money.dfy`, `fees.dfy`, `recharge.dfy` (the price text), `crypto_util.dfy`
(the Merkle root), `analytics.dfy` and `tracing.dfy` (the transfer graph and the route of funds),
`risk.dfy` (the busiest window) and `mrz.dfy` (check digits, section 4.9 of ICAO Doc 9303 Part 3).

## What is assumed

- SHA-256 is ideal: a digest is a term recording what was hashed, and the number of its leading
  zeros and whether a signature verifies are unknown functions. The fields hashed together are
  taken as a record, not as one text joined by bars.
- Proof of work succeeds eventually: some nonce meets the target of every block that is mined.
- A message handler is atomic, and so is each database transaction and each method that loads,
  checks and saves one row; interleavings inside them are outside the model. The withdrawal worker,
  the scanner and the idempotent requests are the exceptions: their steps are separate.
- Amounts on the chain are integers, where the source uses doubles. Amounts in the bank are integers
  of 10^-18 units; the text arithmetic of the source is proved exact on them.
- Fee settings are not negative, as the settings registry enforces. Where a percentage must be at
  most one, the statement says so.
- One worker process: its `working` flag is a field of that process, so two processes could overlap.

## Findings

Places where the code does less than its comments promise, each with its exact condition:

- Heights agree once nothing is in flight, tips need not: two nodes that mine at the same height
  ignore each other's block (`Agreement.TipsMayDiffer`). The tips agree exactly if only one block was
  ever mined at the greatest height (`Tips.TipsAgreeExactlyWhen`).
- A chain that is adopted is not passed on (src/p2p/p2p.service.ts:179-186), so agreement needs every
  pair of nodes connected: exactly then (`Topology.AgreementExactlyOnMesh`).
- The node's audit of its own chain does not look at the stored Merkle root, at the first block's
  proof, or at the indices. So a false root stored in any block passes
  (`Blockchain.AuditMissesFalseRoot`), a first block that misses its target
  (`Blockchain.AuditMissesFirstProof`), and a chain whose first blocks were cut off
  (`Blockchain.AuditMissesCutChain`). `Blockchain.AuditAgainstNetworkCheck` says that this is the whole
  difference from the check on received chains.
- The Merkle root does not commit to the list of transactions, since the last node of an odd level is
  doubled: an odd list agrees with the same list and its last hash again, and six hashes agree with
  those six and the last two again (`CryptoUtil.SixAndEightAgree`). Two lists have one root exactly if
  they agree once padded, level by level, to a power of two
  (`CryptoUtil.RootsAgreeExactlyWhenPaddingAgrees`), so lists of one length agree only if they are equal.
- No hash covers the id of a transaction, though rows are stored under it: a valid chain stays valid,
  with the same hashes, when any id in it is exchanged for any other (`Blockchain.IdsAreNotHashed`), and
  a node accepts a block with an id it already has (`TransactionIds.RepeatedIdIsAccepted`). It happens
  among honest nodes that make up only new ids, if two of them mine transactions, and then blocks, that
  differ in their ids alone (`TransactionIds.IdCanRepeat`). If no two different blocks are mined with
  one hash, no chain has an id twice (`TransactionIds.IdsOccurOnce`).
- A retry under the key of a committed payment may still be refused: two copies of one transfer that
  spends everything are both looked up, then both committed (`Scenarios.RetryCanBeRefused`). A retry
  looked up after the commit is answered with the payment exactly if it is well formed; one that was
  past its lookup exactly if funds and limits still pass at its commit
  (`Idempotency.RetryIsAnsweredExactlyWhen`).
- A transfer under key `k` also takes the key `k:in` of its recipient, whose own request under that
  key is answered with the mirror row and does nothing (`Scenarios.MirrorAnswersRequest`). Over any run,
  and whether a request is answered by its lookup or by its commit, the payment is of its own kind
  exactly if no transaction committed before had taken its key for something else: a transfer to this
  user under the key without `:in`, another kind of request of this user under the key, or a deposit or
  recharge of this user with this reserved key (`Answers.AnswerIsOwnKindExactlyWhen`). A key that does
  not end in `:in` nor start with `deposit:` or `recharge:` can only be taken by the user's own requests
  (`Answers.PlainKeysAreIntrudedExactlyWhen`).
- The other way round, a recipient who has used the key `k:in` makes a transfer under `k` fail, though
  funds and key are there (`Scenarios.UsedMirrorKeyRefusesTransfer`): a transfer commits exactly if it is
  admissible and both keys are free (`Answers.TransferCommitsExactlyWhen`).
- A withdrawal whose sending succeeded is refunded if the database fails on the very next save
  (`Withdrawals.RefundAfterSending`, from the empty bank `Scenarios.SentAndRefunded`); this and a wallet
  that throws after sending are the only ways (`Withdrawals.WithdrawalsAreSafe`).
- Deposit credits use the idempotency key `deposit:<network>:<hash>:<index>` in the user's own key
  space. If that user already has a payment under that key, the deposit is passed over for good
  (`Indexer.TakenKeySkipsDeposit`, from the empty bank `Scenarios.DepositKeyCanBeTaken`); it is credited
  exactly when that is not so and the fee leaves something (`Indexer.CreditedExactlyWhen`).
- A transfer that the fee eats up, such as one of zero (`Stalls.NothingIsAlwaysEaten`), stops the
  scanner. A scan moves the cursor exactly if it has a window, is not interrupted, and every transfer
  of the window was settled before or leaves something after the fee (`Stalls.ScanMovesExactlyWhen`);
  while one does not, no run moves the cursor past it (`Stalls.EatenTransferStalls`).
- A trade whose amount does not exceed the minimum fee cannot be released, by its seller or by a
  resolved dispute: the journal would pay the buyer nothing and is refused. A release goes through
  exactly if the minimum fee is less than the amount and the rate less than one
  (`Actors.ReleaseSucceedsExactlyWhen`); what is left is a refund. Recharges fail to confirm in the same
  way (`Actors.RequestsChangeExactlyAsNamed`).
- Edges of the transfer graph are filed under the text `from->to`. A recipient is free text; a sender
  must verify as a public key, but the hexadecimal decoder passes over characters that are neither
  letters nor digits, so a key with an arrow appended verifies too. Two pairs may then share a key, and
  the later one is missing from the graph (`Analytics.SharedKeyHidesTransfer`, for every key and
  recipient). The graph is complete exactly if no two pairs share a key
  (`Analytics.EdgesCompleteExactlyWhenKeysSeparate`).
- Letters count modulo 10 in passport check digits: a misread character goes unnoticed exactly when
  its value agrees modulo 10, two swapped neighbours exactly when theirs agree modulo 5
  (`Mrz.OneCharacterChanged`, `Mrz.NeighboursSwapped`).

## Model

| member | source | states |
|---|---|---|
| CryptoUtil.ComputeMerkleRoot | src/common/crypto.util.ts:67-80 | the nested loops compute the root of the recursively defined tree, an empty list giving its own constant |
| CryptoUtil.NextLevel | src/common/crypto.util.ts:71-77 | one pass turns a level into its parents |
| CryptoUtil.ParentsAt | src/common/crypto.util.ts:71-77 | node k of the next level hashes nodes 2k and 2k+1, the last standing in for a missing one |
| CryptoUtil.MerkleRootInjective | src/common/crypto.util.ts:67-80 | equal roots of lists of one length mean equal lists, whatever the hashes |
| CryptoUtil.MerkleRootDuplicatesLast | src/common/crypto.util.ts:74 | an odd list and the same list with its last hash repeated have one root, whatever the hashes |
| CryptoUtil.RootsAgreeExactlyWhenPaddingAgrees | src/common/crypto.util.ts:67-80 | two lists of transaction hashes have one root exactly if doubling the last node level by level pads them to one list |
| CryptoUtil.PaddedExtends | src/common/crypto.util.ts:71-77 | the padded list is the list followed by some of its own hashes, and as long as a power of two |
| CryptoUtil.SixAndEightAgree | src/common/crypto.util.ts:74 | even lists collide too: six hashes, and the same six with the last two again |
| Domain.Mine | src/blockchain/domain/block.ts:36-45 | ends with the least nonce whose hash meets the target and changes nothing else |
| Blockchain.BlockchainService.constructor | src/blockchain/blockchain.service.ts:63-91 | an empty node starts with the mined genesis block alone |
| Blockchain.GenesisIsUnique | src/blockchain/blockchain.service.ts:58-91 | all nodes with one configuration create the same genesis block, nonce included |
| Blockchain.GenesisIsValid | src/blockchain/blockchain.service.ts:63-91 | the genesis block is a valid, honest chain of length one |
| Blockchain.BlockchainService.CheckBlock | src/blockchain/blockchain.service.ts:485-490 | accepts exactly the blocks that equal their own rebuilding, meet their target and carry valid transactions |
| Blockchain.BlockchainService.ValidateChainSnapshots | src/blockchain/blockchain.service.ts:481-493 | true exactly if the first index is 0, every block is valid and every link matches |
| Blockchain.RebuildAllIsIdentity | src/blockchain/blockchain.service.ts:446-455 | storing the rebuilt blocks of a chain that passed the check stores the chain itself |
| Blockchain.IdsAreNotHashed | src/blockchain/domain/transaction.ts:29-33 | exchanging any transaction id in a valid chain leaves the chain valid and its hashes the same |
| Blockchain.TipCommitsToChain | src/blockchain/domain/block.ts:20-28 | two valid chains of one length and one tip hash agree on every header, on the padded transaction hashes of every block, and on the hashes themselves where they are equally many |
| Blockchain.HonestChainGrows | src/blockchain/blockchain.service.ts:397-426 | a valid, linked block with the next index keeps consecutive indices and the common genesis |
| Blockchain.BlockchainService.ValidateChain | src/blockchain/blockchain.service.ts:274-320 | reports exactly the listed faults of every stored block, and valid exactly if there are none |
| Blockchain.NoErrorsMeansAudited | src/blockchain/blockchain.service.ts:302-316 | an empty list of faults means that every block passed |
| Blockchain.FaultsAreNamed | src/blockchain/blockchain.service.ts:279-320 | the audit reports a fault under a name and an index exactly if a block claiming that index has that fault, with the hash and root computed anew |
| Blockchain.AuditAgainstNetworkCheck | src/blockchain/blockchain.service.ts:274-320 | a chain passes the network check exactly if it passes the audit, starts at index 0, and has true Merkle roots and a proof at index 0 |
| Blockchain.AuditMissesFalseRoot | src/blockchain/blockchain.service.ts:302-316 | a false Merkle root stored in any block of any valid chain passes the audit and fails the check on received chains |
| Blockchain.AuditMissesFirstProof | src/blockchain/blockchain.service.ts:302-316 | any first block that misses its own target passes the audit and fails the check on received chains |
| Blockchain.AuditMissesCutChain | src/blockchain/blockchain.service.ts:302-316 | any honest chain with its first blocks cut off passes the audit and fails the check on received chains |
| Blockchain.AuditDetectsTampering | src/blockchain/blockchain.service.ts:302-315 | two audited chains of one length and tip hash agree on the padded transaction hashes of every block, and on the hashes themselves where they are equally many |
| Blockchain.BlockchainService.AppendExternalBlock | src/blockchain/blockchain.service.ts:397-426 | every branch and its effect on chain and mempool |
| Blockchain.BlockchainService.ReplaceChain | src/blockchain/blockchain.service.ts:432-463 | replaces by a strictly longer valid chain only, and keeps the pending transactions it does not contain |
| Blockchain.BlockchainService.AddExternalTransaction | src/blockchain/blockchain.service.ts:466-477 | adds a valid transaction with an unknown id, and nothing else |
| Blockchain.BlockchainService.ComputeBalance | src/blockchain/blockchain.service.ts:151-167 | the loop over rows is the sum of their effects: received once mined, spent at once |
| Blockchain.BlockchainService.SubmitTransaction | src/blockchain/blockchain.service.ts:171-197 | accepted exactly if valid and covered by the available balance |
| Blockchain.BlockchainService.GetPending | src/blockchain/blockchain.service.ts:122-124 | a reordering of the mempool by time |
| Blockchain.InsertByTimeSorts | src/blockchain/blockchain.service.ts:122-124 | sorting by time loses and repeats nothing |
| Blockchain.BlockchainService.MinePending | src/blockchain/blockchain.service.ts:206-270 | mines the whole mempool with one coinbase of reward plus fees, or nothing exactly if one pending transaction is invalid |
| Signatures.SubmittedExactlyWhen | src/blockchain/blockchain.service.ts:171-197 | a submission is accepted exactly if its sender signed recipient, amount, fee and time, the amount is positive, the fee not negative, the recipient another, and the sender has the funds; then it is the last pending one |
| Signatures.AddedExactlyWhen | src/blockchain/blockchain.service.ts:466-477 | a transaction from the network is added exactly if it is signed or a coinbase and its id is in no mempool row and no block |
| Signatures.AcceptedExactlyWhen | src/blockchain/blockchain.service.ts:397-426 | a block is appended exactly if it has the next index, the hash of the tip, the root of its own transactions, the hash of its own header, enough zeros, and signed transactions; exactly the pending ones whose id it has go |
| Signatures.ReplacedExactlyWhen | src/blockchain/blockchain.service.ts:432-463 | a chain replaces exactly if it is longer, starts at index 0, is linked, and each block is sound in the same sense; exactly the pending ones whose id it has go |
| Signatures.HashFixesFields | src/blockchain/domain/transaction.ts:29-33 | equal hashes of two transactions with senders mean that they differ in id and signature at most |
| Signatures.EverythingStoredIsSigned | src/blockchain/domain/transaction.ts:51-57 | over any run in which anybody puts any messages in flight, what is in a mempool or on a chain is signed, and so is what is in flight, unless that very message was forged |
| Signatures.NothingFromKeylessAddresses | src/common/crypto.util.ts:53-60 | so nothing from an address for which no signature verifies is ever stored, or sent by a node |
| Signatures.KeylessBalanceNeverFalls | src/blockchain/blockchain.service.ts:151-270 | at no point of any run of a standalone node does the confirmed balance of such an address fall |
| Blockchain.MiningCandidate | src/blockchain/blockchain.service.ts:222-244 | what the miner builds is a block on the tip as the invariants describe it |
| Blockchain.SameMembersSameValidity | src/blockchain/blockchain.service.ts:232-242 | the coinbase and the order of the pending transactions do not matter to validity |
| P2p.Broadcast | src/p2p/p2p.service.ts:232-237 | messages to exactly the open sockets but the excluded one, never more than there are sockets |
| P2p.P2pService.RegisterSocket | src/p2p/p2p.service.ts:114-125 | a new socket is told this node's height |
| P2p.P2pService.HandleMessage | src/p2p/p2p.service.ts:130-169 | the fields and the messages after one delivery are those of the handler function that the network model uses |
| P2p.P2pService.OnChain | src/p2p/p2p.service.ts:179-186 | only a replacement marks the blocks as seen, and nothing is passed on |
| P2p.P2pService.OnNewBlock | src/p2p/p2p.service.ts:188-200 | seen blocks are dropped, accepted ones relayed, gaps and forks answered with a request for the chain |
| P2p.P2pService.OnNewTransaction | src/p2p/p2p.service.ts:202-210 | seen transactions are dropped, added ones relayed |
| P2p.P2pService.OnLocalBlockMined | src/p2p/p2p.service.ts:215-218 | marked as seen and sent to every peer |
| P2p.P2pService.OnLocalTxAdded | src/p2p/p2p.service.ts:221-224 | marked as seen and sent to every peer |
| Gossip.HandleHonest | src/p2p/p2p.service.ts:130-210 | no delivery lowers a height or makes a chain dishonest |
| Gossip.NewlySeenIsOwed | src/p2p/p2p.service.ts:188-200 | a block that becomes seen is on the node's chain by height, or the chain was asked for |
| Gossip.DeliverKeepsCoverage | src/p2p/p2p.service.ts:130-218 | a delivery hands the debt of a height on to its answer, or settles it |
| Gossip.MinedBlockIsCovered | src/p2p/p2p.service.ts:215-218 | a mined block is announced to each peer, or owed to it |
| Gossip.NextKeepsInv | src/p2p/p2p.service.ts:114-237 | every event keeps the network invariant |
| Gossip.RunKeepsInv | src/p2p/p2p.service.ts:114-237 | every run keeps it |
| Agreement.ChainsAreHonest | src/blockchain/blockchain.service.ts:397-501 | in any run every chain, stored or in flight, has the common genesis, consecutive indices, linked hashes, valid proofs and transactions |
| Agreement.HeightsNeverDecrease | src/blockchain/blockchain.service.ts:432-437 | no node's height ever decreases |
| Agreement.TopIsGreatestMined | src/blockchain/blockchain.service.ts:206-270 | the bookkeeping of the model's top height is the greatest height ever mined |
| Agreement.AgreementAtQuiescence | src/p2p/p2p.service.ts:171-218 | in a full mesh with no chain message in flight every node has the greatest height ever mined |
| Agreement.SameTipSameHeaders | src/blockchain/domain/block.ts:24-28 | honest nodes with one tip hash hold headers equal in every field at every height |
| Agreement.TipsMayDiffer | src/blockchain/blockchain.service.ts:401-404 | a run of two connected nodes that ends quiet with two different tips |
| Tips.OnlyMinedBlocks | src/p2p/p2p.service.ts:179-218 | every block stored or in flight was there at the start or was mined in the run |
| Tips.TopChainStays | src/blockchain/blockchain.service.ts:397-437 | a chain of the greatest height ever mined is never replaced or extended |
| Tips.TopMinerKeepsTip | src/blockchain/blockchain.service.ts:397-437 | who mines at the greatest height keeps that block as tip to the end of the run |
| Tips.TipsAgreeExactlyWhen | src/blockchain/blockchain.service.ts:397-437 | in a full mesh with no chain message in flight all tips are one block exactly if all blocks mined at the greatest height are one block |
| TransactionIds.NoIdTwiceAppend | src/blockchain/blockchain.service.ts:397-426 | one more block leaves every id once exactly if the chain had every id once and the block repeats none, its own or the chain's |
| TransactionIds.RepeatedIdIsAccepted | src/blockchain/blockchain.service.ts:397-426 | any id in an acceptable block exchanged for any id of the chain: the block is accepted and the chain has that id twice |
| TransactionIds.IdsOccurOnce | src/blockchain/domain/transaction.ts:13-27 | over any legal run in which nodes make up only ids they do not have and no two different blocks are mined with one hash, no chain has an id twice |
| TransactionIds.IdCanRepeat | src/blockchain/domain/transaction.ts:29-33 | a legal run, with new ids only, that ends with one transaction in two blocks of a chain |
| Quiescence.DeliveryLowersMeasure | src/p2p/p2p.service.ts:130-237 | every delivery lowers the measure of unseen hashes and weighted messages |
| Quiescence.GossipTerminates | src/p2p/p2p.service.ts:130-237 | no run of deliveries is longer than the measure of its start, honest messages or not |
| Quiescence.GossipGoesQuiet | src/p2p/p2p.service.ts:130-237 | every reachable network can be run until nothing is in flight |
| Quiescence.BlockRelayedOnce | src/p2p/p2p.service.ts:188-195 | between restarts a node relays a block hash at most once, and never one it had seen |
| Quiescence.TxRelayedOnce | src/p2p/p2p.service.ts:202-209 | the same for transaction ids |
| Quiescence.ChainBlocksAreSeen | src/p2p/p2p.service.ts:179-218 | until it restarts, a node counts every block of its chain but the first as seen, so it never relays one that it got with a whole chain |
| Topology.NoAgreementWithoutMesh | src/p2p/p2p.service.ts:179-186 | for every missing edge, a run that ends quiet with different heights |
| Topology.AgreementExactlyOnMesh | src/p2p/p2p.service.ts:179-186 | all quiet runs on a topology agree exactly if it is complete |
| Spread.MinedBlockReachesEverybody | src/p2p/p2p.service.ts:188-218 | from any reachable network that is quiet, connected and agreed on one chain: after one block is mined and only messages are delivered and transactions submitted, once quiet again every chain is that chain and that block |
| Spread.SubmittedTransactionReachesEverybody | src/p2p/p2p.service.ts:202-224 | in a connected network with nothing in flight: after one submission of a transaction nobody knows, once nothing is in flight again every mempool has grown by exactly that transaction and no chain has changed |
| Supply.SubmitKeepsSolvent | src/blockchain/blockchain.service.ts:185-191 | an accepted submission leaves every available balance at zero or more |
| Supply.MineKeepsSolvent | src/blockchain/blockchain.service.ts:206-265 | and so does mining |
| Supply.PendingMovesOnlyTheSender | src/blockchain/blockchain.service.ts:151-167 | a pending transaction is spent by its sender at once, with its fee, and received by nobody yet |
| Supply.MinedBlockMovesBoth | src/blockchain/blockchain.service.ts:151-167 | a mined block pays the receivers and charges the senders of all its transactions |
| Supply.BalancesSumToIssued | src/blockchain/blockchain.service.ts:151-167 | the confirmed balances of a complete list of addresses add up to coinbases less fees |
| Supply.SupplyIsPremineAndRewards | src/blockchain/blockchain.service.ts:151-270 | after any run they add up to the premine plus one reward a mined block, and nobody is overdrawn |
| Money.ToBaseFromBase | src/common/money.util.ts:8-24 | printing then reading gives back every integer |
| Money.FromBaseIsCanonical | src/common/money.util.ts:18-24 | what is printed has no needless zero, no minus zero and at most 18 decimals |
| Money.CanonicalRoundTrip | src/common/money.util.ts:8-24 | reading then printing gives back every canonical text |
| Money.ToBaseTruncates | src/common/money.util.ts:8-16 | reading keeps 18 decimals of the exact value and drops the rest towards zero |
| Money.StringArithmeticIsExact | src/common/money.util.ts:26-38 | sums, differences and comparisons of texts are those of the integers |
| Fees.PercentTextIsExact | src/fees/fee.service.ts:68-76 | the fee computed on texts is the fee computed on integers |
| Fees.PercentIsFee | src/fees/fee.service.ts:67-76 | the fee is at most the amount, at least the minimum or the whole amount, above the minimum within the rate, and no smaller than any whole share within the rate |
| Fees.OneFee | src/fees/fee.service.ts:67-76 | only one number is that fee |
| Fees.FeeIsLargestShare | src/fees/fee.service.ts:67-76 | above the minimum, at a rate of at most one, the fee is the largest whole share within the rate |
| Fees.FeeBelowAmount | src/fees/fee.service.ts:67-76 | the fee leaves something exactly if the minimum is less than the amount and the rate less than one |
| Fees.P2pFee | src/fees/fee.service.ts:79-88 | trades pay that fee at the rate for trades, out of the amount |
| Fees.DepositFee | src/fees/fee.service.ts:91-100 | deposits and recharges pay it at the rate for deposits, out of the amount |
| Fees.WithdrawFee | src/fees/fee.service.ts:103-114 | withdrawals pay it at the rate for withdrawals and the network fee, both on top |
| Fees.FeeWithinAmount | src/fees/fee.service.ts:79-100 | for any rate the fee lies between zero and the amount, and net plus fee is the amount |
| Fees.WithdrawalCost | src/fees/fee.service.ts:103-114 | a withdrawal costs the amount plus both fees, the platform's at most the amount |
| Fees.NetNeverFalls | src/fees/fee.service.ts:68-100 | sending more never leaves the receiver with less |
| Fees.SplittingSavesNothing | src/fees/fee.service.ts:68-76 | splitting an amount in two saves at most one base unit of fee |
| Ledger.BalanceAfterPost | src/ledger/ledger.service.ts:57-68 | a journal changes a balance by the effect of its legs |
| Ledger.LegsOfAfterPost | src/ledger/ledger.service.ts:100-125 | posting adds the legs to its own journal and to no other |
| Ledger.TotalAfterPost | src/ledger/ledger.service.ts:100-125 | posting changes an asset's total by credits less debits |
| Ledger.BalancesAddUpToTotal | src/ledger/ledger.service.ts:57-68 | the balances of all accounts of an asset add up to its total |
| Ledger.HeldUpdate | src/ledger/ledger.service.ts:71-80 | changing one hold changes what is held by exactly that hold |
| DatabaseRows.LedgerService.AvailableOf | src/ledger/ledger.service.ts:82-88 | the most that can still be held: one more hold is covered by the balance exactly up to this amount |
| DatabaseRows.LedgerService.PostJournal | src/ledger/ledger.service.ts:100-125 | accepts exactly two or more positive legs with equal sides, then inserts all of them; otherwise nothing |
| DatabaseRows.LedgerService.CreateHold | src/ledger/ledger.service.ts:129-146 | adds one active hold |
| DatabaseRows.LedgerService.SetHoldStatus | src/ledger/ledger.service.ts:148-154 | overwrites the status whatever it was |
| Custody.HoldSettled | src/ledger/ledger.service.ts:148-154 | ending a hold by its one owner keeps the ownership of all holds |
| CustodySteps.OrderTaken | src/marketplace/p2p-market.service.ts:192-243 | taking an order passes its hold to the trade, or makes one, and keeps the invariant |
| CustodySteps.TradeReleased | src/marketplace/p2p-market.service.ts:246-308 | releasing a live trade commits its hold, posts one journal and keeps the invariant |
| CustodySteps.TradeRefunded | src/marketplace/p2p-market.service.ts:311-326 | refunding a live trade releases its hold and keeps the invariant |
| CustodyPayments.TransferKeeps | src/payments/payments.service.ts:127-201 | a transfer keeps the invariant |
| CustodyPayments.WithdrawalRequested | src/withdrawals/withdrawals.service.ts:213-263 | a request with its hold keeps the invariant |
| CustodyPayments.WithdrawalCompleted | src/withdrawals/withdrawals.service.ts:355-395 | completing a processing withdrawal keeps the invariant |
| CustodyPayments.WithdrawalFailed | src/withdrawals/withdrawals.service.ts:399-412 | failing a processing withdrawal keeps the invariant |
| CustodyPayments.WithdrawalJournalAccepted | src/withdrawals/withdrawals.service.ts:370-388 | the journal of a completed withdrawal is never refused |
| CustodyPayments.EntryJournalAccepted | src/ledger/ledger.service.ts:100-111 | the journal of money entering is accepted exactly if the fee is less than the amount |
| CustodyPayments.ReleaseJournalAccepted | src/ledger/ledger.service.ts:100-111 | the journal of a released trade is accepted exactly if the fee is less than the amount |
| CustodyPayments.DepositKeeps | src/indexer/deposit-indexer.service.ts:317-395 | crediting a deposit keeps the invariant |
| CustodyPayments.ConfirmKeeps | src/recharge/recharge.service.ts:162-241 | confirming a recharge keeps the invariant |
| CustodyRuns.ActionKeepsInv | src/ledger/ledger.service.ts:100-154 | every operation of market, payments, withdrawals, deposits and recharges keeps it |
| CustodyRuns.RunKeepsInv | src/ledger/ledger.service.ts:100-154 | every run keeps it |
| CustodyBooks.MoneyIsConserved | src/ledger/ledger.service.ts:100-125 | over any run the balances of an asset sum to zero, custody owes gross deposits and recharges less completed withdrawals, the treasury holds the fees, the issuer owes the test credits |
| CustodyBooks.UsersCoverTheirObligations | src/ledger/ledger.service.ts:71-88 | over any run what is held is the sum of live obligations and at most the balance |
| CustodyBooks.EveryHoldHasOneOwner | src/ledger/ledger.service.ts:129-154 | over any run each hold has exactly one owner with its account, amount and status |
| CustodyBooks.EscrowIsSpentOnce | src/marketplace/p2p-market.service.ts:246-326 | a trade's escrow is committed with one journal if completed, released with none if cancelled or expired, active until then; buyer and seller differ |
| CustodyBooks.ActionOnTrade | src/marketplace/p2p-market.service.ts:246-538 | an operation that changes a trade lowers its remaining steps |
| CustodyBooks.TradesAreFinite | src/marketplace/p2p-market.service.ts:192-538 | no run changes a trade more often than its remaining steps, five after creation and none once finished |
| Actors.TradesChangeExactlyAsNamed | src/marketplace/p2p-market.service.ts:246-538 | for every operation by anybody, the whole row of any trade after it: completed exactly by its seller while pending or paid, or by a dispute decided for the buyer, if the fee leaves something; paid exactly by the buyer; cancelled exactly by a party while pending, or by a dispute decided for the seller; disputed exactly by a party or the timeout worker; expired exactly by the timeout worker; postponed exactly by a party, at most twice; otherwise untouched |
| Actors.TradesTurnByTheirActors | src/marketplace/p2p-market.service.ts:192-538 | over any run each trade was made by somebody taking an open order of another, and is where it is by the operation of such an actor |
| Actors.OrdersChangeExactlyAsNamed | src/marketplace/p2p-market.service.ts:175-220 | an order is taken exactly by somebody else while open, cancelled exactly by its maker while open, and otherwise untouched |
| Actors.RowsAppearExactlyAsNamed | src/marketplace/p2p-market.service.ts:106-243 | when exactly an order or a trade appears, and its row: price within the band, funds for what is sold, who buys and who sells, payment due in a quarter of an hour |
| Actors.ReleaseSucceedsExactlyWhen | src/marketplace/p2p-market.service.ts:262-306 | a release goes through exactly if the fee leaves something; it completes that trade at the fee of the rate for trades and touches no other |
| Actors.RequestsChangeExactlyAsNamed | src/recharge/recharge.service.ts:94-241 | a recharge request is claimed exactly by somebody else while pending, shown paid exactly by its owner while claimed, cancelled exactly by its owner before that, confirmed exactly by the one who claimed it, and otherwise untouched |
| Actors.RequestsAppearExactlyAsNamed | src/recharge/recharge.service.ts:66-87 | when exactly a recharge request appears, and its row |
| Origins.PaymentsCommitExactlyWhen | src/payments/payments.service.ts:74-206 | when exactly credit, transfer, withdrawal request, deposit and the steps of the worker go through, in terms of the tables and the fee |
| Origins.RowsOpenExactlyAsNamed | src/payments/payments.service.ts:74-206 | how many payment rows each operation adds, what they hold, and that old rows keep everything but the stage and status of a withdrawal |
| Origins.EveryPaymentWasAskedFor | src/payments/payments.service.ts:74-206 | over any run each payment row was made by the one operation of its owner, or by the transfer or deposit to him, that it says |
| Origins.FeesOfPayments | src/withdrawals/withdrawals.service.ts:355-388 | over any run the journal of each payment, leg by leg: deposits, recharges and completed withdrawals with the fee leg that their own rate gave |
| Origins.FeesOfTrades | src/marketplace/p2p-market.service.ts:262-306 | over any run the journal of each trade, leg by leg: what the seller gave, the buyer got and the treasury took, at the rate for trades when it was released |
| Market.P2pMarketService.CreateOrder | src/marketplace/p2p-market.service.ts:106-150 | does what the bank's operation says, or throws and changes nothing; keeps the invariant of the bank, as does every method of the services that a client or a timer calls |
| Market.P2pMarketService.CancelOrder | src/marketplace/p2p-market.service.ts:175-190 | the same for cancelling an open order |
| Market.P2pMarketService.TakeOrder | src/marketplace/p2p-market.service.ts:192-243 | the same for taking one |
| Market.P2pMarketService.Release | src/marketplace/p2p-market.service.ts:262-306 | commit, journal and trade row together, or none of them |
| Market.P2pMarketService.ConfirmTrade | src/marketplace/p2p-market.service.ts:246-308 | only the seller of a waiting trade, then a release |
| Market.P2pMarketService.CancelTrade | src/marketplace/p2p-market.service.ts:311-326 | only a party of an unpaid trade, then a refund |
| Market.P2pMarketService.MarkPaid | src/marketplace/p2p-market.service.ts:329-344 | only the buyer of an unpaid trade; starts the release deadline |
| Market.P2pMarketService.ExtendTrade | src/marketplace/p2p-market.service.ts:347-380 | at most two extensions, from the later of deadline and now |
| Market.P2pMarketService.OpenDispute | src/marketplace/p2p-market.service.ts:383-397 | only a party of a waiting trade |
| Market.P2pMarketService.ResolveDispute | src/marketplace/p2p-market.service.ts:400-468 | release or refund of a disputed trade only |
| Market.P2pMarketService.SweepTimeouts | src/marketplace/p2p-market.service.ts:486-538 | two loops over at most a batch of overdue trades; nothing while another sweep runs |
| Market.SweepSettlesOverdueTrades | src/marketplace/p2p-market.service.ts:486-538 | after a sweep of less than a batch no trade is waiting past its deadline, each is refunded or disputed as the rules say, and no other trade changes status |
| Payments.PaymentsService.Credit | src/payments/payments.service.ts:74-119 | one request in a row: an earlier payment under the key is returned, else one is made |
| Payments.PaymentsService.CommitCredit | src/payments/payments.service.ts:90-118 | the transaction after the lookup, including the second look after a unique violation |
| Payments.PaymentsService.Transfer | src/payments/payments.service.ts:127-201 | one request in a row, self-transfers refused |
| Payments.PaymentsService.CommitTransfer | src/payments/payments.service.ts:153-201 | both rows and the journal, or on a unique violation none of them and the payment already there |
| Idempotency.AnswerUnderTakenKey | src/payments/payments.service.ts:208-223 | a request whose key is taken is answered with the payment under it, at its lookup exactly if well formed, at its commit exactly if the checks before the insert pass; otherwise refused |
| Origins.AdmissibleExactlyWhen | src/payments/payments.service.ts:152-175 | the checks before the first insert pass exactly if the request would be carried out under some key |
| Origins.WellFormedExactlyWhen | src/payments/payments.service.ts:133-150 | the checks before the lookup pass exactly if some such request would be carried out in some bank |
| Idempotency.OnlyFirstCommitsMatter | src/payments/payments.service.ts:208-224 | a run of interleaved and repeated requests ends in the bank of the list that keeps, of all transactions with one user and key, only the first to commit |
| Idempotency.KeptCommitOnce | src/database/entities/payment.entity.ts:27 | in that list no two transactions share user and key, and each of them commits where it stands |
| Idempotency.OneCommitPerKey | src/database/entities/payment.entity.ts:27 | of the transactions with one user and key only the first commits |
| Idempotency.RetriesReturnTheSamePayment | src/payments/payments.service.ts:208-224 | requests with one user and key that return, return the one payment under it |
| Idempotency.RetryIsAnsweredExactlyWhen | src/payments/payments.service.ts:153-223 | over any run, what a retry of an answered request ends with: that payment, or refused, by when it was looked up and whether the checks still pass |
| Answers.AnswerIsOwnKindExactlyWhen | src/payments/payments.service.ts:182-224 | over any run, for answers given at the lookup and at the commit: the payment is of the request's own kind exactly if no transaction committed before took the key for something else, and a mirror row exactly if a transfer to this user under the key without ":in" did |
| Answers.PlainKeysAreIntrudedExactlyWhen | src/payments/payments.service.ts:182-184 | a key that is not reserved and does not end in ":in" is taken for something else exactly if the user's own request of another kind took it |
| Answers.TransferCommitsExactlyWhen | src/payments/payments.service.ts:153-201 | a transfer commits exactly if its checks pass and both its key and its recipient's key with ":in" are free |
| Answers.FreshTransferIsAnsweredExactlyWhen | src/payments/payments.service.ts:215-222 | under a free key of its own a transfer is carried out exactly if its checks pass and its recipient's key is free, and is refused otherwise |
| Scenarios.RetryCanBeRefused | src/payments/payments.service.ts:153-161 | a run in which the copy of a committed transfer is refused |
| Scenarios.MirrorAnswersRequest | src/payments/payments.service.ts:182-195 | a run in which a request is answered with the mirror row of somebody else's transfer |
| Scenarios.UsedMirrorKeyRefusesTransfer | src/payments/payments.service.ts:182-224 | a run in which a transfer with funds and a new key is refused because its recipient has used the key of the mirror row |
| Withdrawals.PendingRows | src/withdrawals/withdrawals.service.ts:292-300 | at most twenty rows of one stage, oldest first, as stored |
| Withdrawals.OldestAreListed | src/withdrawals/withdrawals.service.ts:292-300 | no row of the stage is passed over: it is listed, or the list is full of older ones |
| Withdrawals.StepIsGuarded | src/withdrawals/withdrawals.service.ts:303-412 | each unchecked write of the worker meets the row it means and is one of the bank's guarded operations |
| Withdrawals.NextKeepsWorkerInv | src/withdrawals/withdrawals.service.ts:280-412 | steps, crashes and other operations keep the worker's memory true |
| Withdrawals.WithdrawalsAreSafe | src/withdrawals/withdrawals.service.ts:280-412 | at most one sendToken a payment; processing, completed and failed match the hold and the journal; a failed one was sent exactly if recording the sending failed |
| Withdrawals.CompletionIsNotRefused | src/withdrawals/withdrawals.service.ts:355-396 | a confirmed withdrawal does complete |
| Withdrawals.RefundAfterSending | src/withdrawals/withdrawals.service.ts:312-322 | a failed save after sending refunds what was sent |
| Outcomes.OutcomesFollowAnswers | src/withdrawals/withdrawals.service.ts:303-352 | over any run: completed only after the chain confirmed it while it was the row in hand; failed, once its hash was recorded, only after the chain reverted it, and before that only after the wallet threw or the record failed; the recorded hash is what the wallet returned |
| Outcomes.ConfirmationIsFollowed | src/withdrawals/withdrawals.service.ts:342-344 | if the chain confirms the row in hand, the next tick completes it and goes on |
| Outcomes.ReversalIsFollowed | src/withdrawals/withdrawals.service.ts:345-348 | if the chain reverted the row in hand, the next tick fails it and goes on |
| WithdrawalCycle.EmissionOutcome | src/withdrawals/withdrawals.service.ts:303-324 | row by row after an undisturbed emission: sent with the wallet's hash, or failed with its hold released and nothing posted; rows not listed are untouched |
| WithdrawalCycle.ReconciliationOutcome | src/withdrawals/withdrawals.service.ts:327-352 | row by row after an undisturbed reconciliation: completed with its hold committed and one journal if the chain confirmed it, failed with its hold released and nothing posted if it reverted it, untouched otherwise |
| Scenarios.SentAndRefunded | src/withdrawals/withdrawals.service.ts:303-322 | a run from the empty bank that ends with the tokens sent and the user's funds back |
| WithdrawalService.WithdrawalsService.Request | src/withdrawals/withdrawals.service.ts:187-276 | one request in a row, for the two withdrawable assets |
| WithdrawalService.WithdrawalsService.CommitRequest | src/withdrawals/withdrawals.service.ts:218-276 | payment row and hold of the total, or nothing |
| WithdrawalService.WithdrawalsService.Complete | src/withdrawals/withdrawals.service.ts:355-396 | commit, journal and row together, or none of them |
| WithdrawalService.WithdrawalsService.FailAndRefund | src/withdrawals/withdrawals.service.ts:399-412 | releases the hold and marks the row failed |
| WithdrawalService.WithdrawalsService.ProcessPending | src/withdrawals/withdrawals.service.ts:303-324 | the loop emits each pending row of the batch as the row-by-row outcome says, refunding those the wallet refuses, and counts those sent |
| WithdrawalService.WithdrawalsService.Reconcile | src/withdrawals/withdrawals.service.ts:327-352 | the loop completes each listed sent row that the chain confirmed, refunds each that it reverted, leaves the others, and counts the settled ones; under the invariant of the bank none throws |
| WithdrawalService.WithdrawalsService.RunCycle | src/withdrawals/withdrawals.service.ts:280-290 | emits, then reconciles, each with its row-by-row outcome; nothing while a cycle runs |
| WithdrawalService.CycleKeepsInv | src/withdrawals/withdrawals.service.ts:280-352 | whatever was sent before, one cycle keeps the invariant of the bank |
| WithdrawalService.CycleIsARun | src/withdrawals/withdrawals.service.ts:280-352 | one cycle of the service is a crash-free run of the worker machine |
| Indexer.NextWindow | src/indexer/deposit-indexer.service.ts:259-281 | there is a window exactly if a confirmed block lies beyond the cursor; it starts right after the cursor, or without one a range before the last confirmed block or at zero, and ends at the last confirmed block or after one range |
| Indexer.UnitsAreExact | src/indexer/deposit-indexer.service.ts:294-298 | the raw value of a token becomes its exact amount in base units, or the amount cut to 18 decimals if the token has more |
| Indexer.BlockInOneWindow | src/indexer/deposit-indexer.service.ts:263-313 | the committed windows leave no gap and do not overlap |
| Indexer.RunKeepsScannerInv | src/indexer/deposit-indexer.service.ts:247-314 | over any run of scans, failures and other operations the windows tile and their transfers are settled |
| Indexer.TransfersHaveOneRow | src/database/entities/chain-deposit.entity.ts:9 | each transfer up to the cursor to a registered address has exactly one deposit row and one journal, unless its key was taken |
| Deposits.TransfersAreCreditedOnce | src/indexer/deposit-indexer.service.ts:294-395 | and that row, its payment and its journal credit the owner of the address, in the token's asset, with the exact amount of the transfer less the fee |
| Indexer.CreditedExactlyWhen | src/indexer/deposit-indexer.service.ts:325-401 | credited exactly if new, its key free, and minimum fee and rate both less than the whole amount; throws exactly if only the last fails |
| Indexer.CreditingEndsExactlyWhen | src/indexer/deposit-indexer.service.ts:285-301 | crediting a list of transfers ends well exactly if each was settled before or leaves something after the fee |
| Stalls.KeysTellTransfersApart | src/indexer/deposit-indexer.service.ts:346 | on one network transfers with one key have one hash and one log index |
| Stalls.ScanMovesExactlyWhen | src/indexer/deposit-indexer.service.ts:247-314 | a scan moves the cursor, to the end of its window, exactly if there is a window, nothing interrupts and no transfer in it is unsettled and eaten by the fee; otherwise cursor and windows stay |
| Stalls.EatenTransferStalls | src/indexer/deposit-indexer.service.ts:285-313 | over any run in which the fee keeps eating a transfer and nobody else settles it, the cursor stays before its block |
| Stalls.NothingIsAlwaysEaten | src/indexer/deposit-indexer.service.ts:341-378 | a transfer of zero is eaten at any rates |
| Indexer.TakenKeySkipsDeposit | src/indexer/deposit-indexer.service.ts:396-401 | a taken key makes the credit a silent no-op |
| Scenarios.DepositKeyCanBeTaken | src/indexer/deposit-indexer.service.ts:346-399 | a run in which the user's own request takes the key first and the scan passes over the deposit |
| IndexerService.DepositIndexerService.CreditDeposit | src/indexer/deposit-indexer.service.ts:317-402 | payment, journal and deposit row together, or none of them |
| IndexerService.DepositIndexerService.CreditWindow | src/indexer/deposit-indexer.service.ts:284-301 | the loops over tokens and transfers credit the window's transfers in order, up to the first that throws |
| IndexerService.DepositIndexerService.WindowToScan | src/indexer/deposit-indexer.service.ts:259-281 | the cursor arithmetic gives the specified window or none |
| IndexerService.DepositIndexerService.ScanNetwork | src/indexer/deposit-indexer.service.ts:247-314 | one scan: rows, cursor and counters; the cursor moves exactly if every credit succeeded |
| Recharge.FiatIsExact | src/recharge/recharge.service.ts:47-55 | the price text shows exactly floor(amount * rate / 10^34) cents |
| Recharge.TwoDecimalsAreCents | src/recharge/recharge.service.ts:51-54 | cutting any printed amount after two decimals shows its whole cents, towards zero |
| Recharge.CentsReadBack | src/recharge/recharge.service.ts:51-54 | the price text reads back as exactly that many cents |
| Recharge.RechargeService.CreateRequest | src/recharge/recharge.service.ts:66-87 | stores the request with its exact price, for positive amounts and rates only |
| Recharge.RechargeService.Cancel | src/recharge/recharge.service.ts:94-103 | only the owner, only while pending or claimed |
| Recharge.RechargeService.SubmitEvidence | src/recharge/recharge.service.ts:106-120 | only the owner of a claimed request, with an image that is valid and not too long |
| Recharge.RechargeService.Claim | src/recharge/recharge.service.ts:136-155 | only a pending request of somebody else, with payment details |
| Recharge.RechargeService.Confirm | src/recharge/recharge.service.ts:162-241 | payment, journal and request row together, or none of them |
| Analytics.BuildGraph | src/analytics/cross-chain.service.ts:60-97 | the edges and the occurring addresses, each in order of first occurrence, the latter with their degrees and volumes |
| Analytics.NodeCountsTransfers | src/analytics/cross-chain.service.ts:79-84 | a node counts the transfers to its address and those from it, each with their volume |
| Analytics.EdgesCarryAllTransfers | src/analytics/cross-chain.service.ts:86-93 | the edges together carry the volume and number of all transfers |
| Analytics.EdgesAreTransfers | src/analytics/cross-chain.service.ts:86-93 | an edge never joins two addresses that no transfer joins |
| Analytics.EdgesCompleteExactlyWhenKeysSeparate | src/analytics/cross-chain.service.ts:86-93 | the graph shows every transfer exactly if no two pairs of addresses share a key |
| Analytics.SharedKeyHidesTransfer | src/analytics/cross-chain.service.ts:86-93 | for any key text and recipient, two transfers under one key, the second missing |
| Tracing.Adjacency | src/analytics/cross-chain.service.ts:131-137 | the lists of successors in order of the edges |
| Tracing.TraceFunds | src/analytics/cross-chain.service.ts:130-154 | terminates with a shortest route of at most maxHops hops, or with none exactly if there is none |
| Tracing.RouteIsCovered | src/analytics/cross-chain.service.ts:142-152 | along any route the i-th address is visited at depth i or less |
| Tracing.TraceIsOfTransfers | src/analytics/cross-chain.service.ts:130-154 | the route is a chain of transfers, and with separate keys a shortest one |
| RiskScoring.LongestStretch | src/compliance/risk-scoring.service.ts:173-178 | the two moving indices find the longest stretch of the sorted list whose ends are close |
| RiskScoring.MaxTxInWindow | src/compliance/risk-scoring.service.ts:170-180 | the size of the largest choice of timestamps no two of which are further apart than the window |
| Mrz.CheckDigit | src/kyc/mrz.service.ts:36-45 | the loop computes the weighted sum modulo 10, or -1 for an unreadable character |
| Mrz.ValuesInOrder | src/kyc/mrz.service.ts:28-33 | digits and letters count by their place in the one order, the filler counts as 0, nothing else is readable |
| Mrz.DateExample | src/kyc/mrz.service.ts:36-45 | the worked example of a date in section 4.9 of ICAO Doc 9303 Part 3 |
| Mrz.DocumentExample | src/kyc/mrz.service.ts:36-45 | and that of a document number with fillers |
| Mrz.ParseTd3 | src/kyc/mrz.service.ts:48-106 | valid exactly if the length and the four check digits are right, with exactly the matching errors and fields |
| Mrz.OnlyFillersGo | src/kyc/mrz.service.ts:48-106 | exactly the fillers are taken out of the document number |
| Mrz.OnlySpacesGo | src/kyc/mrz.service.ts:50 | exactly the white space is taken out of the text, the line breaks included |
| Mrz.OneCharacterChanged | src/kyc/mrz.service.ts:59-95 | an accepted zone with one character replaced is accepted exactly if the replacement is unnoticeable, position by position |
| Mrz.NeighboursSwapped | src/kyc/mrz.service.ts:75-95 | swapping two neighbours of a field goes unnoticed exactly if their values agree modulo 5 |

## Left out

- P2p.P2pService.HandleMessage: peer discovery (GET_PEERS, PEERS, knownPeers, reconnection) is not modelled, because it only decides which sockets open, and sockets open and close freely in the network model; a message that does not parse changes nothing.
- P2p.P2pService.RegisterSocket: two nodes share one socket, where the source may open one in each direction; the request for peers sent beside the height is part of peer discovery, which is not modelled.
- Blockchain.BlockchainService.AppendExternalBlock: a block carries its own ordered list of transactions; the source stores rows keyed by transaction id and reads them back without an order (src/blockchain/blockchain.service.ts:280), so a repeated id would move a row between blocks. `TransactionIds.IdsOccurOnce` and `TransactionIds.IdCanRepeat` say when one id is in one block only.
- Blockchain.BlockchainService.ValidateChain: a stored negative difficulty, which no accepted block has, would make the source throw instead of reporting.
- Domain.Mine: that a nonce exists is required, not proved; without one the source searches for ever, and there is no result to speak of.
- Agreement.AgreementAtQuiescence: channels lose messages only together with their socket.
- Spread.SubmittedTransactionReachesEverybody: one submission with nothing else in flight, because a block that arrives in between takes the transaction out of a mempool again.
- Signatures.EverythingStoredIsSigned: transactions without a sender need no signature, as in the source, which accepts them as coinbases.
- Supply.SupplyIsPremineAndRewards: one standalone node, because blocks and transactions from the network are accepted without looking at funds.
- Money.ToBaseTruncates: amounts given as numbers go through the host language's number printing, which is not modelled; database columns round beyond 18 decimals.
- Fees.PercentTextIsExact: rates are texts or integers here, where the source prints a number first, which fails below 10^-6.
- DatabaseRows.LedgerService.PostJournal: accounts exist by being named; the row that getOrCreateAccount inserts, ids, times and descriptive columns are not modelled.
- Market.P2pMarketService.CreateOrder: the price band comes from a quotation service and is a parameter; users, e-mail, second factors, chat and attachments are left out or parameters.
- Market.SweepSettlesOverdueTrades: a sweep looks at fifty trades of each kind, so with more some wait for the next; which fifty the database picks is taken as table order.
- Idempotency.RetriesReturnTheSamePayment: the lookup of credit and transfer is taken once, where transfer looks twice; second factors are not modelled.
- Withdrawals.WithdrawalsAreSafe: safety only; a row left at broadcasting by a crash is never visited again and reconciliation looks at the twenty oldest, so liveness does not hold. Two processes running the worker at once are outside.
- WithdrawalService.WithdrawalsService.Reconcile: the number of confirmations and the receipt lookup are one answer, success, reverted or pending; an exception of the lookup ends the cycle and is a crash in the machine.
- Deposits.TransfersAreCreditedOnce: for addresses that never change hands, logs distinct by hash and index, and other channels that under this network's name credit only transfers of its tokens. EVM polling only: the Tron and Solana scanners always use index 0; the webhook takes its asset from the network and six decimals by default, not from the token (src/indexer/deposit-indexer.service.ts:107-114), and once per transfer across channels with different network names is not claimed. Logs below the confirmation depth are taken as final.
- Indexer.CreditingEndsExactlyWhen: for lists whose transfers and keys are distinct; `Stalls.WindowIsDistinct` proves that those of a window are.
- Analytics.BuildGraph: volumes are integers; that a key with an arrow appended verifies is read off the signature library's decoder, which is not part of this model.
- RiskScoring.MaxTxInWindow: the window is not negative, as configured; the rest of the risk score adds up thresholds.
- Mrz.ParseTd3: the upper-case mapping of the host language is a parameter; error texts are constructors.
- Key derivation, signing and sweeping, the exchange payouts (whose balance check and debit surround an external call without a hold), identity checks, name matching, reports, administration, authentication and all plumbing of network, database and HTTP.
