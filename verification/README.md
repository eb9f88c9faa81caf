# A model of dnsblockchain and what it keeps

dnsblockchain is a chain with a DAO that mints grants and opens top-level
domains, and with a registry of `label.tld` domain names. This project models
its three components that work step by step, and proves what they promise over
every run and every byte string:

* **the DAO** (`x/dao`): proposals, votes, voting-power lots, deposits held in
  the module's account, and the `EndBlocker` that tallies, decides, executes and
  refunds or burns;
* **the registry** (`x/dnsblockchain/keeper`): the id map and the name index
  through every message and through genesis, and the permitted top-level domains
  that the DAO feeds;
* **the wire codec** of `Domain` and `NSRecordWithIP`
  (`x/dnsblockchain/types/domain.pb.go`), following the Protocol Buffers
  Encoding, sections "Base 128 Varints", "Message Structure", "Last One Wins"
  and "Groups".

## How it is built

Each part exists twice. The stateful code is a class whose methods take the
steps of the Go code: `DomainPb.Domain` and `DomainPb.NSRecordWithIP` with a
buffer filled from the back and index-driven parsers on 64-bit integers that
wrap; `RegistryKeeper.Keeper`; `DaoKeeper.Keeper`; `Bank.BankKeeper`; and
`App.ChainApp`, which holds the two keepers over one bank. Every method is proved
against a function on plain values (`WireFormat`, `Registry`, `Dao`, `Chain`), and
the theorems are about those functions.

| files | contents |
|---|---|
| `GoInts`, `Wrappers`, `MapTotals`, `Walks` | Go's integers, results, sums over maps, walks in key order |
| `Varint`, `DomainTypes`, `WireFormat`, `WireLaws`, `RawFields`, `WireFields`, `DomainPb` | the codec: format, laws, fields, generated code |
| `Bank`, `Environment`, `Names` | balances and supply, library calls, names and the reserved list |
| `Registry`, `RegistryEffects`, `RegistryTlds`, `RegistryGenesis`, `RegistryKeeper` | the registry |
| `LegacyDec`, `VotingPower`, `DaoTypes`, `DaoDecision`, `Dao` | decimals, decay, decision, the DAO's steps |
| `DaoInvariant`, `DaoVoting`, `DaoMessages`, `DaoEffects`, `DaoSettlement`, `DaoOutcome`, `DaoKeeper` | the DAO's invariant, what each step does and keeps, and its code |
| `Chain`, `ChainProposals`, `ChainPower`, `ChainTurnout`, `ChainCoinTurnout`, `ChainLotTurnout`, `ChainRegistry`, `App` | runs of the whole chain |

The main results:

* `Chain.Books`: after any run from genesis, supply = initial supply + executed
  grants - burned deposits - registration fees, denomination by denomination; the
  DAO's account holds its initial balance + the deposits of the proposals in their
  voting period + the grants made to itself + what users sent it, so it can always
  pay every deposit (`Chain.RunKeepsOk`, `DaoInvariant.Solvent`).
* `DaoOutcome.EndBlockOutcome`, `EndBlockPays`, `EndBlockGrants`: the loop of
  `EndBlocker`, which updates four stores proposal by proposal, equals one decision
  taken on the state before it: final statuses, permitted labels, every account's
  balance and every new lot.
* `ChainProposals.VotingWindow`, `FinishedAsEarned`: over every run a proposal is open for
  exactly its voting period, every vote in it that should count does, and its final
  status is what its stored votes earned, in whole-number arithmetic.
* `Chain.Finality`, `Chain.AddTldFate`: what is finished never changes and its stored
  totals stay the sums over the vote store; how a proposed label ends, for ever after.
* `ChainPower.PowerFallsExactly`, `PowerRunsOutOverRun`: over runs, a voter's power falls
  between grants exactly when lots exist already.
* `ChainCoinTurnout.CoinTurnoutFitsExactly`, `ChainLotTurnout.LotTurnoutFitsExactly`,
  `LotTurnoutFitsFromGenesis`, `TurnoutBound`: exactly when the turnout can exceed the supply
  it is measured against, before the first grant and after it, and by how much at most
  when grants fall between the votes.
* `VotingPower.DecayNeedsInt64`, `DecayBounds`, `SplittingNeverGains`;
  `DaoDecision.QuorumBounds`, `AcceptsWithYes` and their companions: the fixed-point
  arithmetic against exact fractions, and its monotonicity.
* `ChainRegistry.RecordStays`, `NameStaysTaken`, `TransferLasts`, `RegisteredUnderPermitted`,
  `Chain.ReachableExport`, `Registry.LookupIsScan`,
  `Registry.AccessControl`, `Registry.DeleteUndoesCreate`, `RegistryGenesis.GenesisRoundTrip`:
  the registry.
* `DomainPb.Domain.Unmarshal`, `WireFormat.DomainConcat`, `WireLaws.DomainMerge`,
  `RawFields.SkipIsGrammar`, `RawFields.UnknownFieldInvisible`, `WireFields.DecodesExactly`: the
  codec, down to the bytes it accepts and the message each of them means.
* `RegistryEffects`, `DaoEffects`: for each message, exactly when it is accepted, the whole
  state after it, and that an error names something really wrong.
* `App.ChainApp.Play`: the keepers, driven step by step, go through exactly the
  runs that these theorems are about.

A run starts from a bank whose supply is the sum of its balances, valid DAO parameters
(the DAO's genesis replaces others by its defaults), and a registry with a correct index
(which a genesis has exactly when its names are in normal form and not repeated, see
below). Its steps are submissions, votes, registry messages, bank transfers by users and
ends of blocks, in any order. What is assumed of a run, and not checked by the code:
`height + VotingPeriodBlocks`, the height and the two id counters stay below 2^64;
proposers, voters, domain creators and senders of transfers are not module accounts
(those sign nothing); and the address codec refuses the empty string.

## Where the code and its documents differ

The model follows the code.

* An expired name is said to become available again (whitepaper.md:53). The code
  looks at the name index only: the name stays taken, through every run, until its owner
  deletes the domain (`ChainRegistry.NameStaysTaken`).
* "Up to 6 NS records" (whitepaper.md:46) is not enforced: where one list is accepted so
  is any other non-empty list of valid records, of any length, and the empty one is
  refused (`Registry.AnyNumberOfRecords`).
* Fees on updates and transfers, shared among validators (whitepaper.md:56, 88), do
  not exist: no message but a creation moves a coin (`Registry.OnlyCreationIsPaid`), and
  the creation fee is burned (`Registry.ChargeFeeEffect`).
* The DAO's parameters are called configurable (readme.md:24, 100), but its update
  call is commented out (proto/dnsblockchain/dao/v1/tx.proto:19). They never change
  (`DaoInvariant.DaoHistory`), and the escrow results rest on it.
* `DaoParams.Validate` accepts any decay duration. From 2^63 on its conversion to
  `int64` is negative and old lots count for more than they are worth. The code decays
  power exactly when the duration is below 2^63 (`VotingPower.DecayNeedsInt64`, with the
  inputs of `DecayOverflow` and `DecayDoubles`).
* A comment in `InitGenesis` expects `GenesisState.Validate` to refuse repeated names
  (x/dnsblockchain/keeper/genesis.go:30). It does not. Of the states it accepts,
  exactly those with names in normal form and not repeated give a correct index
  (`RegistryGenesis.GenesisNeedsValidNames`, with the input of `RepeatedNameBreaksIndex`).
* Names are trimmed of dots but top-level domains of spaces. So `"foo.web3 "` is
  registered as it stands where only `web3` is permitted
  (`RegistryTlds.SpacedNameIsRegistered`). With permitted labels in normal form, a
  registered name's own label is permitted if and only if no space surrounds it
  (`RegistryTlds.RegisteredTld`, `ChainRegistry.RegisteredUnderPermitted`). `AddPermittedTLD`
  keeps the labels in that form; `InitGenesis` trims dots only, and ensures it exactly for
  labels without surrounding spaces (`RegistryTlds.GenesisTlds`): a genesis label `"web3 "`
  can never be matched (`RegistryTlds.MatchableTld`, `SpacedGenesisTld`). On every label that
  can be proposed the two normalisations agree (`Names.NormalizersAgree`).

## What holds only in part

* Voting power is the live balance before the first grant and the decaying lots after
  it (readme.md:97-99). Between grants it can only fall, over every run and whoever
  holds the coins, if and only if lots exist (`ChainPower.PowerFallsExactly`): before, a
  transfer raises it (`PowerGrowsByTransfer`).
* The quorum measures the turnout against the supply recorded at submission. Before the
  first grant, tokens that voted vote again after a transfer. A single token in a user's
  hands therefore makes the turnout exceed any bound and meet any quorum
  (`ChainCoinTurnout.Unbounded`, `AnyQuorumIsMet`); while no other proposal can hand such
  tokens back, the turnout stays within the snapshot in every run without a grant if and
  only if no user holds one (`CoinTurnoutFitsExactly`). It also does in every run in which no
  token goes from somebody who has voted to a user who has not (`TurnoutWithinSnapshot`).
* After the first grant transfers do not matter. The turnout stays within the snapshot in
  every run without a further grant if and only if the users' lots count for no more than
  the snapshot at submission (`ChainLotTurnout.LotTurnoutFitsExactly`); from a genesis they do
  as long as no more voting tokens were burned than there were at the start
  (`LotTurnoutFitsFromGenesis`). With grants between the votes the excess is at most the lots
  of those who voted (`TurnoutBound`).

## Model

| member | source | states |
|---|---|---|
| Varint.ReadsBack | x/dnsblockchain/types/domain.pb.go:401-414 | any varint, minimal or not, is read whole and to its low 64 bits, whatever follows |
| Varint.ReadsOnlyVarints | x/dnsblockchain/types/domain.pb.go:401-414 | what a successful read consumes is a varint of the format, so the loop accepts nothing else |
| Varint.ReadVarintPrefix | x/dnsblockchain/types/domain.pb.go:401-414 | a successful read does not depend on later bytes |
| Varint.VarintRoundTrip | x/dnsblockchain/types/domain.pb.go:320-330 | for every uint64 the written bytes are a varint of at most ten bytes and read back to the number |
| Varint.SovIsLength | x/dnsblockchain/types/domain.pb.go:389-391 | the bit-length formula equals the number of bytes written |
| Varint.ScanVarint | x/dnsblockchain/types/domain.pb.go:401-414 | the shift loop on uint64, with its overflow and end-of-input errors, computes the format's reading and never indexes outside the slice |
| Varint.EncodeVarintInto | x/dnsblockchain/types/domain.pb.go:320-330 | the varint ends just before the offset, its start is returned, and no other byte of the buffer changes |
| WireFormat.SkipFromPrefix | x/dnsblockchain/types/domain.pb.go:759-836 | skipping a field, at any group depth, does not look past it |
| WireFormat.RecordConcat | x/dnsblockchain/types/domain.pb.go:395-540 | decoding x ++ y onto any record is decoding y onto the result of x |
| WireFormat.DomainConcat | x/dnsblockchain/types/domain.pb.go:541-758 | the same for domains: scalars take the last value, repeated fields append |
| WireLaws.RecordMerge | x/dnsblockchain/types/domain.pb.go:219-250 | reading a written record onto another merges the two |
| WireLaws.RecordRoundTrip | x/dnsblockchain/types/domain.pb.go:395-540 | a written record reads back, addresses in order |
| WireLaws.DomainMerge | x/dnsblockchain/types/domain.pb.go:267-318 | reading a written domain onto another merges the two, nested records appended in order |
| WireLaws.DomainRoundTrip | x/dnsblockchain/types/domain.pb.go:541-758 | every domain whose encoding fits a slice reads back unchanged |
| WireLaws.EncodeInjective | x/dnsblockchain/types/domain.pb.go:267-318 | two domains never share an encoding |
| RawFields.SkipsField | x/dnsblockchain/types/domain.pb.go:759-836 | any well-formed field, with groups nested to any depth, is consumed exactly |
| RawFields.SkipIsGrammar | x/dnsblockchain/types/domain.pb.go:759-836 | skipDomain succeeds with n bytes if and only if those bytes are one field of the grammar |
| RawFields.UnknownFieldInvisible | x/dnsblockchain/types/domain.pb.go:738-750 | an unlisted field between two stretches of fields changes nothing in the decoded domain |
| RawFields.UnknownFieldInvisibleInRecord | x/dnsblockchain/types/domain.pb.go:520-532 | the same for name-server records |
| WireFields.TagParts | x/dnsblockchain/types/domain.pb.go:561-562 | wire type and signed 32-bit field number of every 64-bit tag |
| WireFields.WrittenText | x/dnsblockchain/types/domain.pb.go:589-652 | a name, owner or creator field of any data, empty included, replaces what was there |
| WireFields.WrittenNumber | x/dnsblockchain/types/domain.pb.go:570-588 | so does an id or expiration field of any number, zero included |
| WireFields.WrittenRecordName | x/dnsblockchain/types/domain.pb.go:424-455 | so does a record's name field |
| WireFields.LastNameWins | x/dnsblockchain/types/domain.pb.go:589-620 | after any accepted bytes a name field at the end is the name, be it empty |
| WireFields.FieldApplied | x/dnsblockchain/types/domain.pb.go:569-751 | any whole field, whatever varints it is written with, does to a domain what its number and kind say, or is the error they say, and only its own bytes are used |
| WireFields.RecordFieldApplied | x/dnsblockchain/types/domain.pb.go:423-533 | the same for name-server records |
| WireFields.DecodeIsFold | x/dnsblockchain/types/domain.pb.go:541-758 | decoding a list of whole fields applies them in order, up to the first error |
| WireFields.DecodesExactly | x/dnsblockchain/types/domain.pb.go:541-758 | bytes decode to a domain if and only if they are whole fields of the grammar that apply to that domain |
| WireFields.DecodesRecordExactly | x/dnsblockchain/types/domain.pb.go:395-540 | the same for name-server records |
| WireFields.EndTagIsRefused | x/dnsblockchain/types/domain.pb.go:563-565 | an end tag where a field should start is that error |
| WireFields.WrittenFields | x/dnsblockchain/types/domain.pb.go:267-318 | the printer writes whole fields by ascending number, with minimal varints and no zero value |
| WireFields.WrittenRecordFields | x/dnsblockchain/types/domain.pb.go:219-250 | a record is written as its name, then its addresses of the first kind, then those of the second |
| DomainPb.PutBytes | x/dnsblockchain/types/domain.pb.go:291-297 | payload, length and tag written backwards form one field ending at the index |
| DomainPb.PutTexts | x/dnsblockchain/types/domain.pb.go:224-241 | a repeated string written last element first stands in the buffer first element first |
| DomainPb.PutRecord | x/dnsblockchain/types/domain.pb.go:273-284 | one nested message with its size and tag in front ends at the index |
| DomainPb.PutRecords | x/dnsblockchain/types/domain.pb.go:272-285 | the same for nested messages with their sizes |
| DomainPb.ScanBytes | x/dnsblockchain/types/domain.pb.go:428-455 | a length-delimited payload, with the checks on negative and wrapped indices |
| DomainPb.ScanBytesField | x/dnsblockchain/types/domain.pb.go:424-455 | a known length-delimited field after its tag: wire type, length, payload, or the first error |
| DomainPb.ScanNumberField | x/dnsblockchain/types/domain.pb.go:570-588 | the same for a known number field |
| DomainPb.SkipBytes | x/dnsblockchain/types/domain.pb.go:796-815 | the end of a length-delimited value, where the new index may pass the end or wrap |
| DomainPb.SkipValue | x/dnsblockchain/types/domain.pb.go:780-827 | one value of each wire type, where the new index may pass the end or wrap |
| DomainPb.SkipDomain | x/dnsblockchain/types/domain.pb.go:759-836 | the depth-counting loop terminates on every slice and agrees with the format's skipping; an end past the slice is only reported for a truncated field |
| DomainPb.SkipUnknown | x/dnsblockchain/types/domain.pb.go:738-750 | the parsers' default branch advances over exactly the field or fails |
| DomainPb.NSRecordWithIP.Size | x/dnsblockchain/types/domain.pb.go:331-354 | the length of the encoding |
| DomainPb.NSRecordWithIP.MarshalToSizedBuffer | x/dnsblockchain/types/domain.pb.go:219-250 | fills exactly that many bytes before the end, and nothing else |
| DomainPb.NSRecordWithIP.Unmarshal | x/dnsblockchain/types/domain.pb.go:395-540 | on every byte string: the merged record, or the error of the first bad field |
| DomainPb.Domain.Size | x/dnsblockchain/types/domain.pb.go:356-387 | the length of the encoding, nested records included |
| DomainPb.Domain.MarshalToSizedBuffer | x/dnsblockchain/types/domain.pb.go:267-318 | fills exactly that many bytes before the end, and nothing else |
| DomainPb.Domain.Marshal | x/dnsblockchain/types/domain.pb.go:252-260 | a buffer of Size() bytes is filled without a gap |
| DomainPb.Domain.AppendRecord | x/dnsblockchain/types/domain.pb.go:733-737 | a nested message becomes one new record at the end of the list |
| DomainPb.Domain.Unmarshal | x/dnsblockchain/types/domain.pb.go:541-758 | on every byte string: the merged domain, or the error of the first bad field; terminates and stays inside the slice |
| DomainPb.MarshalThenUnmarshal | x/dnsblockchain/types/domain.pb.go:252-260 | writing a domain object and reading the bytes into an empty one gives an equal object |
| LegacyDec.RatioBounds | x/dao/keeper/end_blocker.go:102 | the rounded quotient against the exact comparison y/t >= q: never stricter, more lenient by at most half a last digit |
| LegacyDec.RatioReaches | x/dao/keeper/end_blocker.go:102 | the rounded quotient reaches q exactly when the whole numbers do: 36 digits cut off, half a unit forgiven, the tie for an even q |
| LegacyDec.RatioMonotone | x/dao/keeper/end_blocker.go:146 | rounding keeps the order of fractions |
| DaoDecision.Decide | x/dao/keeper/end_blocker.go:83-173 | the nested branches equal: quorum, and a vote was counted, and the YES threshold |
| DaoDecision.AcceptsExactly | x/dao/keeper/end_blocker.go:83-173 | acceptance in whole numbers, every branch, with the exact rounding of both ratios |
| DaoDecision.AcceptsWithoutYes | x/dao/keeper/end_blocker.go:134-164 | without a YES: accepted if and only if the quorum is met, a vote was counted and the threshold is 0 |
| DaoDecision.QuorumBounds | x/dao/keeper/end_blocker.go:85-105 | voted/snapshot >= q exactly implies the quorum; the quorum implies it up to half a last digit of q |
| DaoDecision.ThresholdBounds | x/dao/keeper/end_blocker.go:136-149 | the same bounds for the YES share |
| DaoDecision.AcceptsWithYes | x/dao/keeper/end_blocker.go:83-173 | one more YES never turns acceptance into rejection |
| DaoDecision.AcceptsWithAbstain | x/dao/keeper/end_blocker.go:83-173 | nor does one more ABSTAIN or a vote of an unnamed option |
| DaoDecision.AcceptsWithTurnedNo | x/dao/keeper/end_blocker.go:83-173 | nor does a NO turned into YES |
| VotingPower.LotPowerIsDecayed | x/dao/keeper/keeper.go:206-218 | under the side conditions the uint64, int64 and decimal operations compute amount times remaining share, rounded down |
| VotingPower.DecayNeedsInt64 | x/dao/keeper/keeper.go:211 | the code decays power on all lots and heights if and only if the duration is below 2^63 |
| VotingPower.DecayOverflow | x/dao/keeper/keeper.go:211 | a lot that counts for more than its amount when it is not |
| VotingPower.DecayDoubles | x/dao/keeper/keeper.go:211 | with the largest duration every lot counts double at age 1 |
| VotingPower.DecayBounds | x/dao/keeper/keeper.go:206-218 | floor(A(D-b)/D) <= power <= A, and power is at most one more for A <= 10^18 |
| VotingPower.DecayEnds | x/dao/keeper/keeper.go:207-209 | the full amount at age 0, nothing from the decay duration on |
| VotingPower.DecayMonotone | x/dao/keeper/keeper.go:211-218 | power grows with the amount and shrinks with age |
| VotingPower.SplittingNeverGains | x/dao/keeper/keeper.go:211-218 | several lots of one age never give more than one lot of their sum |
| DaoVoting.PowerNonNegative | x/dao/keeper/keeper.go:165-245 | no reachable voting power is negative |
| DaoVoting.NoDecay | x/dao/keeper/keeper.go:200-204 | without a decay duration a lot always counts in full |
| DaoVoting.PowerNonIncreasing | x/dao/keeper/keeper.go:165-245 | with the same stores and balances, a voter's total does not grow with the height (over runs: ChainPower.PowerFallsOverRun) |
| DaoVoting.PowerRunsOut | x/dao/keeper/keeper.go:207-209 | with all lots D or more blocks old the total is 0, whatever the balance |
| ChainPower.PowerFallsOverRun | x/dao/keeper/keeper.go:165-245 | in every run without a grant, from a state with lots, nobody's power grows |
| ChainPower.PowerRunsOutOverRun | x/dao/keeper/keeper.go:207-209 | D blocks after the last grant to a voter the power is 0, whatever else the run did |
| ChainPower.PowerGrowsByTransfer | x/dao/keeper/keeper.go:176-184 | before the first grant a transfer of n voting tokens raises the recipient's power by n |
| ChainPower.PowerFallsExactly | x/dao/keeper/keeper.go:174-184 | power cannot grow in any run without a grant, whoever holds the coins, if and only if a lot exists |
| ChainTurnout.SendClaim | x/dao/keeper/keeper.go:180-184 | before the first grant: the votes counted, plus the voting tokens that users who have not voted hold or are owed as deposits, grow by a user's transfer if and only if it goes from a voter to a user who has not voted |
| ChainTurnout.StepClaim | x/dao/keeper/end_blocker.go:50-72 | no other step makes that sum grow, refunds and fees included, as long as no lot is granted |
| ChainTurnout.StepPotential | x/dao/keeper/end_blocker.go:178-232 | nor, for any set of accounts, the tokens that the users outside it hold or are owed |
| ChainTurnout.SubmissionIsNew | x/dao/keeper/msg_server.go:152-176 | a submission ends in a state in which nobody has voted on the proposal and the snapshot is the supply |
| ChainCoinTurnout.RunClaim | x/dao/keeper/end_blocker.go:50-72 | over every run before the first grant in which no tokens are passed on like that, the sum does not grow |
| ChainCoinTurnout.TurnoutWithinSnapshot | x/dao/keeper/msg_server.go:157-171 | in such a run the turnout never exceeds the supply recorded at submission |
| ChainCoinTurnout.OneVote | x/dao/keeper/msg_server.go:232-258 | a first vote adds the voter's tokens to the turnout |
| ChainCoinTurnout.Unbounded | x/dao/keeper/msg_server.go:232-258 | with one token in the hands of a user who has not voted, some run adds any number to the turnout |
| ChainCoinTurnout.AnyQuorumIsMet | x/dao/keeper/end_blocker.go:85-105 | so some run meets the quorum whatever it is |
| ChainCoinTurnout.RunNoCoins | x/dao/keeper/msg_server.go:242-251 | users who hold and are owed no voting token never get one, in any run without a grant, and no vote on the proposal is accepted |
| ChainCoinTurnout.CoinTurnoutFitsExactly | x/dao/keeper/msg_server.go:157-171 | from an accepted submission before the first grant: a token in a user's hands makes some run exceed the snapshot; while no other proposal owes users such tokens, the turnout stays within the snapshot in every run without a grant if and only if no user holds one |
| ChainLotTurnout.TurnoutWithinLots | x/dao/keeper/keeper.go:186-221 | once lots exist the turnout never exceeds the power of all users' lots at submission, whatever is transferred |
| ChainLotTurnout.EverybodyVotes | x/dao/keeper/msg_server.go:197-277 | that bound is reached by a run of users' votes |
| ChainLotTurnout.LotTurnoutFitsExactly | x/dao/keeper/msg_server.go:157-171 | from an accepted submission: the turnout stays within the snapshot in every run without a grant if and only if the users' lots count for no more than it |
| ChainLotTurnout.LotsWithinGrants | x/dao/keeper/end_blocker.go:299-315 | all lots together count for no more than the executed grants of the voting token |
| ChainLotTurnout.LotTurnoutFitsFromGenesis | x/dao/keeper/msg_server.go:157-171 | from a genesis, with no more voting tokens burned than there were, the lots fit the snapshot of every submission, and so does every turnout without a further grant |
| ChainLotTurnout.TurnoutBound | x/dao/keeper/msg_server.go:157-171 | with any number of grants between the votes, and no tokens recycled before the first, the turnout exceeds the snapshot by no more than the lots of those who voted |
| DaoVoting.LotVotingStaysOn | x/dao/keeper/keeper.go:149-162 | lot-based voting never switches off |
| DaoVoting.TallyNonNegative | x/dao/keeper/end_blocker.go:50-72 | no total of a reachable state is negative |
| DaoVoting.FurtherVoteKeepsWin | x/dao/keeper/end_blocker.go:50-173 | over the vote store: one more stored vote that is not a NO never loses a won proposal |
| DaoVoting.TurnedVoteKeepsWin | x/dao/keeper/end_blocker.go:50-173 | nor does turning a stored NO into a YES |
| Dao.TallyWithVote | x/dao/keeper/end_blocker.go:57-72 | the sums over the store follow the switch: each named option its bucket, every option but the unspecified one the turnout |
| DaoInvariant.DaoHistoryTransitive | x/dao/keeper/keeper.go:96-122 | persistence of proposals, votes and lots composes over steps |
| DaoInvariant.FrozenTally | x/dao/keeper/msg_server.go:221-262 | a finished proposal has the same record, the same votes and matching totals in every later state |
| DaoTypes.GenesisParams | x/dao/keeper/genesis.go:12-20 | the stored parameters always validate, and are the given ones if those do |
| DaoMessages.SubmittedTldIsNew | x/dao/keeper/msg_server.go:103-123 | an accepted label is neither reserved nor permitted in lower case |
| DaoTypes.ContentError | x/dao/types/proposal_content.go:26-61 | no error exactly for contents that satisfy every condition of ValidateBasic |
| DaoTypes.ContentExactly | x/dao/types/proposal_content.go:26-61 | which contents have no error |
| DaoTypes.ParamsExactly | x/dao/types/params.go:55-107 | which parameters validate |
| DaoTypes.ContentErrorKinds | x/dao/types/proposal_content.go:26-61 | which error ValidateBasic gives, and that it is true of the content |
| DaoTypes.Defaults | x/dao/types/params.go:35-52 | the default parameters |
| Names.RegexpLabels | x/dao/types/proposal_content.go:24 | the regular expression in words: letters, digits, hyphens, no hyphen at an end, at most 63 |
| DaoEffects.SubmitAccepted | x/dao/keeper/msg_server.go:31-143 | a submission is accepted if and only if content, label, uniqueness and payment are as they should be |
| DaoEffects.SubmitEffect | x/dao/keeper/msg_server.go:131-179 | the stored proposal field by field, the end of its voting period, and every balance: the price of its kind goes from the proposer to the module |
| DaoEffects.SubmitErrorsAreTrue | x/dao/keeper/msg_server.go:36-143 | every error names something really wrong |
| DaoEffects.VoteAccepted | x/dao/keeper/msg_server.go:197-262 | a vote is accepted if and only if the proposal is open and in time, and the voter is new and has power |
| DaoEffects.VoteCounted | x/dao/keeper/msg_server.go:253-262 | an accepted vote, with lots or without, adds the voter's power to the total of its option and to the turnout and to nothing else |
| DaoEffects.NoVotesNoTotals | x/dao/keeper/end_blocker.go:50-54 | a proposal without votes has no totals |
| DaoEffects.VoteErrorsAreTrue | x/dao/keeper/msg_server.go:202-251 | every error names something really wrong |
| DaoEffects.PowerIs | x/dao/keeper/keeper.go:165-245 | the balance before the first grant, then the sum of the decayed amounts of the own lots, in whole numbers |
| DaoMessages.SubmitKeepsOk | x/dao/keeper/msg_server.go:31-195 | a submission keeps the invariant: deposit in escrow, active contents distinct, nothing older changed, books balanced |
| DaoMessages.CastVoteKeepsOk | x/dao/keeper/msg_server.go:197-277 | a vote adds one new entry on an active proposal, keeps the invariant and changes nothing else |
| DaoSettlement.GrantEffect | x/dao/keeper/end_blocker.go:285-297 | a grant adds its amount to the recipient and the supply, or, to a blocked account, leaves every balance and the supply as they were |
| DaoSettlement.SettleDepositEffect | x/dao/keeper/end_blocker.go:191-232 | a covered deposit is refunded in full or burned in full |
| DaoSettlement.EscrowCovers | x/dao/keeper/end_blocker.go:178-232 | in a solvent state the module account covers every active deposit, so no refund or burn fails for lack of funds |
| DaoSettlement.ExecuteAddTld | x/dao/keeper/end_blocker.go:267-270 | execution fails exactly when the lower-case label is already permitted, and permits it otherwise |
| DaoSettlement.SettleBalances | x/dao/keeper/end_blocker.go:176-232 | every account's balance and the supply after settling one proposal |
| DaoSettlement.SettleKeepsOk | x/dao/keeper/end_blocker.go:44-246 | settling one proposal keeps the invariant and the books, though nothing is rolled back on an error |
| DaoSettlement.SettleAddTld | x/dao/keeper/end_blocker.go:191-206 | a winning AddTld is FAILED exactly when its label was permitted by then, and the label is permitted after it |
| DaoSettlement.SettleGrant | x/dao/keeper/end_blocker.go:272-316 | a winning grant is FAILED exactly when its recipient is blocked |
| DaoSettlement.SettleTlds | x/dao/keeper/end_blocker.go:191-206 | labels that won stay permitted, and no reserved label becomes permitted |
| DaoSettlement.EndBlockerKeepsOk | x/dao/keeper/end_blocker.go:21-249 | the end of a block keeps invariant and books, finishes exactly the due proposals and leaves none overdue |
| DaoOutcome.EndBlockOutcome | x/dao/keeper/end_blocker.go:21-249 | the loop equals one decision on the state before it: statuses, stored totals and permitted labels, two winners of a label being decided by id |
| DaoOutcome.EndBlockPays | x/dao/keeper/end_blocker.go:176-232 | every account's balance after the block: refunds, grants and deposits leaving the module account, and nothing else |
| DaoOutcome.EndBlockGrants | x/dao/keeper/end_blocker.go:299-315 | the lots after the block: the old ones, and one for each executed grant of the voting token, dated with the height |
| DaoKeeper.Keeper.constructor | x/dao/keeper/genesis.go:12-20 | the module starts with the given parameters, or the defaults where they do not validate, counter 0 and empty stores |
| DaoKeeper.Keeper.IsLotBasedVotingActive | x/dao/keeper/keeper.go:149-162 | true exactly when a lot is stored |
| DaoKeeper.Keeper.CalculateVoterPower | x/dao/keeper/keeper.go:165-245 | the balance before the first grant, then the sum over the voter's lots, in whatever order they are walked |
| DaoKeeper.Keeper.HasDuplicate | x/dao/keeper/msg_server.go:63-91 | true exactly when an active proposal has the same content |
| DaoKeeper.Keeper.CheckProposedTld | x/dao/keeper/msg_server.go:103-123 | the reserved and permitted checks, in order |
| DaoKeeper.Keeper.TakeDeposit | x/dao/keeper/msg_server.go:131-143 | the deposit is sent to the module, or an unexpected initial deposit refused; a refusal leaves the bank as it was |
| DaoKeeper.Keeper.SubmitProposal | x/dao/keeper/msg_server.go:31-195 | the whole new state, or the error of the first failing check and no change anywhere |
| DaoKeeper.Keeper.Vote | x/dao/keeper/msg_server.go:197-277 | the whole new state, or the error of the first failing check and no change |
| DaoKeeper.Keeper.Deliver | x/dao/keeper/msg_server.go:31-195 | a failed submission leaves all three modules as they were |
| DaoKeeper.Keeper.TallyVotes | x/dao/keeper/end_blocker.go:50-72 | the four totals are the sums over the stored votes, in whatever order they are walked |
| DaoKeeper.Keeper.ExecuteAddTld | x/dao/keeper/end_blocker.go:267-270 | the registry's permitted set changes or the execution fails |
| DaoKeeper.Keeper.ExecuteRequestTokens | x/dao/keeper/end_blocker.go:272-317 | mint, send, burn on failure, and the lot |
| DaoKeeper.Keeper.SetLots | x/dao/keeper/end_blocker.go:299-315 | the loop over the granted coins stores one lot for the voting token |
| DaoKeeper.Keeper.ExecuteProposal | x/dao/keeper/end_blocker.go:251-265 | the new state of the three modules and whether execution succeeded |
| DaoKeeper.Keeper.SettleTheDeposit | x/dao/keeper/end_blocker.go:178-232 | the bank after a refund or a burn, a failing one being logged only |
| DaoKeeper.Keeper.Process | x/dao/keeper/end_blocker.go:44-246 | one pass of the loop on a copied proposal is one settlement |
| DaoKeeper.Keeper.CollectDue | x/dao/keeper/end_blocker.go:31-38 | copies of exactly the due proposals, by ascending id |
| DaoKeeper.Keeper.EndBlocker | x/dao/keeper/end_blocker.go:21-249 | the loop over those copies is the settlement of all due proposals in order |
| Bank.SendBalance | x/dao/types/expected_keepers.go:14-22 | a transfer moves exactly the amount, also to oneself |
| Bank.BurnBalance | x/dao/types/expected_keepers.go:14-22 | a burn takes the amount from the account and from the supply |
| Bank.SendKeepsSound | x/dao/types/expected_keepers.go:14-22 | transfers keep supply equal to the sum of balances, and no balance negative |
| Bank.MintKeepsSound | x/dao/types/expected_keepers.go:14-22 | so does minting |
| Bank.BurnKeepsSound | x/dao/types/expected_keepers.go:14-22 | so does burning |
| Bank.SupplyNonNegative | x/dao/keeper/msg_server.go:170 | the supply that a submission records is not negative |
| Bank.WhoIsBlocked | app/app_config.go:94-103 | the six module accounts that may not receive coins, and no other account |
| Bank.BankKeeper.SendCoinsToAccount | app/app_config.go:94-103 | a blocked recipient or missing funds refuse the transfer and change nothing |
| Names.TrimLaw | x/dnsblockchain/keeper/keeper.go:78 | trimming yields a trimmed part of the string and leaves trimmed strings alone |
| Names.LowerCase | x/dnsblockchain/keeper/msg_server_domain.go:70 | each capital becomes its small letter and nothing else changes |
| Names.Spaces | x/dnsblockchain/keeper/keeper.go:78 | the characters that count as white space |
| Names.SpecialUseReserved | x/dnsblockchain/types/reserved_tlds.go:168-185 | the special-use names are reserved in any case and with any dots around them |
| Names.NormalizeNameTwice | x/dnsblockchain/keeper/msg_server_domain.go:70 | the normal form of a name is its own normal form |
| Names.NormalizersAgree | x/dao/types/proposal_content.go:24-42 | on every label the regular expression accepts both normalisations only change case |
| Names.SplitOfPair | x/dnsblockchain/keeper/msg_server_domain.go:71 | a.b splits into its two dot-free labels |
| Names.SplitTwo | x/dnsblockchain/keeper/msg_server_domain.go:71-75 | and only such strings split in two |
| Registry.CreateKeepsOk | x/dnsblockchain/keeper/msg_server_domain.go:18-161 | a creation takes the next id, keeps index and id map inverse, and changes no other domain's name |
| Registry.DeleteKeepsOk | x/dnsblockchain/keeper/msg_server_domain.go:276-319 | a deletion takes the domain out of both stores |
| Registry.HandleKeepsOk | x/dnsblockchain/keeper/msg_server_domain.go:18-409 | every message keeps the invariant and the history |
| RegistryEffects.UpdateEffect | x/dnsblockchain/keeper/msg_server_domain.go:189-263 | an accepted update stores a non-empty owner and a non-empty list of records, keeps the rest of the record and every other store |
| RegistryEffects.UpdateAccepted | x/dnsblockchain/keeper/msg_server_domain.go:163-250 | exactly when an update is accepted |
| RegistryEffects.HeartbeatEffect | x/dnsblockchain/keeper/msg_server_domain.go:321-359 | accepted exactly from creator or owner, and then the expiration is one year from now and nothing else changes |
| RegistryEffects.TransferEffect | x/dnsblockchain/keeper/msg_server_domain.go:361-409 | accepted exactly from the creator to a valid address, which becomes owner and creator, and nothing else changes |
| RegistryEffects.DeleteEffect | x/dnsblockchain/keeper/msg_server_domain.go:276-319 | accepted exactly from the owner, and then the domain and its name are gone and nothing else changes |
| RegistryEffects.FeeUpdate | x/dnsblockchain/keeper/msg_update_params.go:12-33 | accepted exactly from the authority with valid coins, which become the fee |
| RegistryEffects.FeeCanBePaid | x/dnsblockchain/keeper/msg_server_domain.go:40-51 | the fee is charged exactly when the payer has it |
| RegistryEffects.CreateAccepted | x/dnsblockchain/keeper/msg_server_domain.go:18-117 | exactly when a creation is accepted |
| RegistryEffects.CreateEffect | x/dnsblockchain/keeper/msg_server_domain.go:119-146 | the record field by field, its index entry, the counter, and every balance |
| RegistryEffects.RecordsExactly | x/dnsblockchain/keeper/msg_server_domain.go:100-117 | records are valid exactly when all are there, named, and list IP addresses only |
| RegistryEffects.BadRecordRefused | x/dnsblockchain/keeper/msg_server_domain.go:100-117 | one bad record, in either list of addresses, spoils a creation and an update |
| RegistryEffects.ErrorsAreTrue | x/dnsblockchain/keeper/msg_server_domain.go:18-409 | every error names something really wrong with the message |
| RegistryEffects.AddPermittedTldExactly | x/dnsblockchain/keeper/keeper.go:75-107 | which labels can be opened, and that exactly the label is added |
| RegistryEffects.PermittedAfterAdd | x/dnsblockchain/keeper/keeper.go:114-122 | afterwards exactly the spellings of the label are permitted besides the old ones |
| RegistryEffects.EmptyLookup | x/dnsblockchain/keeper/query_domain.go:60-66 | only the empty name is an invalid argument |
| Registry.AccessControl | x/dnsblockchain/keeper/msg_server_domain.go:163-409 | only the owner deletes, only the creator changes hands, only the two change anything, and one message touches one domain |
| Registry.CreatedName | x/dnsblockchain/keeper/msg_server_domain.go:70-87 | a created name is lower-case label.tld, both sides non-empty and dot-free, its TLD permitted |
| Registry.ExpiredNameStaysTaken | x/dnsblockchain/keeper/msg_server_domain.go:89-92 | in a state whose index holds the name it cannot be registered, expired or not (over runs: ChainRegistry.NameStaysTaken) |
| Registry.ChargeFeeEffect | x/dnsblockchain/keeper/msg_server_domain.go:37-52 | the payer loses exactly the fee and so does the supply |
| Registry.LookupIsScan | x/dnsblockchain/keeper/query_domain.go:59-98 | the lookup answers what a scan for the normalised name would; the inconsistency branch is dead |
| Registry.CreatedIsFound | x/dnsblockchain/keeper/query_domain.go:59-98 | a created domain is found at once by any spelling of its name, exactly as created |
| Registry.DeleteUndoesCreate | x/dnsblockchain/keeper/msg_server_domain.go:276-319 | the owner's deletion restores both stores; only the id counter has moved |
| Registry.TransferIsComplete | x/dnsblockchain/keeper/msg_server_domain.go:361-409 | right after a transfer every message on the domain by anyone but the new owner fails (over runs: ChainRegistry.TransferLasts) |
| Registry.AnyNumberOfRecords | x/dnsblockchain/keeper/msg_server_domain.go:97-117 | where one list of records is accepted, another is if and only if it is not empty and its records are valid, of whatever length |
| Registry.OnlyCreationIsPaid | x/dnsblockchain/keeper/msg_server_domain.go:163-409 | every accepted message but a creation leaves the whole bank unchanged |
| RegistryTlds.SpacedNameIsRegistered | x/dnsblockchain/keeper/msg_server_domain.go:70-87 | "foo.web3 " is registered as it stands although "web3 " is not permitted |
| RegistryTlds.RegisteredTld | x/dnsblockchain/keeper/msg_server_domain.go:70-87 | with permitted labels in normal form, the label of an accepted name is itself permitted if and only if it is free of surrounding spaces |
| RegistryTlds.RegisteredNameTld | x/dnsblockchain/keeper/keeper.go:114-122 | the same for any registered name |
| RegistryTlds.AddPermittedTldKeepsNormal | x/dnsblockchain/keeper/keeper.go:75-107 | opened labels are in normal form |
| RegistryTlds.MatchableTld | x/dnsblockchain/keeper/keeper.go:114-122 | a permitted label is ever looked up if and only if it is in normal form |
| RegistryTlds.GenesisTlds | x/dnsblockchain/keeper/genesis.go:41-49 | the import gives labels in normal form exactly when no space surrounds them |
| RegistryTlds.SpacedGenesisTld | x/dnsblockchain/keeper/genesis.go:41-49 | a valid genesis with the label "web3 ", under which nothing can be registered |
| ChainRegistry.RecordStays | x/dnsblockchain/keeper/msg_server_domain.go:163-409 | through every run a domain's record and index entry stay until its creator or owner signs an accepted message about it |
| ChainRegistry.TransferLasts | x/dnsblockchain/keeper/msg_server_domain.go:361-409 | through every run after a transfer the record stays as left until the new owner signs something |
| ChainRegistry.NameStaysTaken | x/dnsblockchain/keeper/msg_server_domain.go:89-92 | through every run a name cannot be registered again, and every spelling finds its domain, until that domain is deleted |
| ChainRegistry.RunKeepsNormal | x/dnsblockchain/keeper/keeper.go:75-107 | permitted labels stay in normal form through every run |
| ChainRegistry.RegisteredUnderPermitted | x/dnsblockchain/keeper/msg_server_domain.go:70-87 | from a genesis with normal labels, every name registered in a run has its own label permitted exactly when no space surrounds it |
| Registry.NoDuplicateNames | x/dnsblockchain/keeper/msg_server_domain.go:89-92 | no two domains share a non-empty name |
| Registry.AddPermittedTldKeepsOk | x/dnsblockchain/keeper/keeper.go:75-107 | opening a TLD keeps the invariant and touches no domain |
| Registry.RegistryHistoryTransitive | x/dnsblockchain/keeper/msg_server_domain.go:119-146 | permanence of names, ids and TLDs composes over steps |
| RegistryGenesis.LoadHolds | x/dnsblockchain/keeper/genesis.go:16-35 | the import holds exactly the listed domains and names |
| RegistryEffects.ImportKeepsLast | x/dnsblockchain/keeper/genesis.go:16-35 | of any list, valid or not, the last domain of each id and of each normal name is kept |
| RegistryEffects.ImportAddsNothing | x/dnsblockchain/keeper/genesis.go:16-35 | and nothing else is, no empty name being indexed |
| RegistryEffects.ImportRest | x/dnsblockchain/keeper/genesis.go:37-50 | the fee, the count and the labels, trimmed of dots and in lower case |
| RegistryGenesis.InitIsOk | x/dnsblockchain/keeper/genesis.go:13-51 | a well-formed genesis gives a correct index |
| RegistryGenesis.GenesisNeedsValidNames | x/dnsblockchain/types/genesis.go:16-38 | of the states Validate accepts, exactly those with normal, unrepeated names give one |
| RegistryGenesis.RepeatedNameBreaksIndex | x/dnsblockchain/types/genesis.go:16-38 | an accepted genesis whose index is wrong |
| RegistryGenesis.GenesisRoundTrip | x/dnsblockchain/keeper/genesis.go:54-86 | an export of a correct state passes Validate and imports to the very same stores, the index rebuilt |
| RegistryGenesis.ImportExport | x/dnsblockchain/keeper/genesis.go:13-86 | a well-formed genesis in id order exports its domains unchanged |
| RegistryKeeper.Keeper.IsTldPermitted | x/dnsblockchain/keeper/keeper.go:114-122 | membership of the space-trimmed lower-case label |
| RegistryKeeper.Keeper.AddPermittedTld | x/dnsblockchain/keeper/keeper.go:75-107 | the new set, or the error of the first failing check and no change |
| RegistryKeeper.Keeper.CheckRecords | x/dnsblockchain/keeper/msg_server_domain.go:97-117 | true exactly when every record is there, named, and lists only IP addresses |
| RegistryKeeper.Keeper.CollectFee | x/dnsblockchain/keeper/msg_server_domain.go:37-52 | the fee is sent to the module and burned, and what is left behind when either fails |
| RegistryKeeper.Keeper.CreateDomain | x/dnsblockchain/keeper/msg_server_domain.go:18-161 | the whole new state, or the error of the first failing check, the stores as they were, and the bank with the fee charged unless an address was invalid |
| RegistryKeeper.Keeper.UpdateDomain | x/dnsblockchain/keeper/msg_server_domain.go:163-274 | the same for updates by creator and by owner |
| RegistryKeeper.Keeper.DeleteDomain | x/dnsblockchain/keeper/msg_server_domain.go:276-319 | the same for deletion |
| RegistryKeeper.Keeper.HeartbeatDomain | x/dnsblockchain/keeper/msg_server_domain.go:321-359 | the same for renewal |
| RegistryKeeper.Keeper.TransferDomain | x/dnsblockchain/keeper/msg_server_domain.go:361-409 | the same for transfer |
| RegistryKeeper.Keeper.UpdateParams | x/dnsblockchain/keeper/msg_update_params.go:12-33 | only the authority sets the fee |
| RegistryKeeper.Keeper.Deliver | x/dnsblockchain/keeper/msg_server_domain.go:18-409 | a message takes effect as a whole or not at all, the fee included |
| RegistryKeeper.Keeper.InitGenesis | x/dnsblockchain/keeper/genesis.go:13-51 | the import loops build the state of the import function |
| RegistryKeeper.Keeper.WalkDomains | x/dnsblockchain/keeper/genesis.go:62-68 | every domain once, by ascending id |
| RegistryKeeper.Keeper.WalkTlds | x/dnsblockchain/keeper/genesis.go:75-81 | every permitted TLD once |
| RegistryKeeper.Keeper.ExportGenesis | x/dnsblockchain/keeper/genesis.go:54-86 | an export of the current stores |
| RegistryKeeper.Validate | x/dnsblockchain/types/genesis.go:16-38 | true exactly for distinct ids below the count, distinct TLDs and a valid fee |
| MapTotals.TotalRemove | x/dao/keeper/end_blocker.go:57-72 | a sum over a store does not depend on the order of the walk |
| ChainProposals.VotingWindow | x/dao/keeper/msg_server.go:152-166 | over every run after a submission at h: open up to h + period, where exactly new voters with power can vote; settled by the block at h + period + 1; never open later |
| ChainProposals.RunOpen | x/dao/keeper/end_blocker.go:33-38 | a proposal is open at exactly the heights up to its end |
| ChainProposals.StepDecided | x/dao/keeper/end_blocker.go:83-234 | every step keeps finished proposals rejected exactly when their stored votes do not win |
| ChainProposals.RunDecided | x/dao/keeper/end_blocker.go:83-234 | so does every run |
| ChainProposals.FinishedAsEarned | x/dao/keeper/end_blocker.go:83-234 | in every reachable state a finished proposal is executed or failed if and only if its stored totals earned it, and never without a YES while a share of YES is asked for |
| Chain.NextOk | x/dao/keeper/end_blocker.go:21-249 | every step of either module keeps the whole invariant and adds to the books what it should |
| Chain.InitialIsGood | x/dnsblockchain/keeper/genesis.go:13-51 | the chain starts with the invariant and with nothing in escrow |
| Chain.RunKeepsOk | x/dao/keeper/end_blocker.go:178-232 | escrow solvency, statuses, lots, votes, index and permanence in every reachable state |
| Chain.RunAccounts | x/dao/keeper/end_blocker.go:191-232 | between any two states of a run only fees and gifts change the books |
| Chain.Books | x/dao/keeper/end_blocker.go:191-232 | supply and the module account's balance after any run, so each deposit is settled once |
| Chain.Finality | x/dao/keeper/msg_server.go:221-262 | a finished proposal keeps record, votes and matching totals through every run |
| Chain.AddTldFate | x/dao/keeper/msg_server.go:103-123 | a winning AddTld fails exactly when its label became permitted after submission; either way the label is permitted in every later state |
| Chain.RunNames | x/dnsblockchain/keeper/msg_server_domain.go:70-87 | names registered so far keep their form and a permitted TLD |
| Chain.RegisteredNames | x/dnsblockchain/keeper/msg_server_domain.go:70-87 | every domain created in a run is label.tld in lower case under a permitted TLD |
| Chain.ReachableExport | x/dnsblockchain/keeper/genesis.go:54-86 | an export of any reachable state is valid and imports to that state |
| Chain.IdsAreNotReused | x/dnsblockchain/keeper/msg_server_domain.go:119-146 | an id once given out and free never returns, and a domain's name never changes |
| App.ChainApp.constructor | x/dnsblockchain/keeper/genesis.go:13-51 | the objects start in the imported state |
| App.ChainApp.Apply | x/dao/keeper/end_blocker.go:21-249 | one step of the objects is one step of a run |
| App.ChainApp.Play | x/dao/keeper/end_blocker.go:21-249 | any list of steps takes the objects through that run |
| App.GenesisIsInitial | x/dnsblockchain/keeper/genesis.go:13-51 | valid parameters, a sound bank and a well-formed genesis give an initial state |

## Left out

Library behaviour, stated as definitions because its code is not part of this model:

- decimals: `LegacyDec` of cosmossdk.io/math v1.5.3 as integers scaled by 10^18 with the rounding its operations have; the 256-bit overflow panics of `math.Int` and `LegacyDec` are not modelled.
- bank: balances, supply, missing funds and blocked recipients; vesting and locked coins, send restrictions, and minting, burning or transfers by other modules are not modelled, and a transfer of several denominations fails as a whole.
- coins: maps from denomination to amount, so unsorted or repeated entries of a malformed list and `ValidateDenom` are not modelled.
- address codec, `net.ParseIP` and `AddDate(1,0,0)`: arbitrary functions; nothing is claimed about expiry growing with time.
- stores: plain maps whose operations do not fail, so the branches for store errors are absent; lots, votes and TLDs are walked in any order.
- `Any`: absent, undecodable or decoded content; byte equality of two contents is equality of values.
- strings of names: ASCII case and ASCII white space only.

Of the code that is modelled:

- DomainPb.Domain.Unmarshal: the errors "negative length" and "unexpected end" are told apart by the code but are one kind, Truncated, in the function it is proved against; what the object holds after a failed parse is not stated.
- DomainPb.NSRecordWithIP.Unmarshal: the same.
- DomainPb.ScanBytes: the two errors are one kind here too, since which of them is returned depends on where the slice lies in the whole input.
- DomainPb.SkipValue: the same.
- DomainPb.SkipBytes: the same.
- DomainPb.ScanBytesField: the same.
- DomainPb.SkipDomain: the same.
- DomainPb.SkipUnknown: the same.
- DomainPb.Domain.AppendRecord: what the new last record holds after a failed parse is not stated.
- Varint.ScanVarint: the bitwise or of a new group of bits is written as a sum, the operands sharing no bit.
- DaoKeeper.Keeper.Process: the branches for a failed conversion to decimals, a failed unpacking of stored content and a failed walk are absent, as is the test for a zero snapshot inside the branch for a positive one.
- Chain.RunKeepsOk: runs in which a uint64 counter or `height + VotingPeriodBlocks` overflows are not covered, nor proposals by module accounts.
- ChainPower.PowerFallsOverRun: for decay durations below 2^63 only, since lots above do not decay (VotingPower.DecayNeedsInt64).
- ChainCoinTurnout.CoinTurnoutFitsExactly: the if-and-only-if is for a proposal while no other active one owes users a deposit of voting tokens; with such a deposit and no token in a user's hands, whether one gets there in time depends on how the other proposals end, and is not decided.
- ChainLotTurnout.TurnoutBound: an upper bound for decay durations below 2^63, not shown to be reached.
- DaoTypes.GenesisParams: `ValidateDenom` and the checks of the validator reward are not part of the validation.

Not modelled, because it would only add easy members or is plumbing:

- the export of the DAO's genesis, which has parameters only; the queue of active proposals, which no step uses; the validator reward parameter.
- the other queries and their pagination, events and logging.
- the other generated messages, which follow the same generator, `MarshalTo` and `sozDomain`.
- `app/` beyond the list of blocked accounts, `cmd/`, `docs/`, the command line, simulation and module wiring.
