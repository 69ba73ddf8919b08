# Verification of the coin daemon's core

Dafny models of the consensus and bookkeeping core of a proof-of-work and
proof-of-stake coin daemon, with proofs of what that code promises. Each
module follows one source component. Code that changes state in loops is a
method or a class with fields, proved against a function that says what it
computes; the lemmas then state what is promised about that function.

| module | component |
|---|---|
| `Bytes`, `Sorting`, `BigNum`, `Compact` | byte strings, sorting, script numbers, compact targets |
| `ScriptCodec`, `Interpreter`, `SigOps`, `MultiSig` | scripts, the stack machine, static counting, multisignatures |
| `ScriptLaws`, `Conditionals`, `ShortScripts`, `Payments` | what each operation does in any script, branches, whole scripts, who can spend the standard outputs |
| `Ledger`, `TxDb`, `BlockChecks`, `BlockRules`, `Undo`, `Supply` | spent-output index, connecting and disconnecting blocks, the rules of a block, money supply |
| `Assembly`, `Template` | block assembly, and why templates connect |
| `ChainIndex` | block tree, reorganisation, best chain, lookup by height |
| `AddrTables`, `AddrChoice`, `AddrMan`, `AddrCheck`, `AddrFile`, `AddrStream` | address manager, its self-check, saving and loading |
| `Merkle`, `MedianTime`, `StakeModifier`, `Retarget` | Merkle branches, median time past, stake modifier, difficulty |
| `Framing`, `Delivery` | message framing on a fragmented byte stream, and what can be delivered from any |
| `Base58` | text encoding of keys and addresses |

The main results are `SigOps.SigOpCountBoundsEveryRun` and
`SigOps.VerifyScriptIsCounted`, `Payments.PayToKeyHashLaw`,
`Payments.PayToScriptHashLaw` and `Payments.MultisigLaw`,
`Conditionals.ChosenBranchRuns`, `MultiSig.ScanDecidesAssignment`,
`BlockRules.BlockConnectsIff` with `BlockRules.ConnectedBlockSpends` and
`BlockRules.NoDoubleSpend`,
`Undo.BlockUndone`, `Supply.SupplyIsUnspentTotal` with `Supply.MoneyIsCapped`, `Template.TemplateConnects`,
`ChainIndex.ChainState.SetBestChain`, the consistency kept by every operation of
`AddrMan.CAddrMan`, `AddrFile.RoundTrip`, `Merkle.OnlyTheBranchChecks`,
`StakeModifier.DrawIsFair` with `StakeModifier.EveryPickIsPreferred`,
`Framing.FragmentationIsInvisible` with `Delivery.OnlyFramesAreHandled`,
`MedianTime.MedianNeverDecreases`, `Retarget.WaveBounds` and `Base58.DecodeEncode`
with `Base58.EncodeDecode`.

Hash functions, signature checks and reading transactions back from the block
files are parameters; random numbers are arbitrary choices; clocks are arguments.
`dafny verify dfyconfig.toml` checks the whole project.

Some properties hold only under a condition, which is then proved to be exact:

- Disconnecting a block restores the unspent outputs if and only if the block
  replaced no entry that still had one (`Undo.BlockUndone`); the BIP 30 rule
  implies it (`Undo.Bip30MakesReversible`).
- After a best-chain switch `IsInMainChain` is exact if and only if every inner
  connect succeeded, because a failed one only ends the loop
  (`ChainIndex.ChainState.SetBestChain`; `ChainIndex.FailedPostponement` is a
  switch where one fails).
- The recorded supply is the unspent total as long as no connect replaces an
  entry that still has an unspent output; one that does puts them apart by
  exactly the value replaced (`Supply.ConnectBreaksBy`).
- The time span of DarkGravityWave telescopes if and only if no zero block time
  is followed by a non-zero one (`Retarget.SpanTelescopes`). Also, 24 blocks
  exactly on schedule span 23 intervals, so the target falls
  (`Retarget.OnScheduleFalls`).
- MAX_MONEY is described as the maximum number of coins; that is proved for
  chains without proof of stake (`Supply.MoneyIsCapped`). For mixed chains the
  bound proved adds what the coinstakes spend (`Supply.MoneyIsBounded`).
- `SelectTried` records a position before its own swap moves the entry there. It
  selects the oldest inspected entry if and only if that entry was drawn from
  its own place (`AddrChoice.SelectsOldestIff`); `AddrChoice.NewerGivesWay` is a
  bucket where a newer one is selected.

## Model

| member | source | states |
|---|---|---|
| `BigNum.CastToBool` | src/script.cpp:44-57 | True exactly when the number the bytes encode is non-zero, so also false for negative zero and zeros of any length |
| `BigNum.TruthIsNonZero` | src/script.cpp:44-57 | The byte-wise test and the numeric value agree on every byte string |
| `BigNum.VchRoundTrip` | src/bignum.h:255-280 | `setvch` after `getvch` is the identity on all integers and `getvch` writes a minimal encoding |
| `BigNum.MinimalIsUnique` | src/bignum.h:255-280 | Every minimal encoding is the one `getvch` writes, so minimal encodings are unique |
| `BigNum.CastIsValue` | src/script.cpp:36-42 | Operands of at most four bytes are cast to exactly their value; dropping leading zeros loses nothing |
| `Compact.RoundedIs` | src/bignum.h:282-305 | `SetCompact(GetCompact(x))` is x with everything below the third most significant byte cleared |
| `Compact.RoundingError` | src/bignum.h:282-305 | The encoded target is never above x, less than one part in 2^15 below it, and exact up to three bytes |
| `Compact.RoundingIsIdempotent` | src/bignum.h:282-305 | Encoding a decoded target changes nothing more |
| `Compact.RoundingKeepsBits` | src/bignum.h:282-305 | A decoded target has the very bits it came from |
| `Compact.RoundingIsMonotone` | src/bignum.h:282-305 | A larger target never decodes to a smaller one, across sizes too |
| `ScriptCodec.PushReadsBack` | src/script.h:354-379 | What `operator<<` pushed, `GetOp2` reads back whole in all four length forms, whatever follows |
| `ScriptCodec.ReadIsLocal` | src/script.h:417-468 | Reading an operation depends only on the bytes of that operation |
| `ScriptCodec.OpsRebuild` | src/script.h:417-468 | A script is the concatenation of its operations and its unreadable tail |
| `ScriptCodec.DeleteIsFilter` | src/script.h:486-503 | For every script and one-operation pattern, `FindAndDelete` is filtering the operation list, tail kept |
| `ScriptCodec.DeletedOps` | src/script.h:486-503 | The result parses to exactly the remaining operations |
| `ScriptCodec.DeleteIdempotent` | src/script.h:486-503 | Deleting twice is deleting once |
| `ScriptCodec.PushIsSingleOp` | src/script.h:354-379 | A push is a one-operation pattern, so the filter law covers signature deletion |
| `ScriptCodec.EncodeOpN` | src/script.h:471-484 | `DecodeOP_N` undoes `EncodeOP_N` for 0 to 16 |
| `ScriptCodec.CScript.Push` | src/script.h:354-379 | Appends the shortest length form and the data |
| `ScriptCodec.CScript.GetOp` | src/script.h:417-468 | Succeeds exactly when an operation is readable at pc, returns it and the position after it |
| `ScriptCodec.CScript.FindAndDelete` | src/script.h:486-503 | The erase loop computes the deletion of every occurrence at an operation boundary and counts them |
| `Interpreter.MultiSigLoop` | src/script.cpp:980-999 | The loop over stack positions computes the greedy scan, and counts its signature checks |
| `Interpreter.CheckMultiSig` | src/script.cpp:942-1015 | Argument limits, signature deletion, scan and the extra item consumed, as one state change |
| `Interpreter.EvalScript` | src/script.cpp:241-1034 | The interpreter loop computes the stack machine's run: result, final stack and number of signature checks |
| `ScriptLaws.PictureLaw` | src/script.cpp:407-586 | Anywhere in a script, each of the 13 rearranging operations leaves the stack its picture (x1 x2 -- x2 x1) draws, and fails exactly on too few items or a broken limit |
| `ScriptLaws.PicturesCompose` | src/script.cpp:407-586 | A script of such operations computes the composition of their pictures on any stack, or fails where items are missing or 1000 are exceeded |
| `ScriptLaws.PairsThatCancel` | src/script.cpp:407-586 | SWAP twice, 2SWAP twice, and a copy that is dropped again, leave every stack as it was |
| `ScriptLaws.RotationsCancel` | src/script.cpp:455-563 | ROT three times and 2ROT three times leave every stack as it was |
| `ScriptLaws.Abbreviations` | src/script.cpp:417-586 | NIP, TUCK and 2DUP run on every stack exactly as SWAP DROP, SWAP OVER and OVER OVER, failures included |
| `ScriptLaws.TopItemLaw` | src/script.cpp:365-899 | VERIFY goes on exactly with a non-zero number on top; IFDUP, SIZE, TOALTSTACK and the hashes leave what they promise |
| `ScriptLaws.NoOperandLaw` | src/script.cpp:325-504 | The NOPs change nothing, DEPTH pushes the number of items, FROMALTSTACK moves an item back or fails on an empty alternative stack |
| `ScriptLaws.EqualLaw` | src/script.cpp:697-725 | EQUAL answers whether the two top items are the same bytes; EQUALVERIFY goes on only if they are |
| `ScriptLaws.UnaryLaw` | src/script.cpp:729-757 | 1ADD, 1SUB, NEGATE, ABS, NOT and 0NOTEQUAL by the number the top item encodes, failing on more than four bytes |
| `ScriptLaws.BinaryLaw` | src/script.cpp:759-846 | All fourteen two-number operations by the numbers of the two top items, the left one below; NUMEQUALVERIFY goes on only on equal numbers |
| `ScriptLaws.WithinLaw` | src/script.cpp:848-866 | WITHIN includes the lower bound and excludes the upper one |
| `ScriptLaws.PickRollLaw` | src/script.cpp:535-551 | ROLL moves exactly the item with k items above it, PICK copies it, everything else stays in place |
| `ScriptLaws.PickRollFails` | src/script.cpp:535-551 | Both fail on a depth that is too long, negative, or not below the number of items |
| `ScriptLaws.TooFewItemsFails` | src/script.cpp:365-880 | Every operation fails with fewer items than it takes |
| `ScriptLaws.UnknownFails` | src/script.cpp:272-294 | Reserved, disabled and unknown operations fail wherever they are executed |
| `ScriptLaws.SmallNumberLaw` | src/script.cpp:297-321 | OP_1NEGATE and OP_1 to OP_16 push their number and do not count as operations |
| `Conditionals.OkIsBlock` | src/script.cpp:258-294 | A run succeeds, on any stack, only of a script within all limits whose conditionals nest and close, in skipped branches too |
| `Conditionals.SkipBlock` | src/script.cpp:258-362 | Code that is not executed changes nothing but the operation count, whatever conditionals it nests |
| `Conditionals.RunInside` | src/script.cpp:258-362 | A block without signature operations does inside any larger script what it does alone |
| `Conditionals.IfElseRuns` | src/script.cpp:330-362 | An IF or NOTIF inside any script runs exactly the branch its operand chooses, as that branch runs alone, then what follows ENDIF |
| `Conditionals.ChosenBranchRuns` | src/script.cpp:330-362 | A script that is one IF ELSE ENDIF evaluates to its chosen branch on every stack, failures included |
| `ShortScripts.NumberFits` | src/script.cpp:34-42 | An operand holds exactly the numbers from -(2^31 - 1) to 2^31 - 1 |
| `ShortScripts.ArithmeticScripts` | src/script.cpp:759-846 | Pushing any two such numbers and then an operation leaves their sum, difference, minimum, maximum or comparison |
| `ShortScripts.RollAndPickScripts` | src/script.cpp:535-551 | Pushing items and a depth, then ROLL or PICK, moves or copies exactly that item |
| `ShortScripts.AltStackRoundTrip` | src/script.cpp:389-404 | TOALTSTACK and FROMALTSTACK leave every stack as it was |
| `ShortScripts.NegateTwice` | src/script.cpp:733-757 | NEGATE twice gives back the number in its shortest form |
| `ShortScripts.AddAndTakeOne` | src/script.cpp:729-757 | 1ADD then 1SUB gives back the number, except at 2^31 - 1, where the five-byte sum is refused |
| `SigOps.GetSigOpCount` | src/script.cpp:1773-1795 | The counting loop computes the sum over operations, last opcode remembered, stopping at unreadable bytes |
| `SigOps.AccurateIsFewer` | src/script.cpp:1773-1795 | The accurate count never exceeds the historical one |
| `SigOps.SigOpCountBoundsEveryRun` | src/script.cpp:241-1034 | For any script, any stack and any signature oracle: checks made <= accurate count <= historical count, and <= 201 |
| `SigOps.IsPushOnly` | src/script.h:528-540 | True exactly for readable operations up to OP_16 all the way to the end |
| `SigOps.GetSigOpCountP2sh` | src/script.cpp:1797-1819 | Computes the count from the last operand of a push-only scriptSig, zero for any other scriptSig |
| `SigOps.HashNeedsOperand` | src/script.cpp:1571-1585 | A script-hash output never succeeds on an empty stack, so `stackCopy` has a top item to pop |
| `SigOps.RedeemRunIsCounted` | src/script.cpp:1571-1585 | The third run of `VerifyScript` makes at most `scriptPubKey.GetSigOpCount(scriptSig)` checks |
| `SigOps.VerifyScriptIsCounted` | src/script.cpp:1554-1588 | All three runs together stay within what is counted statically from the two scripts |
| `SigOps.StrictImpliesLoose` | src/script.cpp:1554-1588 | Whatever is accepted with script-hash validation is accepted without it |
| `Payments.CheckSigLaw` | src/script.cpp:907-940 | CHECKSIG answers for the script from the last separator on without the signature; CHECKSIGVERIFY goes on only on yes |
| `Payments.SeparatorLaw` | src/script.cpp:900-905 | After CODESEPARATOR signatures cover what follows it |
| `Payments.PayToKeyHashLaw` | src/script.cpp:1554-1570 | Whatever the spending script, a key-hash output is spent if and only if it leaves a key with that hash on top and below it a signature that key verifies |
| `Payments.SignatureAndKeySpend` | src/script.cpp:1554-1570 | In particular signature and key spend it if and only if both fit, the hash matches and the signature verifies |
| `Payments.PayToKeyLaw` | src/script.cpp:1554-1570 | A key output is spent if and only if a signature of that key is left on top |
| `Payments.PayToScriptHashLaw` | src/script.cpp:1571-1585 | A script-hash output is spent if and only if pushes alone leave a top item that hashes to its 20 bytes and, run as a script on the items below, is accepted |
| `Payments.RedeemRunsOnlyOnMatch` | src/script.cpp:1571-1585 | The third run happens only after the top item was found to hash to the output's 20 bytes |
| `Payments.RedeemScriptSpends` | src/script.cpp:1571-1585 | In particular arguments and redeem script spend it if and only if they fit, the hash matches and the redeem script accepts the arguments |
| `Payments.CheckMultiSigLaw` | src/script.cpp:942-1015 | CHECKMULTISIG answers whether the signatures can be given to different verifying keys in order, and consumes one extra item; the VERIFY form goes on only if so |
| `Payments.KeyCountFails` | src/script.cpp:945-960 | A number of keys outside 0 to 20, over the operation limit or over the stack fails |
| `Payments.SignatureCountFails` | src/script.cpp:961-970 | So does a number of signatures outside 0 to the number of keys, or no extra item |
| `Payments.MultisigLaw` | src/script.cpp:1554-1570 | A multisignature output is spent if and only if the required number of items on top are signatures of its keys in key order, above one more item |
| `Payments.MultisigCosts` | src/script.cpp:1773-1795 | Such an output counts for exactly its number of keys, or 20 by the historical count |
| `Payments.KeyHashCosts` | src/script.cpp:1773-1795 | A key-hash output counts for one by both counts |
| `Payments.RedeemCosts` | src/script.cpp:1797-1819 | Spending a script-hash output counts for exactly what its redeem script counts |
| `MultiSig.ScanDecidesAssignment` | src/script.cpp:980-999 | The greedy loop succeeds if and only if a strictly order-preserving assignment of all signatures to verifying keys exists |
| `MultiSig.PushAllRuns` | src/script.cpp:1651-1657 | Running `PushAll(values)` leaves exactly the values, and succeeds if and only if size and count limits hold |
| `MultiSig.PushValues` | src/script.cpp:1651-1657 | The loop builds the concatenation of the pushes |
| `MultiSig.CombinedIsAccepted` | src/script.cpp:1659-1712 | A combined scriptSig with the required number of signatures passes `VerifyScript` against its multisig output when deletion leaves the script unchanged |
| `MultiSig.MatchSignature` | src/script.cpp:1683-1695 | Gives a signature to the first key without one that it verifies for |
| `MultiSig.MatchSignatures` | src/script.cpp:1680-1696 | In whatever order the set is visited: recorded signatures verify, none serves two keys, and an unused one verifies for no key left without |
| `MultiSig.AllMatched` | src/script.cpp:1680-1696 | If no signature verifies for two keys, exactly the keys some signature verifies for get one |
| `MultiSig.WriteSignatures` | src/script.cpp:1697-1711 | The script holds the first required matched signatures in key order, padded with OP_0 |
| `MultiSig.CombineMultisig` | src/script.cpp:1659-1712 | Signatures in an order-preserving assignment; if none verifies for two keys, as many as can be had up to the required number, and enough of them give an accepted script |
| `Undo.SpendMarks` | src/main.cpp:1693-1731 | Connecting inputs sets exactly the named spent entries, each of which was free and named once |
| `Undo.TxUndone` | src/main.cpp:1503-1536 | Disconnecting a transaction restores every entry but its own, with later transactions already gone |
| `Undo.TxsUndone` | src/main.cpp:1827-1849 | Disconnecting a list last to first undoes connecting it, also when its transactions spend each other |
| `Undo.BlockUndone` | src/main.cpp:1827-1971 | After `ConnectBlock`, `DisconnectBlock` gives back the same unspent outputs if and only if the block replaced no entry with an unspent output, and the same index when no txid pre-existed |
| `Undo.Bip30MakesReversible` | src/main.cpp:1862-1895 | The duplicate-transaction rule implies that condition for every block it is applied to |
| `TxDb.FetchInputs` | src/main.cpp:1539-1613 | Succeeds exactly when every input is indexed, readable and in range; reads pending changes before the index |
| `TxDb.CheckAmounts` | src/main.cpp:1664-1688 | The first loop decides maturity and that each input value and running total is in money range |
| `TxDb.SpendInputs` | src/main.cpp:1693-1731 | The second loop refuses conflicts and bad signatures and otherwise marks exactly the inputs |
| `TxDb.ConnectTxInputs` | src/main.cpp:1656-1775 | The method accepts exactly what the specification accepts and leaves the same pending changes |
| `TxDb.ConnectOne` | src/main.cpp:1881-1945 | One turn of the block loop: duplicate rule, signature-operation limits, inputs, totals |
| `TxDb.CTxDB.ConnectBlock` | src/main.cpp:1851-1971 | Accepts exactly the valid blocks; writes their changes, or nothing on failure |
| `BlockRules.ConnectsIffSpends` | src/main.cpp:1656-1775 | `ConnectInputs` accepts if and only if there are previous transactions, stored where the index says, of which each input spends the unspent, mature output it names by a script that output accepts, with valid amounts and value out at most value in (twice it for a coinstake) |
| `BlockRules.TxConnectsIff` | src/main.cpp:1881-1945 | One turn of the block loop accepts exactly the transactions that spend by those rules within the signature-operation limit and repeat no txid with unspent outputs |
| `BlockRules.TxMoves` | src/main.cpp:1881-1945 | It sets exactly the named outputs spent, creates the transaction's own, and adds its fee and signature operations |
| `BlockRules.BlockConnectsIff` | src/main.cpp:1851-1960 | A block connects if and only if it is well formed, each transaction follows the rules on what the ones before it left, and the coinbase pays at most subsidy and fees |
| `BlockRules.ConnectedBlockSpends` | src/script.cpp:1637-1649 | In a connected block every input of every transaction but the coinbase is accepted by the script of the very output it names, of the transaction with the hash it names; nothing younger than a hundred blocks that was minted is spent; value out is at most value in, or twice it |
| `BlockRules.BadInputIsRefused` | src/main.cpp:1656-1731 | A block with one input that is missing, spent, immature or not accepted by its output's script is refused |
| `BlockRules.OverspendingIsRefused` | src/main.cpp:1733-1771 | So is a block with a transaction that pays out more than it may |
| `BlockRules.NoDoubleSpend` | src/main.cpp:1851-1960 | No output is spent twice in a connected block to which the duplicate-transaction rule applies, within or across transactions |
| `BlockRules.CheckedAmounts` | src/main.cpp:465-517 | The outputs of a transaction that passes its checks, and their total, are valid amounts |
| `BlockChecks.CheckTx` | src/main.cpp:460-517 | The loops over outputs and inputs, with the set of outpoints seen, accept exactly the transactions that meet the context-free rules |
| `BlockChecks.UniqueHashes` | src/main.cpp:2416-2424 | Comparing the number of different txids with the number of transactions finds exactly the blocks without a repeated one |
| `BlockChecks.CheckBlockRules` | src/main.cpp:2362-2440 | The checks and loops of `CheckBlock` accept exactly the well-formed blocks |
| `BlockChecks.GetLegacySigOpCount` | src/main.cpp:388-400 | The two loops sum the historical count over all scripts of a transaction |
| `TxDb.CTxDB.DisconnectInputs` | src/main.cpp:1503-1536 | Clears the spent entries of the inputs and erases the transaction; fails when an entry is missing |
| `TxDb.CTxDB.DisconnectBlock` | src/main.cpp:1827-1849 | Disconnects from the last transaction to the first |
| `Supply.ConnectTxsTotal` | src/main.cpp:1881-1954 | Connecting transactions changes the value of unspent outputs by exactly value out minus value in minus what replaced entries still held |
| `Supply.ConnectBreaksBy` | src/main.cpp:1949-1954 | A tip connect sets recorded supply and unspent total apart by exactly the unspent value its transactions replace |
| `Supply.NothingLost` | src/main.cpp:1862-1895 | A block that replaces no entry with an unspent output loses nothing |
| `Supply.ProofOfWorkAdds` | src/main.cpp:936-946 | A connected proof-of-work block adds at most `GetBlockValue(h, 0)` to the supply |
| `Supply.ProofOfStakeAdds` | src/main.cpp:1733-1771 | A connected proof-of-stake block adds at most the value its coinstake spends |
| `Supply.StepKeepsHistory` | src/main.cpp:1851-1971 | Each tip connect or disconnect keeps the index equal to the replayed chain but for forgotten, fully spent entries |
| `Supply.SupplyIsUnspentTotal` | src/main.cpp:1949-1954 | Along every sequence of successful tip connects and disconnects from genesis in which no connect replaces an entry with an unspent output, `nMoneySupply` of the tip is the total value of unspent outputs |
| `Supply.DatedSupply` | src/main.cpp:1862-1895 | In particular when all blocks are dated after the BIP 30 switch, as the genesis block is |
| `Supply.MoneyIsBounded` | src/main.cpp:1881-1954 | On every such run the unspent outputs are worth at most the subsidies of the proof-of-work heights plus what the coinstakes of the chain spend |
| `Supply.SubsidiesCapped` | src/main.cpp:936-946 | The halving subsidies of all heights together never exceed MAX_MONEY |
| `Supply.MoneyIsCapped` | src/main.h:47-48 | Hence on a chain without proof of stake they are never worth more than MAX_MONEY |
| `Assembly.Classify` | src/main.cpp:4348-4412 | A pool transaction with an input from nowhere is reported missing; otherwise its priority, fee rate and exactly the pool transactions it waits for are found, and it is registered with each |
| `Assembly.CollectCandidates` | src/main.cpp:4341-4412 | Every eligible pool transaction is queued, or waits for exactly what it depends on; none twice, and no other one |
| `Assembly.Best` | src/main.cpp:4424-4433 | Picks an element that no other outranks under the order in force |
| `Assembly.Release` | src/main.cpp:4499-4516 | The queue gains exactly the orphans whose last dependency was this transaction, at their own rank |
| `Assembly.TryAdd` | src/main.cpp:4466-4484 | Accepts exactly when inputs, minimum fee and signature operations allow, with the resulting trial index, fee and count |
| `Assembly.CollectTxs` | src/main.cpp:4414-4518 | Terminates, takes each eligible transaction off the queue at most once, loses none: each was taken, or waits for one not in the block; each taken one is in the block or was refused by the limits in force then; the block's connect in order on the trial index. They are taken best first: none that was in the queue outranks one taken before it, by priority up to the first transaction within the limits that reaches the priority size or falls below the threshold, by fee after it |
| `Assembly.IndependentInOrder` | src/main.cpp:4414-4463 | A transaction that depends on none of the pool never outranks one that was taken before it |
| `Assembly.OrderPops` | src/main.cpp:4424-4463 | Taking the best keeps the order, whether or not this is the turn that switches to fees |
| `Assembly.MinFeeGrows` | src/main.cpp:519-546 | The minimum fee never falls as the block fills up: plain below half of the size, MAX_MONEY once it is reached |
| `Assembly.Clamp` | src/main.cpp:4282-4294 | The block size setting is kept if it lies between 1000 and MAX_BLOCK_SIZE - 1000 and moved there if not; the other two are kept unless they exceed it |
| `Template.TxAgrees` | src/main.cpp:4466-4500 | A transaction accepted on the trial index is accepted by the block's own checks |
| `Template.ListAgrees` | src/main.cpp:1881-1945 | All collected transactions connect after the coinbase, with the same fees and no more signature operations |
| `Template.TemplatePassesCheckBlock` | src/main.cpp:2362-2437 | The template satisfies the context-free block rules, size and signature-operation limits included |
| `Template.TemplateConnects` | src/main.cpp:4262-4560 | A proof-of-work template over a closed pool of new transactions is accepted by `ConnectBlock` |
| `Template.CreateNewBlock` | src/main.cpp:4262-4560 | Settings clamped, transactions collected best first, coinbase valued: the template connects wherever it is stored, and accounts for every eligible pool transaction |
| `ChainIndex.FindFork` | src/main.cpp:1977-1992 | The two-pointer walk meets no null parent and stops at the highest common ancestor |
| `ChainIndex.BlocksAbove` | src/main.cpp:1994-2003 | The blocks from a tip down to just above the fork |
| `ChainIndex.Reorganize` | src/main.cpp:1973-2054 | Disconnects and connects exactly the two branches; on commit `pnext` describes the new path, otherwise no pointer changed |
| `ChainIndex.MainChainIsPath` | src/main.h:1277-1280 | With linked pointers `IsInMainChain` holds exactly for ancestors-or-self of the tip |
| `ChainIndex.ChainState.constructor` | src/main.cpp:2102-2108 | The genesis block alone is a valid chain state |
| `ChainIndex.ChainState.AddBlock` | src/main.cpp:2282-2320 | A new leaf keeps tree, main chain and cache |
| `ChainIndex.ChainState.SetBestChain` | src/main.cpp:2071-2173 | A switch takes place unless a direct connect (without FailedStake) or the reorganisation fails; then `pnext` describes the new path if and only if every inner connect succeeded: the tip's own, or those above the reorganised part |
| `ChainIndex.ChainState.Postponed` | src/main.cpp:2117-2129 | The reorganised part ends at the lowest block of the branch whose parent has no more work than the old tip |
| `ChainIndex.ChainState.ConnectLater` | src/main.cpp:2142-2158 | The postponed connects run upwards; the path is linked to the new tip exactly when all of them succeed |
| `ChainIndex.FailedPostponement` | src/main.cpp:2155-2157 | A two-block branch whose second, postponed block fails: the switch succeeds, yet an ancestor of the tip is outside the main chain |
| `ChainIndex.ChainState.FindBlockByHeight` | src/main.cpp:883-898 | Returns the main-chain block of that height, wherever the cached pointer on that chain stands |
| `AddrTables.SwapKeeps` | src/addrman.cpp:105-123 | Swapping two positions keeps every index consistent and the statistics of every entry |
| `AddrTables.EraseKeeps` | src/addrman.cpp:155-201 | Deleting an entry from its last bucket leaves all indexes consistent |
| `AddrTables.EvictKeeps` | src/addrman.cpp:230-258 | Exchanging a new and a tried entry leaves all indexes consistent |
| `AddrMan.CAddrMan.constructor` | src/addrman.h:382-390 | The empty manager is consistent |
| `AddrMan.CAddrMan.FindIsComplete` | src/addrman.cpp:80-91 | An address is found exactly when it is in `mapAddr` |
| `AddrMan.CAddrMan.SwapRandom` | src/addrman.cpp:105-123 | Swaps two positions of `vRandom` and the stored positions with them |
| `AddrMan.CAddrMan.SelectTried` | src/addrman.cpp:125-147 | The bucket is shuffled by the draws, and the position is where the oldest inspected entry was drawn from |
| `AddrChoice.SelectsOldestIff` | src/addrman.cpp:131-146 | In a bucket without repeats the entry at that position is the oldest inspected one if and only if that one was drawn from its own place |
| `AddrChoice.NewerGivesWay` | src/addrman.cpp:131-146 | Two entries, the older one second, both draws 1: the newer entry is selected |
| `AddrMan.GivesWay` | src/addrman.cpp:230-258 | When a full bucket takes in an entry, its oldest inspected entry leaves the tried table if and only if it was drawn from its own place |
| `AddrMan.CAddrMan.ShrinkNew` | src/addrman.cpp:149-201 | Removes exactly one id from a full bucket: a terrible one with code 0 exactly when there is one, else with code 1 the oldest of the four drawn |
| `AddrMan.CAddrMan.LeaveNewBuckets` | src/addrman.cpp:207-216 | Erases an id from all new buckets; the count of erasures is its reference count, so the assertion after the loop holds |
| `AddrMan.CAddrMan.MakeTried` | src/addrman.cpp:203-259 | Keeps consistency; appends to the tried bucket when it has room, else takes the selected position of the shuffled bucket, whose entry returns to its source's bucket or the one just left |
| `AddrMan.CAddrMan.Good` | src/addrman.cpp:261-310 | Keeps consistency; marks exactly the matching entry, which ends in the tried table; otherwise nothing changes |
| `AddrMan.CAddrMan.FindNewBucket` | src/addrman.cpp:288-304 | Wherever the search starts a bucket is found, so the bail-out is unreachable |
| `AddrMan.CAddrMan.Refresh` | src/addrman.cpp:321-349 | Updates time and services of the known entry only; it may gain a bucket exactly for a newer time, when untried, below the reference limit, and if the draw allows |
| `AddrMan.CAddrMan.Create` | src/addrman.cpp:93-103 | A new id joins `mapInfo`, `mapAddr` and `vRandom`, in no bucket yet |
| `AddrMan.CAddrMan.AddToBucket` | src/addrman.cpp:358-366 | The entry ends in the bucket its source selects; another entry leaves that bucket only when it was full; other buckets are untouched |
| `AddrMan.CAddrMan.Add` | src/addrman.cpp:312-368 | Keeps consistency; true exactly for a routable unknown address, which then is present with fresh statistics in its bucket; a known one is only refreshed; an entry disappears only from that bucket, when it was full |
| `AddrMan.CAddrMan.Attempt` | src/addrman.cpp:370-387 | Keeps consistency; changes last try and attempts of the matching entry only |
| `AddrMan.CAddrMan.Connected` | src/addrman.cpp:509-527 | Keeps consistency; sets the time of the matching entry exactly when older than twenty minutes |
| `AddrMan.CAddrMan.GetAddr` | src/addrman.cpp:493-507 | Keeps consistency; returns min(2500, 23 percent) distinct entries for every random choice |
| `AddrCheck.Check` | src/addrman.cpp:434-490 | Returns 0 if and only if every test passes: the tried buckets list the tried ids once each, the new buckets hold each new id as often as counted, and entries, positions and addresses agree |
| `AddrCheck.ConsistentPasses` | src/addrman.cpp:434-490 | Every consistent state with sane time stamps passes |
| `AddrCheck.PassingMeans` | src/addrman.cpp:434-490 | Passing implies all of consistency but bucket sizes, hash placement, id numbers and stale addresses; `vRandom` is a permutation |
| `AddrFile.RenameInverse` | src/addrman.h:283-317 | The renaming of ids on load is a bijection |
| `AddrFile.RenameOrder` | src/addrman.h:283-317 | It keeps the order of new ids and of tried ids |
| `AddrFile.SavedIsGood` | src/addrman.h:279-316 | A saved consistent state overfills no bucket and names each entry in one to four buckets |
| `AddrFile.RoundTrip` | src/addrman.h:248-380 | Loading what was saved is consistent, with the same entries, reference counts, new buckets and tried buckets, ids renamed, `nLastTry` lost |
| `AddrStream.WriteNew` | src/addrman.h:283-295 | The first write loop stores the new entries in id order and assigns each its rank |
| `AddrStream.Serialize` | src/addrman.h:279-317 | The three write loops produce the file of the state |
| `AddrStream.ReadTried` | src/addrman.h:341-360 | For a saved state no tried entry is lost |
| `AddrStream.Deserialize` | src/addrman.h:318-378 | The read loops rebuild the state a file without overfull buckets describes, with `nLost` zero, for equal and for different bucket counts |
| `AddrStream.SaveAndLoad` | src/addrman.h:248-380 | Saving one manager and loading another gives a consistent one with the same entries, new and tried buckets, and no loss |
| `Merkle.FlatIsTree` | src/main.h:997-1014 | The flat array holds the duplicate-last tree exactly, row by row, ending in one root |
| `Merkle.BranchChecks` | src/main.h:1016-1045 | For every transaction index the branch leads to the root, and its length is the tree height |
| `Merkle.OnlyTheBranchChecks` | src/main.h:1032-1045 | For a collision-free hash, only the true transaction with its true branch leads to the root from that index |
| `Merkle.RootDetermines` | src/main.h:997-1014 | For a collision-free hash, lists of equal length with the same root are equal |
| `Merkle.Block.AppendParents` | src/main.h:1005-1010 | The inner loop appends the row above |
| `Merkle.Block.BuildMerkleTree` | src/main.h:997-1014 | Fills the cached array with all rows and returns the root, zero for no transactions |
| `Merkle.Block.GetMerkleBranch` | src/main.h:1016-1030 | Collects the siblings from the flat array, building it first if empty |
| `Merkle.CheckMerkleBranch` | src/main.h:1032-1045 | Climbs the branch by the bits of the index; index -1 gives zero |
| `StakeModifier.GetStakeModifierSelectionInterval` | src/kernel.cpp:60-68 | The loop sums the 64 sections |
| `StakeModifier.PickIsUnique` | src/kernel.cpp:73-117 | The selection rule determines one candidate |
| `StakeModifier.ScanPicks` | src/kernel.cpp:73-117 | The early-breaking loop finds the least selection hash among unselected candidates up to the stop time, or else the earliest unselected one; it fails only when none is left |
| `StakeModifier.EveryRoundPicks` | src/kernel.cpp:180-197 | Each of the min(64, candidates) rounds picks a new candidate by the rule |
| `StakeModifier.CandidatesAre` | src/kernel.cpp:162-178 | The sorted candidates are the window's blocks, each once, in time order |
| `StakeModifier.DrawIsFair` | src/kernel.cpp:162-226 | Bit r of the modifier is the entropy bit of the r-th pick, all other bits are zero, and the value fits 64 bits |
| `StakeModifier.PickIsPreferred` | src/kernel.cpp:73-117 | In one round no early free candidate is to be preferred to the pick by the hashes themselves, and a late one is picked only when none is early |
| `StakeModifier.EveryPickIsPreferred` | src/kernel.cpp:73-117 | In every round on every branch: a proof-of-work pick p against a free early proof-of-stake block b has 2^32 h(p) <= h(b), a proof-of-stake pick has h(b) < 2^32 (h(p) + 1), and among one kind the pick has the least hash, for proof of stake up to 32 low bits |
| `StakeModifier.WorkNeedsSmallHash` | src/kernel.cpp:96-102 | With hashes of n + 32 bits proof of work is picked over proof of stake only with a hash below 2^n |
| `StakeModifier.SectionsGrow` | src/kernel.cpp:50-57 | Sections never get shorter, and the last is three times the first |
| `StakeModifier.LastStop` | src/kernel.cpp:163-186 | The last round may choose up to the tip's last interval boundary |
| `StakeModifier.GetLastStakeModifier` | src/kernel.cpp:38-49 | Finds the last generating block; fails exactly when there is none up to the tip |
| `StakeModifier.SelectBlockFromCandidates` | src/kernel.cpp:73-117 | The method computes the scan on the looked-up candidates |
| `StakeModifier.DrawModifier` | src/kernel.cpp:180-197 | The round loop never fails and assembles the drawn bits |
| `StakeModifier.ComputeNextStakeModifier` | src/kernel.cpp:132-226 | Fails exactly when no block up to the tip generated a modifier; keeps it within an interval, else draws a new one |
| `StakeModifier.GetKernelStakeModifier` | src/kernel.cpp:231-272 | None for a block that is unknown or off the main chain; else the first later modifier at least a selection interval after it, or None when there is none |
| `Framing.CommandRoundTrip` | src/protocol.cpp:32-46 | A printable command of at most 12 characters is accepted and read back unchanged |
| `Framing.IsValidCommand` | src/protocol.cpp:48-66 | The nested loops accept exactly printable characters followed by zeros |
| `Framing.StepExtend` | src/main.cpp:3893-3947 | A decided turn stays decided when more bytes come; after a wait the kept bytes do as well as all of them |
| `Framing.DrainSplit` | src/main.cpp:3887-3982 | Handling any byte stream in two parts gives what one part gives |
| `Framing.FragmentationIsInvisible` | src/main.cpp:3887-3985 | For every byte stream, garbage included, every fragmentation and every send-buffer limit: handled plus still buffered is what the whole stream gives |
| `Framing.FrameIsDelivered` | src/main.cpp:3893-3950 | A complete frame at the front of the buffer is dispatched as it was sent |
| `Framing.StreamIsDelivered` | src/net.h:339-394 | Parsing undoes printing for every list of messages |
| `Framing.DeliveredInOrder` | src/main.cpp:3887-3985 | What is dispatched is always a prefix of what was sent, and all of it once all bytes are in and the last call has room |
| `Delivery.OnlyFramesAreHandled` | src/main.cpp:3887-3985 | For every byte stream and fragmentation, each handled message is a whole frame of the bytes received, with start, valid command, true size and true checksum; the frames stand in the order of handling and do not overlap |
| `Delivery.NothingElseIsHandled` | src/main.cpp:3936-3944 | A message of which no intact frame arrived, such as one with a wrong checksum, is never handled |
| `Framing.Node.AbortMessage` | src/net.h:351-362 | An aborted message leaves no byte |
| `Framing.Node.BeginMessage` | src/net.h:339-350 | Opens a message with an empty payload; one left open is dropped |
| `Framing.Node.EndMessage` | src/net.h:364-394 | Patches size and checksum so that the closed bytes are a frame; nothing before it changes |
| `Framing.Node.PushMessage` | src/net.h:339-394 | Begin, payload, end append exactly one frame |
| `Framing.Node.ProcessMessages` | src/main.cpp:3887-3985 | The loop terminates and computes the step-by-step parse of the buffer, of which the laws above and `Delivery` speak |
| `MedianTime.MedianIsMiddle` | src/main.h:1289-1301 | The median is a time of the window, at most half of it below and less than half above |
| `MedianTime.MedianStep` | src/main.cpp:2462-2463 | A block no earlier than the median never lowers the next median, for growing and for full windows |
| `MedianTime.MedianNeverDecreases` | src/main.cpp:2462-2463 | Median time past never decreases along a branch whose blocks pass the timestamp check |
| `MedianTime.LaterThanEveryMedian` | src/main.cpp:2462-2463 | Each accepted block is later than the median at every earlier block |
| `MedianTime.GetMedianTimePast` | src/main.h:1289-1301 | Filling the array backwards and sorting its used part computes the window's median |
| `Retarget.GetLastBlockIndex` | src/main.cpp:1032-1037 | Walks back to the nearest block of the kind, or genesis |
| `Retarget.SpanTelescopes` | src/main.cpp:1148-1152 | The sum of differences is newest minus oldest time if and only if no zero block time is followed by a non-zero one |
| `Retarget.AcceptedTelescopes` | src/main.cpp:1145-1152 | In particular on every branch that passed the timestamp check from a positive genesis time |
| `Retarget.AverageInRange` | src/main.cpp:1142-1146 | The running average, newest target weighted twice, stays within the range of the targets |
| `Retarget.WaveBounds` | src/main.cpp:1119-1261 | Both forms, for every block spacing divisible by three, give a target between min(floor(lo/3), limit) and min(3 hi, limit) |
| `Retarget.SteadyGap` | src/main.cpp:1145-1170 | 24 equal targets at any steady gap: slow blocks raise the target up to exactly three times, fast ones lower it down to exactly a third, in between it follows the 23 gaps |
| `Retarget.OnScheduleFalls` | src/main.cpp:1145-1168 | For every spacing, 24 equal targets exactly on schedule do not reproduce: the result is 23/24 of the target |
| `Retarget.WalkBlocks` | src/main.cpp:1138-1156 | The loop computes average, time span and count of the blocks walked, skipping proof of stake in the fixed form |
| `Retarget.DarkGravityWave` | src/main.cpp:1119-1261 | Either form, for every block spacing, computes the clamped, limited target and its encoding |
| `Retarget.GetNextPosTargetRequired` | src/main.cpp:1264-1302 | Computes the moved target from the last two blocks of the kind, the limit when there are fewer |
| `Retarget.StakeFixedPoint` | src/main.cpp:1289-1296 | On-schedule spacing keeps every target exactly |
| `Retarget.StakeFixedPointEncoded` | src/main.cpp:1264-1302 | On schedule, for either spacing, the bits written by a retarget are written again |
| `Retarget.StakeFixedPointOnChain` | src/main.cpp:1264-1302 | On a chain whose last two proof-of-stake blocks are one minute apart the next block gets the same bits |
| `Retarget.StakeBounds` | src/main.cpp:1280-1296 | Before the limit the target never triples, faster blocks never raise it, slower ones never lower it, and one step lowers it by at most two parts in interval + 1 |
| `Retarget.StakeMonotone` | src/main.cpp:1289-1296 | A longer spacing never gives a smaller target |
| `Base58.ConvertBack` | src/base58.h:29-121 | Changing base and back restores every digit string, leading zeros included |
| `Base58.DecodeEncode` | src/base58.h:29-121 | Decoding undoes encoding for every byte string |
| `Base58.EncodeDecode` | src/base58.h:29-121 | Encoding undoes decoding for every string of alphabet characters |
| `Base58.AlphabetIs` | src/base58.h:26-26 | The alphabet string is the six character runs used in the proofs |
| `Base58.DigitOfSymbol` | src/base58.h:26-26 | `strchr` finds each of the 58 characters at its own place |
| `Base58.EncodeBase58` | src/base58.h:29-67 | The division loop, leading-zero loop and reversal compute the base change |
| `Base58.DecodeBase58` | src/base58.h:77-121 | Surrounding space is accepted, any other character refused, and the value and leading zeros restored |
| `Base58.CheckRoundTrip` | src/base58.h:134-162 | Decoding a checked encoding gives the bytes back, for any hash |
| `Base58.CheckCanonical` | src/base58.h:134-162 | A string of alphabet characters whose checksum holds is the encoding of its content |
| `Base58.EncodeBase58Check` | src/base58.h:134-141 | Appends four checksum bytes, then encodes |
| `Base58.DecodeBase58Check` | src/base58.h:145-162 | Refuses undecodable, short and wrongly checked strings |
| `Base58.DataRoundTrip` | src/base58.h:212-240 | Version and data survive printing and parsing |
| `Base58.DataCanonical` | src/base58.h:212-240 | Printing parsed data gives the text back |
| `Base58.AddressRoundTrip` | src/base58.h:287-370 | An address names its destination on its own network and none on the other, also through text |
| `Base58.AddressCanonical` | src/base58.h:351-370 | The address of a parsed destination prints as the parsed text |
| `Base58.CBitcoinAddress.SetData` | src/base58.h:198-204 | Stores the version cut to a byte and the data |
| `Base58.CBitcoinAddress.Set` | src/base58.h:287-300 | Stores the network's version byte and hash so that `Get` returns the destination |
| `Base58.CBitcoinAddress.SetString` | src/base58.h:212-228 | Stores parsed version and data, or clears the object |
| `Base58.CBitcoinAddress.ToString` | src/base58.h:235-240 | Prints text that parses back to the object |

## Left out

- Mempool admission, orphan blocks, checkpoints, wallet, RPC, sockets, threads, alerts and user interface: not modelled.
- `Solver`, `CombineSignatures` for types other than multisignature, and the signature cache: only add easy members.
- KimotoGravityWell, `GetNextTargetRequired_V1` and `_V2`, `GetChance`, `Select_`: floating point or superseded rules.
- The disabled script opcodes are refused by the interpreter before they run, so their unreachable bodies are not modelled.
- Interpreter.EvalScript: says nothing about the stack left behind by a failing script, which only `CombineSignatures` reads, and only to merge signatures.
- MultiSig.CombineMultisig: visits the signature set in an arbitrary order where the source uses byte order, which the result does not depend on for acceptance.
- TxDb.FetchInputs: covers the block and miner modes; the mempool-acceptance mode, which reads missing entries from the pool, goes with mempool admission.
- Assembly.CollectCandidates: is stated for a pool closed under inputs, where `Classify` reports nothing missing.
- Assembly.Best: takes any maximal element where the source pops a heap, whose choice among equals is unspecified; priorities and fees per kilobyte are real numbers without rounding.
- Assembly.CollectTxs: proof-of-stake templates are not covered, since the coinstake's inputs are not in the trial index.
- Payments: the law for multisignature outputs is stated for at most 16 keys, which is as many as `SetMultisig` can encode; `Payments.CheckMultiSigLaw` covers the operation's 20.
- Conditionals.ChosenBranchRuns: the chosen branch has no signature operations, because a signature covers the script around the branch too.
- BlockRules.NoDoubleSpend: blocks dated before the duplicate-transaction rule can create an output again after spending it.
- TxDb.CTxDB.ConnectBlock: database transactions appear as all-or-nothing writes; failing writes are not modelled.
- Ledger: amounts are unbounded, so wrap-around of 64-bit totals is not captured; the header rules (proof of work or stake, timestamps, Merkle root, block signature) are one parameter.
- Supply.SupplyIsUnspentTotal: heights stop where the subsidy shift reaches 64, beyond which the source's shift is undefined.
- ChainIndex.ChainState.SetBestChain: database work and block validation appear as success flags; the wallet and notification part is left out.
- AddrCheck.Check: reads `mapAddr` as its operator[] does, without the zero entry that operator inserts for a missing address.
- AddrMan: times are unbounded integers where the source stores 32 bits.
- AddrStream.Deserialize: a stream that ends early, an exception in the source, is not modelled.
- Merkle.OnlyTheBranchChecks: assumes a hash without collisions and a branch of the tree's height.
- StakeModifier: a branch is the list of its blocks; the debug printing of the selection map is left out.
- Framing.Node.ProcessMessages: the handling of a dispatched message is its entry in a log; a full send buffer is an arbitrary turn at which the loop stops.
- Retarget: a branch is the list of its blocks; 64-bit time sums do not wrap.
- Base58.DecodeBase58: a string is taken up to its terminating zero.
