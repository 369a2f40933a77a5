# A verified model of the index keeper

The repository runs the off-chain side of index vaults: a keeper that collects
deposit and withdrawal orders, batches them and settles the batches on chain,
together with the libraries it stands on (fixed-point amounts, byte and text
codecs, an assembler for the vector language, a cache of chain events) and the
script that numbers trading pairs. This project models the parts that decide
something and proves what they are relied on for.

| file | models |
|---|---|
| `Prelude.dfy`, `Arithmetic.dfy`, `Text.dfy`, `RustLiterals.dfy`, `Sorting.dfy` | shared types, division facts, digits and splitting, literal tokens, sorting |
| `FixedPoint.dfy`, `SquareRoot.dfy`, `AmountText.dfy`, `ShortestAmount.dfy` | 18-decimal amounts in a u128, the Babylonian root, the decimal printer and the literal reader it is shortest for |
| `ByteCodec.dfy`, `VectorText.dfy` | little-endian label and vector bytes, the comma-separated vector text |
| `Abacus.dfy`, `Assembler.dfy`, `CodeLayout.dfy`, `Disassembler.dfy`, `RegisterRenaming.dfy` | the vector-language parser, register allocation and emission, what every byte of the code is, and a decoder driven by the argument table |
| `IndexOrders.dfy`, `OrderBatching.dfy`, `AccumulatorRuns.dfy`, `BatchContents.dfy` | per-index totals, the shared batch, every interleaving of what runs around it, what each batch then holds |
| `BlockTrigger.dfy`, `FlushStamps.dfy` | when a new block makes a batch due, and what the trigger stamped on it says |
| `Processable.dfy`, `Settlement.dfy`, `SettlementRuns.dfy` | splitting a batch, settling it behind the vendor gate, several batches in flight at once |
| `CollateralFlow.dfy`, `OrdersToCalls.dfy` | what becomes of every accepted order, from the channel to its own settlement call and that call's receipt |
| `Allocation.dfy` | spreading an index's net collateral over its basket |
| `EventTables.dfy`, `EventSync.dfy` | the event cache, its incremental sync, the watcher that saves it |
| `Polling.dfy` | the block windows of the event listener |
| `PairListing.dfy` | choosing, numbering and comparing trading pairs |

How to read it. Where the Rust code updates an object, the model is a class
with the same fields, and each method is tied to a function on values; the
properties over whole runs are proved about those functions. Concurrency is a
state machine whose steps are the code's critical sections. The network, the
chain and the disk are parameters: a log, a head number that may fail to
arrive, an oracle that says what became of the n-th request, a flag that
says whether a save succeeded. Hash maps are walked in an arbitrary order that
is given as a parameter or chosen freely. A panic is an explicit outcome. All
readings of the clock within one critical section give the same time.

What is assumed: the 256-bit operators `+ - *` and `pow` wrap around; opcode
constants, which live in a crate that is not part of this model, are distinct
bytes; names used as constants by assembly code are an environment of 128-bit
values; mnemonics are ASCII; a literal that does not fit its Rust type does not
compile; saving a cache either replaces the stored copy or leaves it.

Where the code does not do what its comments say, the model follows the code
and states exactly when the promise holds:

- `sqrt_u256` "returns the floor of the square root" on every input but the
  very largest, where the first addition overflows (`SquareRoot.SqrtU256`).
- Receipts of reverted transactions are counted in `total_succeeded`: the count
  is that of the confirmed orders exactly when no order's deciding send reverts
  (`Settlement.OnchainSubmitter.SucceededCountsReverts`,
  `Settlement.SettleRevertedBuy`).
- A transaction that lands although its receipt never arrives is sent again
  (`Settlement.ResultAgainstEffects`, `Settlement.PlanAgainstEffects`,
  `Settlement.LostReceiptRepeats`).
- Two flushers share the batch, but only the keeper loop's batches are settled;
  a batch flushed by the receive loop goes to the older submission path.
  Nor is every order of a settled batch carried out: a call that reverts or
  runs out of attempts drops its order. Accepted orders are all confirmed or
  waiting exactly when the receive loop, the vendor gate and a panic took none
  and no planned order's call reverts, runs out of attempts or is a dry run
  (`CollateralFlow.AllConfirmedIff`, with runs that violate it in
  `CollateralFlow.ReceiverFlushNeverPlanned` and
  `CollateralFlow.FailedSendsLoseOrder`).
- The cache is "automatically persisted after each poll" only if that poll
  grew it; after a half-failed sync a successful poll can leave events unsaved
  (`EventSync.SavedAfterPoll`, `EventSync.HalfFailedSyncUnsaved`). Over every
  run whose restarts could read the copy, memory and copy agree exactly when no
  half-failed sync or failed save has added an event since the last save
  (`EventSync.StoredAgreesIff`, and for any run `EventSync.StoredAgreesByLog`).
- The cache is described as holding all events; it drops the later events of a
  transaction (`EventSync.EveryEventCached`, `EventSync.SharedTransactionDropped`).
- A log that cannot be rebuilt aborts a poll after earlier logs were emitted,
  and the next poll emits those again (`Polling.NeverRepeatsIffSheltered`,
  `Polling.RepeatingChain`).
  Rebuilding fails only for a log with more than four topics, which no virtual
  machine log has, so this needs a misbehaving node
  (`Polling.WellFormedNeverRepeats`).
- The basket is sized by the saturating net, the order reports the gross net
  (`Allocation.BasketAgainstOrderNet`).
- A flush is made because a batch is due, and stamped with the trigger. The
  keeper loop checks first and flushes later, so it can flush a batch that is not
  due at all, which is then stamped as flushed by hand; this happens only right
  behind a flush of the receive loop, and never to the receive loop itself
  (`FlushStamps.StampsTell`, with such a run in `FlushStamps.FlushedForNoReason`).
- A sync "from the cache's last synced block" fetches nothing twice only if the
  mark reaches every event: one above it that shares its hash with an earlier one
  is fetched, and by a first sync reported, every time, and so are the events of
  block 0 while there is no mark (`EventSync.SyncsAreIncremental`).
- "Output file is already up to date" after comparing two pair lists means
  equal identities; the file is up to date exactly when minimum and scales agree
  as well (`PairListing.NoChangesMeansSameIdentities`,
  `PairListing.UpToDateIff`, `PairListing.ListChangedMinimum`).
- "New block = immediate flush": a block newer than the one a batch was made
  under makes the batch due exactly when that one was not zero and some block
  was written after the swap (`BlockTrigger.NewBlockDue`, with runs that violate
  it in `BlockTrigger.BatchMadeAtBlockZero` and `BlockTrigger.SwapAfterWrite`).
- More than 256 registers, or a constant above 255 in a byte-wide place, are
  cut to their low byte without a complaint (`Disassembler.AssembleDisassemble`,
  `Disassembler.SameCodeIffStored`, `Disassembler.RegistersCollide`).

## Model

| member | source | states |
|---|---|---|
| `FixedPoint.AddExact` | libs/common/src/amount.rs:75-78 | the sum, or nothing exactly when the true sum needs more than 128 bits |
| `FixedPoint.SubExact` | libs/common/src/amount.rs:80-83 | although the subtraction wraps, the result is the true difference, or nothing exactly on underflow |
| `FixedPoint.MulExact` | libs/common/src/amount.rs:92-95 | the largest m with m·SCALE not above the product; nothing exactly when it needs more than 128 bits |
| `FixedPoint.DivExact` | libs/common/src/amount.rs:97-100 | the largest q with q·b not above a·SCALE; nothing exactly when it needs more than 128 bits |
| `FixedPoint.MulAfterDiv` | libs/common/src/amount.rs:92-100 | multiplying a quotient back never fails, never overshoots, and loses less than b/SCALE + 1 units |
| `FixedPoint.IdivExact` | libs/common/src/amount.rs:102-105 | integer division is the fixed-point quotient cut to whole units and succeeds whenever that does |
| `SquareRoot.SqrtU256` | libs/common/src/amount.rs:32-59 | the loop terminates with the floor of the root for every input except 2^256 - 1, where it returns nothing |
| `SquareRoot.NewtonStaysAbove` | libs/common/src/amount.rs:54-57 | one step of the iteration, with both its floors, never falls below the root |
| `SquareRoot.NewtonFixedPoint` | libs/common/src/amount.rs:54-58 | when the next guess is not smaller the current one is the root |
| `SquareRoot.GuessSumBound` | libs/common/src/amount.rs:54-57 | the sum formed by a step is at most n + 1, so no intermediate value overflows |
| `SquareRoot.CheckedSqrt` | libs/common/src/amount.rs:114-117 | never fails on a 128-bit amount and returns the root in units of 10^-9 |
| `SquareRoot.SquareOfRoot` | libs/common/src/amount.rs:107-117 | the square of the root is the largest perfect square not above the raw value |
| `SquareRoot.RootOfSquare` | libs/common/src/amount.rs:107-117 | whenever squaring succeeds, the root of the square is the amount cut to a multiple of 10^-9 |
| `SquareRoot.SquareRange` | libs/common/src/amount.rs:107-111 | squaring fails exactly when the true square needs more than 128 bits, and agrees with multiplying |
| `AmountText.DisplayRoundTrip` | libs/common/src/amount.rs:203-240 | every amount, printed without a precision, is read back unchanged by the literal macro |
| `AmountText.DisplayPrecision` | libs/common/src/amount.rs:221-226 | with precision p the text reads as the amount cut to p decimals: not above it and less than one unit of the last place below |
| `AmountText.TrimmedIsPrefix` | libs/common/src/amount.rs:227-236 | trimming drops only zeros and always leaves a digit |
| `ShortestAmount.NoTrailingZeros` | libs/common/src/amount.rs:228-235 | without a precision the fraction shown is `0` or ends in another digit |
| `ShortestAmount.ShownPlaces` | libs/common/src/amount.rs:222-226 | with precision p exactly p places are shown, at most 18 |
| `ShortestAmount.DisplayIsShortest` | libs/common/src/amount.rs:203-240 | no shorter numeral with digits on both sides of the point reads back as the amount, whatever its number of places |
| `ShortestAmount.FloatLiteralMeaning` | proc-macros/amount-macros/src/lib.rs:8-27 | a literal with up to 18 places means exactly its decimal value, and is refused exactly when that leaves 128 bits |
| `ShortestAmount.OneAndAHalf` | libs/common/src/amount.rs:138-142 | the literal 1.5 is 1.5 times 10^18 |
| `ShortestAmount.OtherTextRefused` | proc-macros/amount-macros/src/lib.rs:8-27 | anything but digits around one point, an exponent among them, and a second point are refused, each in its way |
| `AmountText.ScaledExact` | libs/common/src/amount.rs:138-142 | for up to 18 decimals scaling is an exact multiplication that fails only on a 128-bit overflow |
| `AmountText.ReadFloatPoint` | proc-macros/amount-macros/src/lib.rs:8-27 | a literal with a point reads as its digits run together, scaled by the fraction's length |
| `AmountText.IntegerLiteralMeaning` | proc-macros/amount-macros/src/lib.rs:29-51 | an integer literal of any radix and suffix means that many whole units, the four special-cased ones included, and is refused exactly when it does not fit 128 bits, its own suffix, or, scaled, 128 bits |
| `AmountText.PlainIntegerMeaning` | proc-macros/amount-macros/src/lib.rs:29-51 | a plain decimal numeral is read as the number it spells |
| `ByteCodec.ReadAfterWrite` | libs/common/src/uint.rs:4-14 | reading a written word gives it back, wherever it stands in a buffer |
| `ByteCodec.LeBytesAt` | libs/common/src/uint.rs:11-14 | byte i of a written word counts the multiples of 256^i: lowest byte first |
| `ByteCodec.LabelsFromBytes` | libs/common/src/labels.rs:30-49 | the whole words of the input, or a panic exactly when 16 does not divide its length |
| `ByteCodec.LabelsToBytes` | libs/common/src/labels.rs:52-58 | the words one after the other |
| `ByteCodec.VectorFromBytes` | libs/common/src/vector.rs:35-54 | the amounts whose raw values are the whole words, or a panic exactly when 16 does not divide the length |
| `ByteCodec.VectorToBytes` | libs/common/src/vector.rs:57-63 | the raw values one after the other |
| `ByteCodec.DecodeLabels` | libs/onchain-sync/src/lib.rs:592-611 | the whole words of any input; a partial last chunk is dropped |
| `ByteCodec.DecodeEncode` | libs/common/src/labels.rs:30-58 | decoding an encoding, also one followed by stray bytes, rebuilds the list |
| `ByteCodec.EncodeDecode` | libs/common/src/labels.rs:30-58 | encoding a decoding rebuilds the input up to its last whole word |
| `ByteCodec.TolerantIsStrictOnPrefix` | libs/onchain-sync/src/lib.rs:592-611 | the tolerant decoder equals the strict one on the longest prefix the strict one accepts |
| `VectorText.DisplayList` | libs/common/src/vector.rs:92-107 | list mode writes the elements at the requested precision, at most 18 places, with commas, or in the alternate form line breaks, between |
| `VectorText.ListRoundTrip` | proc-macros/vector-macros/src/lib.rs:17-53 | the default list text, read by the list macro, rebuilds the vector |
| `VectorText.TrailingComma` | proc-macros/vector-macros/src/lib.rs:17-53 | so does the text with a comma behind its last element |
| `AbacusSyntax.ParseInstructionList` | proc-macros/abacus-macros/src/lib.rs:112-211 | the parsing loop computes the recursive grammar, errors included |
| `AbacusSyntax.ParseArguments` | proc-macros/abacus-macros/src/lib.rs:134-201 | the arguments of one mnemonic: as many as the table says, of the right kind, or the first error |
| `AbacusSyntax.ParsePrint` | proc-macros/abacus-macros/src/lib.rs:112-211 | parsing a printed well-typed program returns it, whatever the commas and even if constants are spelled like mnemonics |
| `AbacusSyntax.ParsedIsPrinted` | proc-macros/abacus-macros/src/lib.rs:112-211 | conversely, whatever parses is a printed well-typed program with some spacing |
| `AbacusSyntax.InstructionRefused` | proc-macros/abacus-macros/src/lib.rs:112-131 | behind any well-typed program: two slashes end it, and anything that is not a mnemonic of the table is refused with its error |
| `AbacusSyntax.ArgumentRefused` | proc-macros/abacus-macros/src/lib.rs:134-201 | behind any well-typed instructions and arguments: the first argument that is missing, of the wrong kind or none at all is refused with its position, the count and the mnemonic |
| `AbacusSyntax.AnySpelling` | proc-macros/abacus-macros/src/lib.rs:126 | mnemonics are looked up in upper case, however they are spelled |
| `AbacusSyntax.ArgTypesCounts` | proc-macros/abacus-macros/src/lib.rs:26-88 | how many arguments each mnemonic of the table takes |
| `AbacusSyntax.ArgTypesWords` | proc-macros/abacus-macros/src/lib.rs:26-88 | exactly which mnemonics take amounts, labels and storage ids |
| `AbacusSyntax.ArgTypesBytes` | proc-macros/abacus-macros/src/lib.rs:26-88 | exactly which mnemonics take registers and sizes |
| `Assembler.Allocate` | proc-macros/abacus-macros/src/lib.rs:244-250 | an old register keeps its number, a new one takes the next, and the map stays the first-use numbering |
| `Assembler.FirstUseShape` | proc-macros/abacus-macros/src/lib.rs:244-250 | numbering has no repeats, covers exactly the names used, and orders them by first occurrence |
| `Assembler.EmitArguments` | proc-macros/abacus-macros/src/lib.rs:239-280 | the argument bytes resolved against the numbering of the finished program, although it is still being built |
| `Assembler.Assemble` | proc-macros/abacus-macros/src/lib.rs:213-284 | one pass emits the bytes of the program lowered with its finished register numbering; it compiles exactly when every argument resolves; what those bytes are is told by the next three rows |
| `CodeLayout.OperandBytes` | proc-macros/abacus-macros/src/lib.rs:267-279 | a register, stack position or size takes one byte, a storage id, amount or label 16, the lowest first |
| `CodeLayout.OperandDenotes` | proc-macros/abacus-macros/src/lib.rs:242-265 | the number an argument stands for, or that it does not compile: a register its place in the order of first use, a constant its value, an integer itself, its low byte or, as an amount, 10^18 times itself |
| `CodeLayout.CodeBytes` | proc-macros/abacus-macros/src/lib.rs:223-280 | every byte of the code: its length, each opcode, and each argument's number at the place the widths before it give |
| `Disassembler.ArgTypesAmountsAreWords` | proc-macros/abacus-macros/src/lib.rs:28-89 | in the real argument table amount literals stand only where 16 bytes are written |
| `Disassembler.DisassembleEncoded` | proc-macros/abacus-macros/src/lib.rs:225-284 | a decoder driven by the argument table alone recovers every instruction, byte-wide operands modulo 256 |
| `Disassembler.AssembleDisassemble` | proc-macros/abacus-macros/src/lib.rs:225-284 | disassembly returns the lowered program if and only if it uses at most 256 registers and its byte-wide constants are below 256 |
| `Disassembler.SameCodeIffStored` | proc-macros/abacus-macros/src/lib.rs:225-284 | two compiling programs, whether or not they fit their bytes, have equal bytecode if and only if their lowered programs agree up to byte-wide operands modulo 256 |
| `Disassembler.RegistersCollide` | proc-macros/abacus-macros/src/lib.rs:268-273 | beyond 256 registers two different names end up in the same byte |
| `Disassembler.ManyRegisters` | proc-macros/abacus-macros/src/lib.rs:244-250 | there are compiling programs with any number of registers, 257 among them |
| `RegisterRenaming.SameCodeIffRenamed` | proc-macros/abacus-macros/src/lib.rs:225-284 | for programs that fit their bytes, equal bytecode if and only if equal programs up to an injective register renaming |
| `RegisterRenaming.RenamedLowersAlike` | proc-macros/abacus-macros/src/lib.rs:244-250 | renaming registers injectively never changes the lowered program |
| `IndexOrders.NetClosedForm` | bin/keeper/src/accumulator/types.rs:132-153 | the saturating net is the signed total minus the lowest signed total of any prefix |
| `IndexOrders.LowestPrefixIsMinimum` | bin/keeper/src/accumulator/types.rs:132-153 | that lowest total is attained and is a bound |
| `IndexOrders.AddActionConsistent` | bin/keeper/src/accumulator/types.rs:132-153 | every order keeps the totals and counts those of the listed orders; adding panics exactly when a gross total overflows |
| `IndexOrders.NetAgainstGross` | bin/keeper/src/processor/types.rs:63-68 | the saturating net lies between the gross net and the deposits, and equals the gross net exactly when no prefix went below both zero and the final total |
| `OrderBatching.IndexState.Deposit` | bin/keeper/src/accumulator/types.rs:132-139 | the new totals; a panic leaves the state as it was, because the second addition cannot be the one to overflow |
| `OrderBatching.IndexState.Withdraw` | bin/keeper/src/accumulator/types.rs:141-154 | the new totals with the net saturating at zero, or a panic that changes nothing |
| `OrderBatching.OrderBatch.Add` | bin/keeper/src/accumulator/types.rs:213-260 | the batch after an order or a panic, as told by `TakeOrderTouches`, `AddOrderAppends` and `BatchContents`; other indices keep their own state objects untouched |
| `OrderBatching.AddOrderAppends` | bin/keeper/src/accumulator/types.rs:213-260 | an accepted order is appended to its own index and to no other; a refused one is appended nowhere |
| `OrderBatching.TakeOrderTouches` | bin/keeper/src/accumulator/types.rs:219-226 | the vault is replaced exactly by an order that names one, even a refused one; the first and the last time |
| `OrderBatching.AddOrderConsistent` | bin/keeper/src/accumulator/types.rs:213-260 | every index of the batch stays consistent and lists at least one order, also after a panic |
| `OrderBatching.AddOrderKeepsDue` | bin/keeper/src/accumulator/types.rs:213-260 | filling a due batch keeps it due |
| `OrderBatching.OrderBatch.GetFlushTrigger` | bin/keeper/src/accumulator/types.rs:269-287 | the block trigger first, otherwise the age of some index past the window, nothing exactly when neither holds |
| `OrderBatching.OrderBatch.ShouldFlush` | bin/keeper/src/accumulator/types.rs:263-265 | true exactly when the batch is due by block or by time |
| `OrderBatching.AsI64Wraps` | bin/keeper/src/accumulator/types.rs:281 | the cast of the window keeps its value modulo 2^64 and lands between -2^63 and 2^63 |
| `OrderBatching.HugeWindowAlwaysDue` | bin/keeper/src/accumulator/types.rs:281 | a window of 2^63 ms or more wraps to a negative one, and any order not from the future makes the batch due |
| `OrderBatching.OrderAccumulator.constructor` | bin/keeper/src/accumulator/accumulator.rs:37-47 | an empty batch at block 0 and an empty channel |
| `OrderBatching.OrderAccumulator.SubmitOrder` | bin/keeper/src/accumulator/accumulator.rs:75-89 | the order joins the channel, or the call fails because the receiver is gone |
| `OrderBatching.OrderAccumulator.UpdateBlock` | bin/keeper/src/accumulator/accumulator.rs:51-66 | the block number and the batch's own copy of it |
| `OrderBatching.OrderAccumulator.FlushBatch` | bin/keeper/src/accumulator/accumulator.rs:104-142 | the whole non-empty batch leaves with its trigger and a fresh one takes its place; an empty batch stays |
| `OrderBatching.OrderAccumulator.ReceiveOne` | bin/keeper/src/accumulator/accumulator.rs:165-171 | the first order of the channel moves into the batch; a panic ends the receive loop and drops the channel |
| `OrderBatching.OrderAccumulator.FlushIfDue` | bin/keeper/src/keeper/keeper.rs:108-116 | a flush happens exactly when the batch is due |
| `AccumulatorRuns.OrdersConserved` | bin/keeper/src/accumulator/accumulator.rs:75-186 | over every interleaving, per index: flushed orders, then the batch, the order in hand, the channel and what a stopped task dropped are exactly the accepted sequence |
| `AccumulatorRuns.StepConserves` | bin/keeper/src/accumulator/accumulator.rs:104-186 | each single step of any task keeps that equation and the consistency of every batch |
| `BatchContents.AddOrderContents` | bin/keeper/src/accumulator/types.rs:213-260 | a batch that holds exactly what it was given still does after any order, taken or refused |
| `BatchContents.BatchesHoldTheirOrders` | bin/keeper/src/accumulator/accumulator.rs:75-186 | over every run each batch has exactly the indices of the orders it was given; per index it lists those taken with their own traders and amounts, the vault named last and the first and last time; all batches' orders, then the pending ones, are the accepted ones in order of submission |
| `AccumulatorRuns.BatchBlocksOrdered` | bin/keeper/src/accumulator/accumulator.rs:51-66 | with one updater and blocks that do not decrease: batch start block, batch current block and the atomic block stay in this order |
| `AccumulatorRuns.DueUntilFlushed` | bin/keeper/src/accumulator/types.rs:269-287 | a non-empty batch that is due stays due until somebody flushes it |
| `AccumulatorRuns.FirstBatchIgnoresBlocks` | bin/keeper/src/accumulator/types.rs:183-193 | until the first flush only the time window can make the batch due |
| `BlockTrigger.WrittenBlockDue` | bin/keeper/src/accumulator/types.rs:269-276 | once a block is written into a batch, the batch is due by block exactly when the flush that made it had read a number that is neither zero nor that block |
| `BlockTrigger.MissedBlock` | bin/keeper/src/accumulator/accumulator.rs:51-66 | with no write pending, the batch lags behind the atomic block exactly when its flush read the number before the last higher store and swapped after the last write |
| `BlockTrigger.NewBlockDue` | bin/keeper/src/accumulator/types.rs:269-276 | a block newer than the batch's makes it due if and only if the batch's was not zero and some block was written after the swap |
| `BlockTrigger.BatchMadeAtBlockZero` | bin/keeper/src/accumulator/accumulator.rs:104-121 | a run in which a second, non-empty batch ignores block 5 because it was made at block 0 |
| `BlockTrigger.SwapAfterWrite` | bin/keeper/src/accumulator/accumulator.rs:104-121 | a run that ends with everything idle, a non-empty batch at block 5 and the atomic block at 9 |
| `FlushStamps.StampsTell` | bin/keeper/src/accumulator/accumulator.rs:104-142 | over every run the stamp of a flushed batch is the block change or the age that held when it was flushed; a stamp by hand means that none held, and is only ever the keeper loop's, right behind a flush of the receive loop |
| `FlushStamps.FlushedForNoReason` | bin/keeper/src/keeper/keeper.rs:108-116 | a run in which a deposit of that very moment is flushed, although nothing is due |
| `Processable.FromOrderBatch` | bin/keeper/src/accumulator/processable.rs:84-153 | the split of a batch for any visiting order; index ids strictly ascending and exactly the batch's keys |
| `Processable.SplitPerIndex` | bin/keeper/src/accumulator/processable.rs:101-139 | per index the settlement buys (sells) are its deposits (withdrawals) in arrival order, and their amounts and number are the index's totals |
| `Processable.SettlementsPick` | bin/keeper/src/accumulator/processable.rs:126-138 | each order of a side has one settlement order, in arrival order, with its own trader and amount and the vault of its index |
| `Processable.EntryTotalsSettlements` | bin/keeper/src/accumulator/processable.rs:101-118 | an index has one aggregated entry, equal to its settlement amounts, exactly when those add up to something; it carries the index and its vault |
| `Processable.TotalOrdersSplit` | bin/keeper/src/accumulator/processable.rs:84-153 | the order total is the number of settlement buys plus sells |
| `Processable.SplitOrderIndependent` | bin/keeper/src/accumulator/processable.rs:84-153 | two visiting orders give the same ids and counts and the same settlement orders per index |
| `CollateralFlow.CollateralConserved` | bin/keeper/src/keeper/keeper.rs:108-116 | over every run, per index and side, in orders and in units: confirmed, reverted, out of attempts, rehearsed in a dry run, barred at the vendor gate, taken by the receive loop, waiting and lost add up to accepted |
| `CollateralFlow.AllConfirmedIff` | bin/keeper/src/onchain/submitter.rs:449-490 | everything accepted is confirmed or still waiting if and only if the receive loop flushed no order of this index and side, no gate barred one, no panic lost one, and no planned one is decided by a revert, runs out of attempts or is part of a dry run |
| `CollateralFlow.ReceiverFlushNeverPlanned` | bin/keeper/src/accumulator/accumulator.rs:165-178 | a run in which an accepted order waits nowhere and no call is ever planned for it, however the gates decide |
| `CollateralFlow.FailedSendsLoseOrder` | bin/keeper/src/onchain/submitter.rs:449-490 | a run in which the keeper loop flushes an order through an open gate, every send fails, and the order is neither confirmed nor waiting, with any number of attempts and in a dry run |
| `CollateralFlow.VerdictCauses` | bin/keeper/src/onchain/submitter.rs:224-247 | a call ends in a revert exactly when its deciding send is mined and reverted, and without a receipt exactly when none of its allowed sends gets one |
| `CollateralFlow.SplitGivesPayload` | bin/keeper/src/keeper/keeper.rs:184-209 | the payload built from a split batch is the one the totals range over |
| `CollateralFlow.HandleFlushed` | bin/keeper/src/keeper/keeper.rs:108-116 | splitting a flushed batch and piping it through the gate makes the requests of its payload, and when settled every order's result is the verdict the totals count |
| `CollateralFlow.GateOpens` | bin/keeper/src/keeper/keeper.rs:145-180 | the gate opens exactly for extracted assets that are not empty and a vendor that accepts |
| `CollateralFlow.EachOrderHasItsCall` | bin/keeper/src/keeper/keeper.rs:184-209 | per index and side the calls in the plan of a batch are exactly one for each of the batch's orders, with its trader and the default size, in their order |
| `OrdersToCalls.SideFromOrders` | bin/keeper/src/accumulator/processable.rs:126-138 | the settlement orders of an index and side are those of the orders the batch took for them, each with its order's trader and amount and the vault named last |
| `OrdersToCalls.VaultsNamed` | bin/keeper/src/accumulator/processable.rs:97-100 | a vault address is passed on exactly for the indices some order names one for, the last one named |
| `OrdersToCalls.OrdersReachTheirCalls` | bin/keeper/src/keeper/keeper.rs:184-209 | over every run, per index and side, the calls planned for a flushed batch are exactly those for the submitted orders it took, in order, with the order's own trader, or the zero address, and the default size |
| `CollateralFlow.FlushedBatchSplits` | bin/keeper/src/keeper/keeper.rs:108-116 | every flushed batch would split per index into exactly that index's orders; a batch is planned for settlement exactly when the keeper loop flushed it and its gate opens |
| `Settlement.RetryShape` | bin/keeper/src/onchain/submitter.rs:224-247 | at least one send unless no attempts are allowed, all for the same call, only the last can have a receipt |
| `Settlement.RetryResult` | bin/keeper/src/onchain/submitter.rs:224-247 | the call succeeds exactly when one of its allowed sends gets a receipt and fails only after using them all |
| `Settlement.ResultAgainstEffects` | bin/keeper/src/onchain/submitter.rs:224-272 | the chain carries the call out as often as the result says if and only if no transaction lands without its receipt |
| `Settlement.LostReceiptRepeats` | bin/keeper/src/onchain/submitter.rs:224-272 | one lost receipt: the buy is reported once and carried out twice |
| `Settlement.PlanAgainstEffects` | bin/keeper/src/onchain/submitter.rs:426-490 | a whole plan is carried out as often as it is confirmed if and only if no send of it lands without its receipt |
| `Settlement.EffectsAndReverts` | bin/keeper/src/onchain/submitter.rs:426-490 | for every plan and chain, effects plus calls decided by a revert equal receipts plus landings without a receipt |
| `Settlement.CarriedOutAsReceipted` | bin/keeper/src/onchain/submitter.rs:426-490 | a plan is carried out as often as it is receipted if and only if reverts and unreceipted landings balance |
| `Settlement.OnchainSubmitter.SendWithRetry` | bin/keeper/src/onchain/submitter.rs:224-247 | the sends made and the result are those of that retry schedule |
| `Settlement.OnchainSubmitter.Perform` | bin/keeper/src/onchain/submitter.rs:301-416 | a call is sent with retries, or answered without sending in dry-run mode |
| `Settlement.OnchainSubmitter.SettleBatch` | bin/keeper/src/onchain/submitter.rs:426-528 | the batch's sends are those of its plan, quotes before buys before sells, past any failure; one result per order, in order, each that of the order's own sends with its own trader and size; a dry run sends nothing; succeeded plus failed is the order count; succeeded counts the confirmed orders if and only if no order's deciding send reverts |
| `Settlement.PlanWritten` | bin/keeper/src/onchain/submitter.rs:449-490 | the calls written out: one quote update for exactly the payload's indices, then each order's own with its trader and its size, or the default for an order that brings none |
| `Settlement.OnchainSubmitter.SettledCarriesOut` | bin/keeper/src/onchain/submitter.rs:426-490 | whatever is settled, the sends are those of the written-out calls, one segment each with as many sends as its receipts allow, and every result is what its segment's last send got |
| `Settlement.TraceRanksAscend` | bin/keeper/src/onchain/submitter.rs:420-528 | whatever the chain does, nothing of a later kind is sent before everything of an earlier kind |
| `Settlement.CallHasItsSends` | bin/keeper/src/onchain/submitter.rs:449-490 | every planned call gets its own sends, whatever became of the calls before it |
| `Settlement.OnchainSubmitter.SucceededCountsReverts` | bin/keeper/src/onchain/submitter.rs:496-513 | for every payload, chain and attempt count the receipted orders are the confirmed ones if and only if it is a dry run or no order's deciding send is a receipt that reports a revert |
| `Settlement.SettleRevertedBuy` | bin/keeper/src/onchain/submitter.rs:496-503 | settling a one-buy payload on a chain that reverts everything reports one success |
| `Settlement.PipelineInOrder` | bin/keeper/src/keeper/keeper.rs:165-215 | in a pipeline's trace the vendor comes first, asked about exactly its assets, and nothing follows unless the vendor accepted |
| `Settlement.ProcessBatchPipeline` | bin/keeper/src/keeper/keeper.rs:133-248 | the requests made are exactly that trace, or none without extracted assets; the batch is settled exactly when the vendor request is accepted |
| `SettlementRuns.OwnTraceIsSequential` | bin/keeper/src/keeper/keeper.rs:145-247 | with any number of batches in flight, one batch's requests are a prefix of what it would do alone, and all of it once it has finished |
| `SettlementRuns.OwnRequestsInOrder` | bin/keeper/src/onchain/submitter.rs:420-528 | among all requests of all batches, those of one batch keep the order vendor, quotes, buys, sells |
| `SettlementRuns.SentOnlyAfterVendor` | bin/keeper/src/keeper/keeper.rs:165-215 | every send of a batch comes after an accepted vendor request for exactly the assets extracted for that batch |
| `EventTables.AddAllFromEmpty` | libs/common/src/event_cache/types.rs:72-91 | adding events one by one keeps the first of each transaction hash, and the mark is the highest block kept |
| `EventTables.FirstPerHashFrom` | libs/common/src/event_cache/types.rs:72-91 | each kept event is the first one in the log with its hash |
| `EventTables.SyncRefinesScan` | libs/common/src/event_cache/indexer.rs:286-320 | a successful incremental sync turns the scan up to one head into the full scan up to the next |
| `EventTables.RescanKnown` | libs/common/src/event_cache/indexer.rs:286-300 | rescanned blocks, block 0 among them, add nothing |
| `EventTables.AllKept` | libs/common/src/event_cache/types.rs:72-91 | every event is kept if and only if no two share a transaction hash |
| `EventTables.FetchSplit` | libs/common/src/event_cache/indexer.rs:129-200 | on an ordered log a block range splits at any block |
| `EventTables.FetchIsRange` | libs/common/src/event_cache/indexer.rs:155-200 | a fetch returns every event of the block range, once and in the order of the log |
| `EventTables.FetchedIsNew` | libs/common/src/event_cache/indexer.rs:288-310 | what a sync fetches are the entries above the mark, or all from the start block while there is none |
| `EventTables.ReportedAgainstAdded` | libs/common/src/event_cache/indexer.rs:302-334 | the reported count is the number fetched; it is the number added exactly when none was known and none repeats |
| `EventSync.EventCache.AddIndex` | libs/common/src/event_cache/types.rs:72-80 | one event joins the indices unless its hash is known; the pairs are untouched |
| `EventSync.EventCache.AddPair` | libs/common/src/event_cache/types.rs:83-91 | likewise for pairs |
| `EventSync.ReadLog` | libs/common/src/event_cache/indexer.rs:129-200 | the log between two blocks in order, or an error exactly when the head is missing or an entry does not decode |
| `EventSync.EventIndexer.Sync` | libs/common/src/event_cache/indexer.rs:286-320 | the cache after a full, failed or half-failed sync; it succeeds exactly when both heads arrive and everything new decodes, and reports the number of log entries above the old marks |
| `EventSync.EventWatcher.InitialSync` | libs/common/src/event_cache/watcher.rs:168-180 | cache, stored copy and outcome after the first sync, which always saves and reports all it fetched |
| `EventSync.EventWatcher.PollOnce` | libs/common/src/event_cache/watcher.rs:185-206 | cache, stored copy and outcome after a poll, which saves only what grew and reports by how much |
| `EventSync.EventWatcher.constructor` | libs/common/src/event_cache/watcher.rs:132-146 | the stored copy, or an empty cache if it is missing or unreadable |
| `EventSync.ApplyMatchesWatcher` | libs/common/src/event_cache/watcher.rs:168-206 | the steps the run theorems range over carry exactly the watcher's caches |
| `EventSync.CacheIsFullScan` | libs/common/src/event_cache/indexer.rs:286-320 | after any run of syncs, failures, saves, failed saves and restarts the cache and the stored copy equal the full scan up to the last head their lineage fetched |
| `EventSync.SyncsAreIncremental` | libs/common/src/event_cache/indexer.rs:286-320 | after any run another sync at the same head reports nothing if and only if nothing was fetched or no fetched event lies above the mark; without shared hashes if and only if nothing was fetched or a mark was left |
| `EventSync.EveryEventCached` | libs/common/src/event_cache/types.rs:55-58 | after any run the cache holds every event fetched if and only if no two of a kind come from one transaction |
| `EventSync.SharedTransactionDropped` | libs/common/src/event_cache/types.rs:72-91 | a run in which two pairs of one transaction are fetched and one is cached |
| `EventSync.UndecodableBlocks` | libs/common/src/event_cache/indexer.rs:129-280 | no run ever fetches past an entry that does not decode, of either kind |
| `EventSync.UndecodableIndexStopsAll` | libs/common/src/event_cache/indexer.rs:300-310 | once the chain has reached an undecodable index entry, no later run syncs anything of either kind |
| `EventSync.SavedAfterPoll` | libs/common/src/event_cache/watcher.rs:185-206 | after a successful poll the stored copy equals memory if and only if the poll grew the cache or they agreed before |
| `EventSync.StoredAgreesIff` | libs/common/src/event_cache/watcher.rs:168-206 | over any run whose restarts could read the copy, memory and stored copy agree if and only if no half-failed sync or failed save has added an event since the last save or restart |
| `EventSync.StoredAgreesByLog` | libs/common/src/event_cache/watcher.rs:168-206 | over any run they agree if and only if, of each kind, every event between the blocks the two were fetched to has a transaction hash that occurs before |
| `EventSync.HalfFailedSyncUnsaved` | libs/common/src/event_cache/watcher.rs:185-206 | a run from the start in which a half-failed poll and then a successful one leave a cached event unstored |
| `Allocation.ProcessIndex` | bin/keeper/src/processor/processor.rs:142-238 | the order, the quiet outcome or the first failure for one index |
| `Allocation.ProcessedShape` | bin/keeper/src/processor/processor.rs:142-238 | an order is for its own index, needs a positive net, carries the gross totals and one allocation per weight, and is sized by the net times the multiplier, rounded down |
| `Allocation.OutcomeExact` | bin/keeper/src/processor/processor.rs:142-238 | which outcome an index has, exactly: no known weights, no market data or nothing to spend, the first asset with a zero price or an oversized quantity, an oversized order, or an order |
| `Allocation.TargetRounds` | bin/keeper/src/processor/processor.rs:184-199 | the share and the target are the largest in units of 10^-18 that do not exceed the exact ones |
| `Allocation.TargetFits` | bin/keeper/src/processor/processor.rs:184-199 | a target is the net's share rounded down, at most the net, and never overflows |
| `Allocation.TargetsWithinNet` | bin/keeper/src/processor/processor.rs:184-199 | the targets sum to at most the net N and fall short by less than n·(N/SCALE + 1) |
| `Allocation.BasketWithinNet` | bin/keeper/src/processor/processor.rs:184-219 | no quantity times price overflows, and the basket costs at most the net collateral at the quoted prices |
| `Allocation.BasketAgainstOrderNet` | bin/keeper/src/processor/processor.rs:184-238 | the budget of the basket and the net of the order agree exactly when no prefix of the orders went below both zero and the final total |
| `Allocation.WithdrawnThenDepositedArises` | bin/keeper/src/accumulator/types.rs:132-153 | a withdrawal of one unit and then a deposit of one unit leave the record the next row processes |
| `Allocation.OverspentOrder` | bin/keeper/src/processor/processor.rs:142-238 | processing an index with a withdrawal and then a deposit of one unit gives an order whose net is zero and whose basket costs one unit |
| `Allocation.TotalCollateral` | bin/keeper/src/processor/processor.rs:241-246 | the summary's fold is the true sum, and panics exactly when that does not fit |
| `PairListing.SelectPairs` | bin/scripts/src/bin/list_bitget_pairs.rs:311-372 | one product per base coin: the first USDC one, otherwise the first USDT one |
| `PairListing.ListPairs` | bin/scripts/src/bin/list_bitget_pairs.rs:136-177 | base coins strictly ascending and numbered from 1, listed exactly when an online USDC or USDT pair exists, quoted in USDC exactly when one is online, with the minimum and scales of the first online product of its coins |
| `PairListing.ScaleMeaning` | bin/scripts/src/bin/list_bitget_pairs.rs:174-175 | a scale is the byte its text spells, leading zeros and a plus sign allowed, or the fallback if it spells none |
| `PairListing.ListingOrderIndependent` | bin/scripts/src/bin/list_bitget_pairs.rs:162-177 | the written list does not depend on the hash map's order |
| `PairListing.IdsIncrease` | bin/scripts/src/bin/list_bitget_pairs.rs:165-177 | ids strictly increase if and only if the list is shorter than 2^32 |
| `PairListing.LexIsStrictOrder` | bin/scripts/src/bin/list_bitget_pairs.rs:162-163 | string comparison is a strict total order, so sorting is unambiguous |
| `PairListing.LexIsDictionary` | bin/scripts/src/bin/list_bitget_pairs.rs:162-163 | the order of the list is that of the first differing character, a proper prefix first |
| `PairListing.CheckForChanges` | bin/scripts/src/bin/list_bitget_pairs.rs:375-423 | each new base, then each vanished one, then each changed quote is reported once and nothing else |
| `PairListing.AllReportsTell` | bin/scripts/src/bin/list_bitget_pairs.rs:396-420 | exactly the new and the vanished base coins with their symbols and ids and the changed quotes, the old one first |
| `PairListing.ByBaseIsLast` | bin/scripts/src/bin/list_bitget_pairs.rs:387-394 | of several pairs with one base coin the last is compared |
| `PairListing.NothingReported` | bin/scripts/src/bin/list_bitget_pairs.rs:375-423 | nothing is reported exactly when the two lists have the same bases with the same quotes |
| `PairListing.NoChangesMeansSameIdentities` | bin/scripts/src/bin/list_bitget_pairs.rs:375-423 | between two written lists nothing is reported if and only if ids, symbols, bases and quotes are the same throughout |
| `PairListing.UpToDateIff` | bin/scripts/src/bin/list_bitget_pairs.rs:192-195 | with nothing reported, the written list is up to date if and only if minimum and both scales agree throughout |
| `PairListing.ListChangedMinimum` | bin/scripts/src/bin/list_bitget_pairs.rs:192-195 | two product lists whose listings differ in a minimum only: nothing is reported |
| `Polling.ChainEventListener.AddVaults` | bin/keeper/src/chain/event_listener.rs:110-124 | the new vaults joined in order, each once, and their number |
| `Polling.AddedAreNew` | bin/keeper/src/chain/event_listener.rs:110-124 | behind the old vaults come the new ones, each once, in the order of their first mention |
| `Polling.QueryIsRange` | bin/keeper/src/chain/event_listener.rs:595-607 | a query returns every log of the watched vaults in the block range, once and in chain order |
| `Polling.EmittedUpTo` | bin/keeper/src/chain/event_listener.rs:609-628 | exactly the parseable logs before the first malformed one are emitted, and it gets through exactly when there is none |
| `Polling.ChainEventListener.EmitLogs` | bin/keeper/src/chain/event_listener.rs:609-628 | the parseable logs up to the first malformed one, which aborts |
| `Polling.ChainEventListener.PollEvents` | bin/keeper/src/chain/event_listener.rs:577-634 | the block mark and the emitted events after a poll, for every way it can end; it succeeds exactly when the head arrives and, if there is anything to ask, the answer does and holds no malformed log |
| `Polling.PolledIsRun` | bin/keeper/src/chain/event_listener.rs:577-634 | an uninterrupted poll is a run of the steps the theorems range over |
| `Polling.PollingTilesChain` | bin/keeper/src/chain/event_listener.rs:577-634 | over every run on any chain the finished windows tile the blocks from the start, everything they asked for is emitted at least once, and nothing but parseable later logs is |
| `Polling.PollingIsOnePass` | bin/keeper/src/chain/event_listener.rs:577-634 | on a chain where no abort can repeat an event, the emitted events are exactly one ordered pass over the chain |
| `Polling.WatchedVaultComplete` | bin/keeper/src/chain/event_listener.rs:110-124 | on any chain, every parseable log of a vault on the list is emitted at least once, from the end of a query that was on its way without it if that was processed, else from the last processed block |
| `Polling.WatchedVaultOnce` | bin/keeper/src/chain/event_listener.rs:110-124 | on a chain where no abort can repeat an event, exactly once and in chain order |
| `Polling.NeverRepeatsIffSheltered` | bin/keeper/src/chain/event_listener.rs:609-633 | no run emits a log twice if and only if, wherever a malformed log follows a parseable one past the start block, another malformed log of the parseable one's block comes before it on one of the two vaults |
| `Polling.RepeatingChain` | bin/keeper/src/chain/event_listener.rs:609-633 | a two-log chain and a run on it that emits one log twice |
| `Polling.WellFormedNeverRepeats` | bin/keeper/src/chain/event_listener.rs:614-618 | a chain without malformed logs repeats nothing |

## Left out

- RPC, WebSocket and HTTP transport, ABI encoding and signing: replaced by a log, a head that may be missing and an oracle of send outcomes.
- Floating point: `process_index` weighs assets in f64; the model takes natural weights and shares rounded down to 18 decimals, and claims nothing about IEEE results.
- The scaling of a literal with more than 18 decimals is modelled with its wrap-around, but no exactness is stated there.
- AbacusSyntax.ParseInstructionList: tokens are given; how Rust splits text into tokens and resolves underscores and radix is not modelled, and upper-casing covers ASCII only.
- Assembler.Assemble: the byte a float literal is cast to, with Rust's rounding and saturation, comes with the literal and is not computed.
- VectorText.DisplayList: the matrix form of the same printer is not modelled.
- AccumulatorRuns.OrdersConserved: the senders and the clock are steps of one state machine; shutdown, where dropped senders close the channel, is not a step.
- EventSync.CacheIsFullScan: heads are assumed not to decrease and the log to be append-only; chain reorganisations are not modelled.
- EventSync.ReadLog: block numbers are unbounded, so the increment past the last u64 block is not modelled.
- Polling.ChainEventListener.PollEvents: delivery of an emitted event to its handler is not modelled, and the WebSocket path and backtracking are left out.
- CollateralFlow.CollateralConserved: what the older submission path does with the batches of the receive loop is not modelled beyond building no settlement order from them.
- Settlement.OnchainSubmitter.SettleBatch: elapsed time, batch ids and log lines are not modelled, and delays between attempts take no time.
- PairListing.SelectPairs: the statistics counters are not modelled.
- The deprecated payload submission, the claim handler, event types, configuration, the steward client, the asset extractor and the vendor client: straight-line code with only easy properties.
- JSON bytes of the cache and the temporary-file rename: saving either replaces the stored copy or fails.
- The batch-size trigger is declared in the keeper but never built, so no flush carries it.
