# Raffle contract model

A Dafny model of the NEAR raffle contract of `src/lib.rs` and its records in `src/raffle.rs`.
A creator sends an NFT to the contract with a message giving the number of seats and the ticket
price. Players buy tickets with `join_raffle`. When the last seat is taken, `draw` is meant to
pick a winner with a seeded generator, pay the ticket money to the creator and send the NFT to
the winner. As written, no raffle ever gets that far (see the list below).

Every entry point is a pure function. It takes the contract state and the values the ledger
supplies to a call (`Env`: caller, attached deposit, block height, block randomness), and returns
one of two things:

- `Abort(reason)` for a panic. The ledger rolls the call back, so no state change or transfer survives.
- The new state, the list of transfers the call schedules (`Refund`, `Payout`, `NftTransfer`) and its return value.

`rng.gen_range(0, high)` is a `Sampler`: any function of the seed and the bound that returns a
value below a positive bound.

Modules:

- `Types`: integer ranges, names and panics.
- `Raffles`: records and lifecycle predicates.
- `Decimal`: Rust's unsigned `from_str` and decimal rendering.
- `Utf8`: `str` slicing at char boundaries.
- `Terms`: the intake message.
- `Entropy`: seed, perturbation and generator.
- `Contract`: the entry points.
- `Lifecycle`: transactions, runs from `new` and the invariants.

The model follows the code as written:

- `join_raffle` pushes the caller onto a local copy of the raffle and never stores it. `draw`
  reloads the stored raffle, whose participant list is still empty. So in every state reachable
  from `new`:
  - every raffle is open, with no participants and no winner;
  - a join that succeeds changes nothing but schedules a refund of any overpayment;
  - a join that would fill a raffle aborts in `draw` on the index into the empty list.

  The ticket price of a successful join stays with the contract.
- The terms are read by position, not split at a comma. Bytes 0..5 are the seat count and
  bytes 6.. the price. Byte 5 must be a one-byte (ASCII) character, but its value is never
  parsed (`Terms.SeparatorIsAscii`). A message such as `2,100` is refused; `00002,100` is
  accepted.
- Nothing checks that the caller differs from the creator, that the seat count is at least 2,
  or who the `sender` of the NFT was. Seat counts 0 and 1 are accepted. With 0 seats a join never
  triggers a draw. With 1 seat every join aborts.
- A malformed message panics: `unwrap` is used. Nothing returns `true` to ask for the NFT back.
- The price is taken in the ledger's smallest unit. It is not scaled.
- Integer overflow panics. This covers `next_id += 1` at the top of `u64` and the payout
  `participants_number * ticket_price` at or above 2^128, as with overflow checks enabled.
- `msg` is modelled as its UTF-8 bytes. `&msg[..5]` and `&msg[6..]` panic past the end or inside
  a multi-byte character. For every well-formed message these checks are implied by the two
  parses (`Terms.AcceptedExactly`).

## Model

| member | source | states |
|---|---|---|
| Decimal.ParseUnsigned | src/lib.rs:66-67 | an accepted field is an optional '+' followed by ASCII digits, and its value lies below the type's limit |
| Decimal.ParseRendered | src/lib.rs:66-67 | parsing inverts decimal rendering, also with a leading '+' and leading zeros |
| Decimal.RejectsOverflow | src/lib.rs:66-67 | a number at or above the type's limit is refused however it is written (optional '+', leading zeros), so an oversized seat count or price panics |
| Decimal.RejectsSignsAndEmpty | src/lib.rs:66-67 | an empty field, a lone '+' and anything starting with '-' are refused |
| Utf8.AsciiPrefixEndsOnBoundary | src/lib.rs:63-64 | in well-formed UTF-8 the index after an ASCII prefix is a char boundary, so that slice cannot panic |
| Terms.ParseTerms | src/lib.rs:62-67 | success requires at least 6 bytes, a u32 in bytes 0..5 and a u128 from byte 6; fewer than 6 bytes always aborts; the seat count is below 10^5 |
| Terms.CountBound | src/lib.rs:63-66 | a five-byte seat field that parses denotes a number below 10^5 |
| Terms.AcceptedExactly | src/lib.rs:63-67 | for a well-formed message, intake succeeds iff it has at least 6 bytes and both fields parse |
| Terms.SeparatorIsAscii | src/lib.rs:63-64 | in well-formed UTF-8, an accepted message has an ASCII byte 5, since a multi-byte character there makes `&msg[6..]` panic |
| Terms.SeparatorIgnored | src/lib.rs:63-64 | replacing byte 5 by any other non-continuation byte does not change the outcome |
| Terms.DecodeEncode | src/lib.rs:62-67 | five zero-padded digits, any separator byte, then the decimal price: intake decodes exactly those terms |
| Terms.CommaSeparatedRejected | src/lib.rs:63-67 | "2,100" aborts (slice past the end), "2,1000" aborts (parse), "00002,100" yields 2 seats at 100 |
| Entropy.Bump | src/lib.rs:185 | byte 0 becomes (byte 0 + 1) mod 256; bytes 1..31 are unchanged |
| Entropy.BumpTimesShape | src/lib.rs:183-185 | after n bumps, only byte 0 has moved, by n mod 256 |
| Entropy.SameBlockSeedsRepeat | src/lib.rs:173-185 | the seeds bumped i <= j times are equal iff j - i is a multiple of 256, so draws i and j of one block (`Lifecycle.SameBlockDraws`) repeat their generator state exactly then |
| Contract.New | src/lib.rs:39-51 | aborts iff state exists; otherwise no raffles, next id 0, block 0, all-zero seed |
| Contract.NftOnTransfer | src/lib.rs:53-93 | succeeds iff the terms parse and next_id + 1 fits in u64; stores a fresh Opened raffle of the caller's token for the previous owner under the old next_id; next_id grows by one; other entries, block and seed unchanged; returns false with no transfers |
| Contract.RefundOf | src/lib.rs:110-114 | at most one refund, of deposit - price to the caller, and none exactly when the deposit equals the price |
| Contract.WithEntry | src/lib.rs:117 | the caller is appended at the end without de-duplication: one more entry, the last one is the caller, the caller's count grows by one even if already present; terms, status and winner unchanged |
| Contract.JoinRaffle | src/lib.rs:95-132 | aborts on an unknown id, a closed raffle, a deposit below the price; refunds the excess first; schedules a payout iff the pushed length (as u32) equals the seat count; its transfers are exactly the refund followed by the draw's transfers; on an open raffle with enough deposit it succeeds iff no draw is triggered or the draw succeeds; without a draw the state is returned unchanged |
| Contract.Draw | src/lib.rs:134-169 | on a stored raffle, succeeds iff the draw succeeds, the drawn index is below the stored list's length and seats * price is below 2^128; aborts on an empty stored list or a payout of 2^128 or more; on success closes the raffle with a participant as winner, keeps terms and participants, touches no other entry, pays seats * price to the creator and sends the prize token to the winner |
| Contract.GenerateRandom | src/lib.rs:171-193 | aborts iff the bound is 0 or a new block brings a seed that is not 32 bytes; the index is below the bound; a new block replaces block and seed; the seed used is bumped; raffles untouched |
| Contract.ActiveRaffles | src/lib.rs:195-202 | only open stored raffles with their stored records, in increasing id order, and every open raffle with an allocated id |
| Contract.GetRaffleById | src/lib.rs:204-209 | returns the stored raffle iff the id is stored, otherwise aborts with "no raffle" |
| Lifecycle.StepKeepsWellFormed | src/lib.rs:70-165 | each committed call keeps winner set iff Closed, winner among participants and participants at most the seat count; no raffle disappears or changes its terms; closed raffles stay as they are |
| Lifecycle.RunKeepsWellFormed | src/raffle.rs:14-20 | across any run, creator, prize, seat count and price never change, participants only grow at the end, closed raffles never change |
| Lifecycle.JoinNeverRecordsEntry | src/lib.rs:96-136 | on a reachable state a join succeeds iff the id exists, the deposit covers the price and the seat count is not 1; it leaves the state unchanged and schedules only a refund |
| Lifecycle.StepKeepsDeployed | src/lib.rs:53-132 | every committed call keeps all stored raffles fresh and the ids dense |
| Lifecycle.ReachableIsDeployed | src/lib.rs:40-136 | every state reachable from `new` holds only Opened raffles with no participants and no winner, under ids 0 .. next_id-1 |
| Lifecycle.ActiveRafflesExactly | src/lib.rs:196-202 | on a well-formed state an (id, raffle) pair is listed iff that raffle is stored under that id and Opened |
| Lifecycle.CreatedRaffleIsQueryable | src/lib.rs:83-86 | after intake, the new id returns a fresh raffle of the previous owner's token; every other id answers as before |
| Lifecycle.SecondDrawInBlockReseeds | src/lib.rs:175-188 | a second draw in the same block succeeds iff its bound is positive; the first draws from the stored seed (same block) or the block's seed (new block), the second from that seed bumped, never equal to it |
| Lifecycle.SameBlockDraws | src/lib.rs:172-188 | n draws in the block the state last saw all succeed iff every bound is positive; draw k uses the stored seed bumped k times, and afterwards the stored seed is bumped n times |
| Lifecycle.FullRaffleSettles | src/lib.rs:134-168 | a stored raffle with three entries for three seats at 100 closes with one of the three as winner, pays 300 to the creator and sends the prize to the winner |

## Left out

- Execution of the scheduled transfers. `Promise::transfer` and the cross-contract `nft_transfer`
  call are effect records only, without their gas and one-yoctoNEAR deposit constants. Their
  success or failure happens outside the call and is not modelled.
- `log!` output and the `Event` display wrapper of `contract/src/event.rs`. These are log formatting only.
- `src/nft_transfer.rs`: a trait declaration that `lib.rs` does not use.
- Borsh and serde serialisation and `setup_alloc`. `UnorderedMap` is a Dafny `map`.
- The internals of `StdRng` and `gen_range`, and the quality of the block randomness. Draws are
  any function of seed and bound that stays below the bound. Uniformity is not stated.
- Contract.ActiveRaffles: lists the open raffles among the ids below `next_id`. Storage order is
  insertion order, and ids are allocated upward and never removed, so in every well-formed state
  this is every open raffle (`Lifecycle.ActiveRafflesExactly`).
- Utf8.Wellformed: checks that each lead byte has the right number of continuation bytes. It
  does not reject overlong forms or surrogates. It is looser than real UTF-8, so results proved
  for it hold for every Rust string.
- `#[payable]` and the other NEAR attributes, and the read-only nature of the views. The queries
  take a state and return a value, so they cannot change state.
