/** The raffle contract of `src/lib.rs`: its persistent state and one pure function per
    entry point (and per private helper), each returning either the panic that aborts the call
    or the new state together with the transfers the call schedules.

    The ledger's ambient inputs of a call (caller, attached deposit, block height, block
    randomness) arrive in an `Env`; the generator behind `gen_range` is a `Sampler`. */
module Contract {
  import opened Types
  import opened Raffles
  import opened Entropy
  import Terms

  /** The fields of `struct Contract`. */
  datatype State = State(
    blockIndex: BlockHeight,
    randomSeed: Seed,
    raffles: map<Id, Raffle>,
    nextId: Id)

  /** What the ledger supplies to one call: `predecessor_account_id`, `attached_deposit`,
      `block_index` and `random_seed`. */
  datatype Env = Env(
    predecessor: AccountId,
    attachedDeposit: Balance,
    blockIndex: BlockHeight,
    randomSeed: seq<Byte>)

  /** Transfers a call schedules; they take place only if the call does not abort. */
  datatype Effect =
    | Refund(receiver: AccountId, amount: Balance)
    | Payout(receiver: AccountId, amount: Balance)
    | NftTransfer(nftContract: AccountId, receiver: AccountId, tokenId: TokenId)

  /** A call that completed: the state it leaves, the transfers it scheduled, its return value. */
  datatype Committed<T> = Committed(state: State, effects: seq<Effect>, value: T)

  /** A random draw: the state with its seed bookkeeping updated, and the drawn index. */
  datatype Drawn = Drawn(state: State, index: nat)

  const INITIAL: State := State(0, ZERO_SEED, map[], 0)

  /** `new`: refuses to run on an account that already holds state. */
  function New(stateExists: bool): (r: Result<State>)
    ensures r.Ok? <==> !stateExists
    ensures r.Abort? ==> r.reason == AlreadyInitialized
    ensures r.Ok? ==> r.value.raffles == map[] && r.value.nextId == 0 && r.value.blockIndex == 0
    ensures r.Ok? ==> forall k :: 0 <= k < SEED_LENGTH ==> r.value.randomSeed[k] == 0
  {
    if stateExists then Abort(AlreadyInitialized) else Ok(INITIAL)
  }

  /** `nft_on_transfer`: the NFT contract calling in (`env.predecessor`) has just handed
      `tokenId` to this contract on behalf of `previousOwner`; the raffle terms are read from
      `msg`. The `sender` argument is never consulted. Returns `false`: keep the token. */
  function NftOnTransfer(st: State, env: Env, sender: AccountId, previousOwner: AccountId,
                         tokenId: TokenId, msg: seq<Byte>): (r: Result<Committed<bool>>)
    ensures r.Ok? <==> Terms.ParseTerms(msg).Ok? && st.nextId + 1 < U64_LIMIT
    ensures r.Ok? ==>
      var t := Terms.ParseTerms(msg).value;
      var c := r.value;
      && c.value == false
      && c.effects == []
      && c.state.nextId == st.nextId + 1
      && c.state.raffles.Keys == st.raffles.Keys + {st.nextId}
      && c.state.raffles[st.nextId]
         == Raffle(previousOwner, Nft(env.predecessor, tokenId), t.participantsNumber, [],
                   t.ticketPrice, Opened, None)
      && (forall id :: id in st.raffles && id != st.nextId ==> c.state.raffles[id] == st.raffles[id])
      && c.state.blockIndex == st.blockIndex
      && c.state.randomSeed == st.randomSeed
  {
    match Terms.ParseTerms(msg)
    case Abort(p) => Abort(p)
    case Ok(t) =>
      if st.nextId + 1 >= U64_LIMIT then Abort(IdOverflow)
      else
        var raffle := Raffle(previousOwner, Nft(env.predecessor, tokenId), t.participantsNumber,
                             [], t.ticketPrice, Opened, None);
        var id := st.nextId;
        Ok(Committed(st.(raffles := st.raffles[id := raffle], nextId := id + 1), [], false))
  }

  /** The local copy `join_raffle` builds: the stored raffle with the caller pushed last. */
  function WithEntry(raffle: Raffle, caller: AccountId): (r: Raffle)
    ensures SameTerms(raffle, r)
    ensures raffle.participants <= r.participants
    ensures |r.participants| == |raffle.participants| + 1
    ensures r.participants[|raffle.participants|] == caller
    ensures multiset(r.participants)[caller] == multiset(raffle.participants)[caller] + 1
    ensures r.status == raffle.status && r.winner == raffle.winner
  {
    var r := raffle.(participants := raffle.participants + [caller]);
    assert r.participants[..|raffle.participants|] == raffle.participants;
    r
  }

  /** `participants.len() as u32 == participants_number` on the local copy. */
  predicate DrawTriggered(raffle: Raffle, caller: AccountId) {
    |WithEntry(raffle, caller).participants| % U32_LIMIT == raffle.participantsNumber as int
  }

  /** The refund of an overpaid ticket, if any. */
  function RefundOf(env: Env, price: Balance): (refunds: seq<Effect>)
    requires price <= env.attachedDeposit
    ensures |refunds| <= 1
    ensures forall e :: e in refunds ==> e == Refund(env.predecessor, env.attachedDeposit - price)
    ensures refunds == [] <==> env.attachedDeposit == price
  {
    var refund := env.attachedDeposit - price;
    if refund != 0 then [Refund(env.predecessor, refund)] else []
  }

  predicate HasPayout(effects: seq<Effect>) {
    exists i :: 0 <= i < |effects| && effects[i].Payout?
  }

  predicate HasNftTransfer(effects: seq<Effect>) {
    exists i :: 0 <= i < |effects| && effects[i].NftTransfer?
  }

  /** `join_raffle`: checks the raffle and the deposit, schedules the refund, pushes the caller
      onto a LOCAL copy of the raffle and draws when that copy is full. The copy is never
      written back, so the stored raffle does not record the entry. */
  function JoinRaffle(st: State, env: Env, gen: Sampler, raffleId: Id): (r: Result<Committed<()>>)
    ensures raffleId !in st.raffles ==> r == Abort(NoSuchRaffle)
    ensures raffleId in st.raffles && st.raffles[raffleId].status == Closed ==> r == Abort(RaffleNotActive)
    ensures (&& raffleId in st.raffles
             && st.raffles[raffleId].status == Opened
             && env.attachedDeposit < st.raffles[raffleId].ticketPrice) ==> r == Abort(SmallDeposit)
    ensures r.Ok? ==>
      && raffleId in st.raffles
      && st.raffles[raffleId].status == Opened
      && st.raffles[raffleId].ticketPrice <= env.attachedDeposit
    ensures r.Ok? ==>
      var price := st.raffles[raffleId].ticketPrice;
      && (env.attachedDeposit > price ==> 0 < |r.value.effects| && r.value.effects[0] == Refund(env.predecessor, env.attachedDeposit - price))
      && (env.attachedDeposit == price ==> forall e :: e in r.value.effects ==> !e.Refund?)
    ensures r.Ok? ==> (HasPayout(r.value.effects) <==> DrawTriggered(st.raffles[raffleId], env.predecessor))
    ensures r.Ok? && !DrawTriggered(st.raffles[raffleId], env.predecessor) ==> r.value.state == st
    ensures r.Ok? && DrawTriggered(st.raffles[raffleId], env.predecessor) ==>
      && Draw(st, env, gen, raffleId).Ok?
      && r.value.state == Draw(st, env, gen, raffleId).value.state
    ensures r.Ok? ==>
      r.value.effects
      == RefundOf(env, st.raffles[raffleId].ticketPrice)
         + (if DrawTriggered(st.raffles[raffleId], env.predecessor)
            then Draw(st, env, gen, raffleId).value.effects else [])
    ensures (&& raffleId in st.raffles
             && st.raffles[raffleId].status == Opened
             && st.raffles[raffleId].ticketPrice <= env.attachedDeposit) ==>
      (r.Ok? <==> !DrawTriggered(st.raffles[raffleId], env.predecessor) || Draw(st, env, gen, raffleId).Ok?)
  {
    if raffleId !in st.raffles then Abort(NoSuchRaffle)
    else
      var raffle := st.raffles[raffleId];
      if raffle.status != Opened then Abort(RaffleNotActive)
      else if env.attachedDeposit < raffle.ticketPrice then Abort(SmallDeposit)
      else
        var refunds := RefundOf(env, raffle.ticketPrice);
        if DrawTriggered(raffle, env.predecessor) then
          match Draw(st, env, gen, raffleId)
          case Abort(p) => Abort(p)
          case Ok(c) =>
            assert (refunds + c.effects)[|refunds|].Payout?;
            Ok(Committed(c.state, refunds + c.effects, ()))
        else
          Ok(Committed(st, refunds, ()))
  }

  /** `draw`: reloads the raffle from storage, draws an index below `participants_number`,
      pays the ticket proceeds to the creator, closes the raffle with the drawn participant as
      winner and schedules the prize transfer to the winner. */
  function Draw(st: State, env: Env, gen: Sampler, raffleId: Id): (r: Result<Committed<()>>)
    ensures raffleId !in st.raffles ==> r == Abort(MissingRaffle)
    ensures raffleId in st.raffles && st.raffles[raffleId].participants == [] ==> r.Abort?
    ensures (&& raffleId in st.raffles
             && st.raffles[raffleId].participantsNumber * st.raffles[raffleId].ticketPrice >= U128_LIMIT)
            ==> r.Abort?
    ensures (&& raffleId in st.raffles
             && GenerateRandom(st, env, gen, st.raffles[raffleId].participantsNumber).Ok?
             && GenerateRandom(st, env, gen, st.raffles[raffleId].participantsNumber).value.index
                < |st.raffles[raffleId].participants|
             && st.raffles[raffleId].participantsNumber * st.raffles[raffleId].ticketPrice < U128_LIMIT)
            ==> r.Ok?
    ensures r.Ok? ==> raffleId in st.raffles && r.value.state.raffles.Keys == st.raffles.Keys
    ensures r.Ok? ==>
      var before := st.raffles[raffleId];
      var after := r.value.state.raffles[raffleId];
      && (forall id :: id in st.raffles && id != raffleId ==> r.value.state.raffles[id] == st.raffles[id])
      && r.value.state.nextId == st.nextId
      && SameTerms(before, after)
      && after.participants == before.participants
      && after.status == Closed
      && after.winner.Some?
      && after.winner.value in before.participants
      && r.value.effects
         == [Payout(before.creator, before.participantsNumber * before.ticketPrice),
             NftTransfer(before.prize.smartContract, after.winner.value, before.prize.id)]
    ensures r.Ok? ==>
      var d := GenerateRandom(st, env, gen, st.raffles[raffleId].participantsNumber);
      && d.Ok?
      && d.value.index < |st.raffles[raffleId].participants|
      && r.value.state.raffles[raffleId].winner == Some(st.raffles[raffleId].participants[d.value.index])
      && r.value.state.blockIndex == d.value.state.blockIndex
      && r.value.state.randomSeed == d.value.state.randomSeed
  {
    if raffleId !in st.raffles then Abort(MissingRaffle)
    else
      var raffle := st.raffles[raffleId];
      match GenerateRandom(st, env, gen, raffle.participantsNumber)
      case Abort(p) => Abort(p)
      case Ok(d) =>
        if d.index >= |raffle.participants| then Abort(IndexOutOfBounds)
        else
          var winner := raffle.participants[d.index];
          var amount := raffle.participantsNumber * raffle.ticketPrice;
          if amount >= U128_LIMIT then Abort(PayoutOverflow)
          else
            var closed := raffle.(winner := Some(winner), status := Closed);
            Ok(Committed(
              d.state.(raffles := d.state.raffles[raffleId := closed]),
              [Payout(raffle.creator, amount), NftTransfer(raffle.prize.smartContract, winner, raffle.prize.id)],
              ()))
  }

  /** `generate_random`: takes the block's randomness when the call runs in a new block,
      seeds the generator with the current seed, bumps seed byte 0 for the next draw, and
      draws below `high`. */
  function GenerateRandom(st: State, env: Env, gen: Sampler, high: U32): (r: Result<Drawn>)
    ensures r.Abort? <==> high == 0 || (env.blockIndex != st.blockIndex && |env.randomSeed| != SEED_LENGTH)
    ensures r.Ok? ==> r.value.index < high
    ensures r.Ok? ==>
      && r.value.state.raffles == st.raffles
      && r.value.state.nextId == st.nextId
      && r.value.state.blockIndex == env.blockIndex
    ensures r.Ok? && env.blockIndex == st.blockIndex ==>
      && r.value.state.randomSeed == Bump(st.randomSeed)
      && r.value.index == gen(st.randomSeed, high)
    ensures r.Ok? && env.blockIndex != st.blockIndex ==>
      && |env.randomSeed| == SEED_LENGTH
      && r.value.state.randomSeed == Bump(env.randomSeed)
      && r.value.index == gen(env.randomSeed, high)
  {
    if env.blockIndex != st.blockIndex && |env.randomSeed| != SEED_LENGTH then Abort(SeedLength)
    else
      var seed: Seed := if env.blockIndex != st.blockIndex then env.randomSeed else st.randomSeed;
      var next := st.(blockIndex := env.blockIndex, randomSeed := Bump(seed));
      if high == 0 then Abort(EmptyRange)
      else Ok(Drawn(next, gen(seed, high)))
  }

  /** The open raffles among the ids below `bound`, in increasing id order. */
  function OpenedBelow(st: State, bound: nat): (r: seq<(Id, Raffle)>)
    requires bound <= U64_LIMIT
    ensures forall i :: 0 <= i < |r| ==>
      && r[i].0 < bound
      && r[i].0 in st.raffles
      && r[i].1 == st.raffles[r[i].0]
      && r[i].1.status == Opened
    ensures forall i, j :: 0 <= i < j < |r| ==> r[i].0 < r[j].0
    ensures forall id: Id :: id < bound && id in st.raffles && st.raffles[id].status == Opened ==>
      (id, st.raffles[id]) in r
  {
    if bound == 0 then []
    else
      var id: Id := bound - 1;
      var earlier := OpenedBelow(st, id);
      if id in st.raffles && st.raffles[id].status == Opened then earlier + [(id, st.raffles[id])]
      else earlier
  }

  /** `active_raffles`: every stored raffle whose status is `Opened`, in storage order (ids are
      handed out in increasing order and never removed, so storage order is id order). */
  function ActiveRaffles(st: State): (r: seq<(Id, Raffle)>)
    ensures forall i :: 0 <= i < |r| ==> r[i].0 in st.raffles && r[i].1 == st.raffles[r[i].0] && r[i].1.status == Opened
    ensures forall i, j :: 0 <= i < j < |r| ==> r[i].0 < r[j].0
    ensures forall id :: id in st.raffles && id < st.nextId && st.raffles[id].status == Opened ==>
      (id, st.raffles[id]) in r
  {
    OpenedBelow(st, st.nextId)
  }

  /** `get_raffle_by_id`. */
  function GetRaffleById(st: State, raffleId: Id): (r: Result<Raffle>)
    ensures r.Ok? <==> raffleId in st.raffles
    ensures r.Ok? ==> r.value == st.raffles[raffleId]
    ensures r.Abort? ==> r.reason == NoSuchRaffle
  {
    if raffleId in st.raffles then Ok(st.raffles[raffleId]) else Abort(NoSuchRaffle)
  }
}
