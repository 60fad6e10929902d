/** Sequences of calls against the contract, with the ledger's all-or-nothing commit, and the
    invariants they keep.

    Two families of facts are proved. Some hold of every state the calls could be applied to
    (every raffle is coherent, its terms never change, a closed raffle is never touched again).
    Others describe the states actually reachable from `new`: because `join_raffle` never writes
    its entry back, every stored raffle stays open and empty, every join that succeeds leaves
    the state as it was, and every join that fills a raffle aborts in the draw. */
module Lifecycle {
  import opened Types
  import opened Raffles
  import opened Entropy
  import opened Contract

  /** A call that may change state. The queries only read state and are left out of runs. */
  datatype Call =
    | NftOnTransferCall(sender: AccountId, previousOwner: AccountId, tokenId: TokenId, msg: seq<Byte>)
    | JoinRaffleCall(raffleId: Id)

  /** One transaction: a call together with what the ledger supplies to it. */
  datatype Tx = Tx(env: Env, call: Call)

  function Step(st: State, gen: Sampler, tx: Tx): Result<(State, seq<Effect>)> {
    match tx.call
    case NftOnTransferCall(sender, previousOwner, tokenId, msg) =>
      (match NftOnTransfer(st, tx.env, sender, previousOwner, tokenId, msg)
       case Abort(p) => Abort(p)
       case Ok(c) => Ok((c.state, c.effects)))
    case JoinRaffleCall(raffleId) =>
      (match JoinRaffle(st, tx.env, gen, raffleId)
       case Abort(p) => Abort(p)
       case Ok(c) => Ok((c.state, c.effects)))
  }

  /** The ledger commits a call that completes and rolls back one that panics. */
  function Apply(st: State, gen: Sampler, tx: Tx): State {
    match Step(st, gen, tx)
    case Ok(done) => done.0
    case Abort(_) => st
  }

  function Run(st: State, gen: Sampler, trace: seq<Tx>): State
    decreases |trace|
  {
    if |trace| == 0 then st else Run(Apply(st, gen, trace[0]), gen, trace[1..])
  }

  /** Every stored id was handed out, and every stored raffle is coherent. */
  predicate WellFormed(st: State) {
    forall id :: id in st.raffles ==> id < st.nextId && Coherent(st.raffles[id])
  }

  /** What every reachable state looks like: ids 0 .. nextId-1 are all stored, and every
      stored raffle is still exactly as intake created it. */
  predicate AsDeployed(st: State) {
    && WellFormed(st)
    && (forall id: Id :: id < st.nextId ==> id in st.raffles)
    && (forall id :: id in st.raffles ==> Fresh(st.raffles[id]))
  }

  /** Every raffle present before a call is present after it as a later version of itself. */
  predicate AllEvolve(st: State, st': State) {
    forall id :: id in st.raffles ==> id in st'.raffles && Evolves(st.raffles[id], st'.raffles[id])
  }

  /** Coherence is kept by every call, no raffle disappears, and no raffle changes its terms,
      loses participants, or changes once closed. */
  lemma StepKeepsWellFormed(st: State, gen: Sampler, tx: Tx)
    requires WellFormed(st)
    ensures Step(st, gen, tx).Ok? ==>
      var st' := Step(st, gen, tx).value.0;
      WellFormed(st') && AllEvolve(st, st') && st.nextId <= st'.nextId
  {
    if Step(st, gen, tx).Ok? {
      var st' := Step(st, gen, tx).value.0;
      match tx.call
      case NftOnTransferCall(sender, previousOwner, tokenId, msg) =>
        assert st.nextId !in st.raffles;
      case JoinRaffleCall(raffleId) =>
        var raffle := st.raffles[raffleId];
        if DrawTriggered(raffle, tx.env.predecessor) {
          var closed := st'.raffles[raffleId];
          assert Coherent(closed);
          assert Evolves(raffle, closed);
        }
    }
  }

  /** From any state, a whole run keeps coherence and every raffle only evolves. */
  lemma {:induction false} RunKeepsWellFormed(st: State, gen: Sampler, trace: seq<Tx>)
    requires WellFormed(st)
    ensures WellFormed(Run(st, gen, trace))
    ensures AllEvolve(st, Run(st, gen, trace))
    decreases |trace|
  {
    if |trace| > 0 {
      var next := Apply(st, gen, trace[0]);
      StepKeepsWellFormed(st, gen, trace[0]);
      assert WellFormed(next) && AllEvolve(st, next);
      RunKeepsWellFormed(next, gen, trace[1..]);
      var last := Run(next, gen, trace[1..]);
      forall id | id in st.raffles
        ensures id in last.raffles && Evolves(st.raffles[id], last.raffles[id])
      {
        EvolvesTransitive(st.raffles[id], next.raffles[id], last.raffles[id]);
      }
    }
  }

  /** A join on a deployed state never changes the state: the entry is pushed onto a copy
      that is dropped, and a join that would fill the raffle aborts because the draw reloads
      the raffle with no participants. No payout or prize transfer is ever scheduled. */
  lemma JoinNeverRecordsEntry(st: State, env: Env, gen: Sampler, raffleId: Id)
    requires AsDeployed(st)
    ensures raffleId in st.raffles && DrawTriggered(st.raffles[raffleId], env.predecessor) ==>
      JoinRaffle(st, env, gen, raffleId).Abort?
    ensures JoinRaffle(st, env, gen, raffleId).Ok? <==>
      && raffleId in st.raffles
      && st.raffles[raffleId].ticketPrice <= env.attachedDeposit
      && st.raffles[raffleId].participantsNumber != 1
    ensures JoinRaffle(st, env, gen, raffleId).Ok? ==>
      var c := JoinRaffle(st, env, gen, raffleId).value;
      && c.state == st
      && !HasPayout(c.effects)
      && !HasNftTransfer(c.effects)
      && |c.effects| <= 1
  {
  }

  /** Every call that commits on a deployed state leaves a deployed state. */
  lemma StepKeepsDeployed(st: State, gen: Sampler, tx: Tx)
    requires AsDeployed(st)
    ensures AsDeployed(Apply(st, gen, tx))
  {
  }

  /** Every state reachable from `new` is deployed: no raffle ever records a participant,
      none ever closes, none ever has a winner, and the ids in use are exactly 0 .. nextId-1. */
  lemma {:induction false} ReachableIsDeployed(gen: Sampler, trace: seq<Tx>)
    ensures New(false).Ok?
    ensures AsDeployed(Run(New(false).value, gen, trace))
    ensures
      var st := Run(New(false).value, gen, trace);
      forall id :: id in st.raffles ==>
        st.raffles[id].status == Opened && st.raffles[id].participants == [] && st.raffles[id].winner == None
  {
    RunKeepsDeployed(New(false).value, gen, trace);
  }

  lemma {:induction false} RunKeepsDeployed(st: State, gen: Sampler, trace: seq<Tx>)
    requires AsDeployed(st)
    ensures AsDeployed(Run(st, gen, trace))
    decreases |trace|
  {
    if |trace| > 0 {
      StepKeepsDeployed(st, gen, trace[0]);
      RunKeepsDeployed(Apply(st, gen, trace[0]), gen, trace[1..]);
    }
  }

  /** On a well-formed state `active_raffles` lists exactly the open raffles. */
  lemma ActiveRafflesExactly(st: State, id: Id, raffle: Raffle)
    requires WellFormed(st)
    ensures (id, raffle) in ActiveRaffles(st) <==>
      id in st.raffles && st.raffles[id] == raffle && raffle.status == Opened
  {
  }

  /** The raffle intake stores is what `get_raffle_by_id` then returns for the allocated id,
      and every other id answers as before. */
  lemma CreatedRaffleIsQueryable(st: State, env: Env, sender: AccountId, previousOwner: AccountId,
                                 tokenId: TokenId, msg: seq<Byte>, other: Id)
    requires NftOnTransfer(st, env, sender, previousOwner, tokenId, msg).Ok?
    ensures
      var st' := NftOnTransfer(st, env, sender, previousOwner, tokenId, msg).value.state;
      var r := GetRaffleById(st', st.nextId);
      && r.Ok?
      && Fresh(r.value)
      && r.value.creator == previousOwner
      && r.value.prize == Nft(env.predecessor, tokenId)
    ensures other != st.nextId ==>
      var st' := NftOnTransfer(st, env, sender, previousOwner, tokenId, msg).value.state;
      GetRaffleById(st', other) == GetRaffleById(st, other)
  {
  }

  /** Two draws in the same block: the second one seeds its generator with the first one's
      seed bumped, so the two never start from the same generator state. */
  lemma SecondDrawInBlockReseeds(st: State, env: Env, gen: Sampler, high1: U32, high2: U32)
    requires GenerateRandom(st, env, gen, high1).Ok?
    ensures
      var first := GenerateRandom(st, env, gen, high1).value;
      var second := GenerateRandom(first.state, env, gen, high2);
      && (second.Ok? <==> high2 > 0)
      && (env.blockIndex == st.blockIndex ==>
            && first.index == gen(st.randomSeed, high1)
            && (second.Ok? ==> second.value.index == gen(Bump(st.randomSeed), high2))
            && Bump(st.randomSeed) != st.randomSeed)
      && (env.blockIndex != st.blockIndex ==>
            && |env.randomSeed| == SEED_LENGTH
            && first.index == gen(env.randomSeed, high1)
            && (second.Ok? ==> second.value.index == gen(Bump(env.randomSeed), high2))
            && Bump(env.randomSeed) != env.randomSeed)
  {
  }

  /** Successive `generate_random` calls with the bounds `highs`, all under the same ledger
      values: the state they leave and the indices they draw, or the first panic. */
  function DrawSeries(st: State, env: Env, gen: Sampler, highs: seq<U32>): Result<(State, seq<nat>)>
    decreases |highs|
  {
    if |highs| == 0 then Ok((st, []))
    else
      match GenerateRandom(st, env, gen, highs[0])
      case Abort(p) => Abort(p)
      case Ok(d) =>
        match DrawSeries(d.state, env, gen, highs[1..])
        case Abort(p) => Abort(p)
        case Ok(rest) => Ok((rest.0, [d.index] + rest.1))
  }

  /** `n` draws in the block the state last saw: all succeed iff every bound is positive; draw
      `k` seeds its generator with the stored seed bumped `k` times, and afterwards the stored
      seed has been bumped `n` times. */
  lemma {:induction false} SameBlockDraws(st: State, env: Env, gen: Sampler, highs: seq<U32>)
    requires env.blockIndex == st.blockIndex
    ensures DrawSeries(st, env, gen, highs).Ok? <==> forall k :: 0 <= k < |highs| ==> highs[k] > 0
    ensures DrawSeries(st, env, gen, highs).Ok? ==>
      var done := DrawSeries(st, env, gen, highs).value;
      && done.0.randomSeed == BumpTimes(st.randomSeed, |highs|)
      && done.0.blockIndex == st.blockIndex
      && done.0.raffles == st.raffles
      && |done.1| == |highs|
      && forall k :: 0 <= k < |highs| ==> done.1[k] == gen(BumpTimes(st.randomSeed, k), highs[k])
    decreases |highs|
  {
    if |highs| > 0 {
      var first := GenerateRandom(st, env, gen, highs[0]);
      if first.Ok? {
        var next := first.value.state;
        SameBlockDraws(next, env, gen, highs[1..]);
        BumpTimesShift(st.randomSeed, |highs| - 1);
        var series := DrawSeries(st, env, gen, highs);
        if series.Ok? {
          var rest := DrawSeries(next, env, gen, highs[1..]).value;
          forall k | 0 <= k < |highs|
            ensures series.value.1[k] == gen(BumpTimes(st.randomSeed, k), highs[k])
          {
            if k > 0 {
              BumpTimesShift(st.randomSeed, k - 1);
              assert series.value.1[k] == rest.1[k - 1];
            }
          }
        } else {
          assert exists k :: 0 <= k < |highs[1..]| && highs[1..][k] == 0;
        }
      }
    }
  }

  /** A stored raffle with three entries for three seats at 100 each, drawn in the block the
      state last saw: the draw succeeds, closes the raffle with one of the three entrants as
      winner, pays 300 to the creator and sends the prize to the winner. */
  lemma FullRaffleSettles(st: State, env: Env, gen: Sampler, raffleId: Id,
                          creator: AccountId, prize: Nft, a: AccountId, b: AccountId, c: AccountId)
    requires env.blockIndex == st.blockIndex
    requires raffleId in st.raffles
    requires st.raffles[raffleId] == Raffle(creator, prize, 3, [a, b, c], 100, Opened, None)
    ensures Draw(st, env, gen, raffleId).Ok?
    ensures
      var done := Draw(st, env, gen, raffleId).value;
      var closed := done.state.raffles[raffleId];
      && closed.status == Closed
      && closed.winner.Some?
      && closed.winner.value in {a, b, c}
      && done.effects == [Payout(creator, 300), NftTransfer(prize.smartContract, closed.winner.value, prize.id)]
  {
  }
}
