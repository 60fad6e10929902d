/** The records of `src/raffle.rs`, extended with the `status` and `winner` fields that
    `src/lib.rs` reads and writes, and the predicates that describe a raffle's lifecycle. */
module Raffles {
  import opened Types

  /** The prize: one token of one NFT contract. */
  datatype Nft = Nft(smartContract: AccountId, id: TokenId)

  datatype Status = Opened | Closed

  datatype Raffle = Raffle(
    creator: AccountId,
    prize: Nft,
    participantsNumber: U32,
    participants: seq<AccountId>,
    ticketPrice: Balance,
    status: Status,
    winner: Option<AccountId>)

  /** A raffle exactly as intake creates it: open, nobody entered, nobody won. */
  predicate Fresh(r: Raffle) {
    r.status == Opened && r.participants == [] && r.winner == None
  }

  /** A raffle has a winner exactly when it is closed; the winner is one of its participants,
      and it never holds more participants than the number it was opened for. */
  predicate Coherent(r: Raffle) {
    && (r.winner.Some? <==> r.status == Closed)
    && (r.winner.Some? ==> r.winner.value in r.participants)
    && |r.participants| <= r.participantsNumber
  }

  /** The terms fixed at creation: who created it, the prize, the seat count and the price. */
  predicate SameTerms(r: Raffle, r': Raffle) {
    && r'.creator == r.creator
    && r'.prize == r.prize
    && r'.participantsNumber == r.participantsNumber
    && r'.ticketPrice == r.ticketPrice
  }

  /** `r'` is a later version of `r`: the terms are unchanged, participants were only
      appended at the end, and a closed raffle is never touched again. */
  predicate Evolves(r: Raffle, r': Raffle) {
    && SameTerms(r, r')
    && r.participants <= r'.participants
    && (r.status == Closed ==> r' == r)
  }

  lemma EvolvesTransitive(r1: Raffle, r2: Raffle, r3: Raffle)
    requires Evolves(r1, r2) && Evolves(r2, r3)
    ensures Evolves(r1, r3)
  {
  }
}
