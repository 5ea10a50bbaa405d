/** Candidates and votes, as every part that handles them writes them. */
module Voting {
  type Address = nat

  datatype Vote = Vote(candidate: Address, count: nat)
  type Votes = seq<Vote>
}
