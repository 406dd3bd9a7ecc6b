/** Collective channels as the control plane knows them. */
module Channels {
  /** A participant is known once its request has arrived; until then its address is zero. */
  datatype Participant = Participant(clientId: nat, ip: nat, localQp: nat, fabricQp: nat, mac: nat, port: nat) {
    predicate Known() {
      ip != 0
    }

    /** Four pipes with 128 ports each. */
    function Pipe(): nat {
      port / 128
    }
  }

  /** `participants` is in ascending order of client ids, the order in which the code iterates. */
  datatype Channel = Channel(tag: nat, qpCommon: nat, unit: nat, participants: seq<Participant>) {
    predicate Complete() {
      forall i | 0 <= i < |participants| :: participants[i].Known()
    }

    /** Participants below index i on a pipe. */
    function Count(pipe: nat, i: nat): (n: nat)
      requires i <= |participants|
      ensures n <= i
    {
      if i == 0 then 0 else Count(pipe, i - 1) + (if participants[i - 1].Pipe() == pipe then 1 else 0)
    }

    /** All participants on a pipe. */
    function Total(pipe: nat): nat {
      Count(pipe, |participants|)
    }

    /** The bitmap position of participant i on its pipe. */
    function Rank(i: nat): nat
      requires i < |participants|
    {
      Count(participants[i].Pipe(), i)
    }

    /** Both pipes have participants. */
    predicate Connected() {
      Total(0) > 0 && Total(3) > 0
    }

    /** The ports in use are those of pipes 0 and 3. */
    predicate OnUsedPipes() {
      forall i | 0 <= i < |participants| :: participants[i].Pipe() == 0 || participants[i].Pipe() == 3
    }

    /** No two participants have the same address and fabric queue pair. */
    predicate Distinct() {
      forall i, j | 0 <= i < j < |participants| ::
        participants[i].ip != participants[j].ip || participants[i].fabricQp != participants[j].fabricQp
    }

    lemma {:induction false} CountMono(pipe: nat, i: nat, j: nat)
      requires i <= j <= |participants|
      ensures Count(pipe, i) <= Count(pipe, j)
    {
      if i < j { CountMono(pipe, i, j - 1); }
    }

    /** Participants on one pipe have different ranks, below the number of participants there. */
    lemma RankDistinct(i: nat, j: nat)
      requires i < j < |participants| && participants[i].Pipe() == participants[j].Pipe()
      ensures Rank(i) < Rank(j)
    {
      CountMono(participants[i].Pipe(), i + 1, j);
    }

    lemma RankBelow(i: nat)
      requires i < |participants|
      ensures Rank(i) < Total(participants[i].Pipe())
    {
      CountMono(participants[i].Pipe(), i + 1, |participants|);
    }

    /** Every rank below the number of participants on a pipe is somebody's. */
    lemma {:induction false} RankOnto(pipe: nat, r: nat, n: nat) returns (i: nat)
      requires n <= |participants| && r < Count(pipe, n)
      ensures i < n && participants[i].Pipe() == pipe && Rank(i) == r
    {
      if r < Count(pipe, n - 1) {
        i := RankOnto(pipe, r, n - 1);
      } else {
        i := n - 1;
      }
    }
  }
}
