/** What the ring loop does with a schedule of completions: the counters replayed, and when the loop
ends. */
module ClientSchedule {
  import opened ClientWindow

  /** The next chunk's ring element is free, and there is a next chunk. */
  predicate CanPost(count: nat, n: Counts) {
    n.posted < Chunks(count) && n.posted < n.sent + RING && n.posted < n.received + RING
  }

  function Posted(count: nat, n: Counts): Counts {
    if CanPost(count, n) then n.(posted := n.posted + 1) else n
  }

  /** One completion of either kind, if a request of that kind is outstanding. */
  function Completed(n: Counts, isSend: bool): Counts {
    if isSend && n.sent < n.posted then n.(sent := n.sent + 1)
    else if !isSend && n.received < n.posted then n.(received := n.received + 1)
    else n
  }

  function AllCompleted(n: Counts, poll: seq<bool>): Counts {
    if poll == [] then n else Completed(AllCompleted(n, poll[..|poll| - 1]), poll[|poll| - 1])
  }

  /** One iteration. */
  function Turn(count: nat, n: Counts, poll: seq<bool>): Counts {
    AllCompleted(Posted(count, n), poll)
  }

  function Done(count: nat): Counts {
    Counts(Chunks(count), Chunks(count), Chunks(count))
  }

  /** The counters after a schedule: the loop stops when everything is done. */
  function Replay(count: nat, polls: seq<seq<bool>>): Counts {
    if polls == [] then Counts(0, 0, 0)
    else
      var n := Replay(count, polls[..|polls| - 1]);
      if n == Done(count) then n else Turn(count, n, polls[|polls| - 1])
  }

  /** How many iterations of a schedule change nothing although not everything is done. */
  function Idle(count: nat, polls: seq<seq<bool>>): nat {
    if polls == [] then 0
    else
      var n := Replay(count, polls[..|polls| - 1]);
      Idle(count, polls[..|polls| - 1]) + (if n != Done(count) && Turn(count, n, polls[|polls| - 1]) == n then 1 else 0)
  }

  /** Posts and completions that are still to come. */
  function Left(count: nat, n: Counts): int {
    3 * Chunks(count) - n.posted - n.sent - n.received
  }

  lemma LeftZero(count: nat, n: Counts)
    requires Within(count, n)
    ensures Left(count, n) >= 0
    ensures Left(count, n) == 0 <==> n == Done(count)
  {
  }

  lemma {:induction false} CompletedWithin(count: nat, n: Counts, poll: seq<bool>)
    requires Within(count, n)
    ensures Within(count, AllCompleted(n, poll))
    ensures Left(count, AllCompleted(n, poll)) <= Left(count, n)
    ensures Left(count, AllCompleted(n, poll)) == Left(count, n) ==> AllCompleted(n, poll) == n
  {
    if poll != [] { CompletedWithin(count, n, poll[..|poll| - 1]); }
  }

  /** An iteration brings the end nearer unless it changes nothing. */
  lemma TurnLess(count: nat, n: Counts, poll: seq<bool>)
    requires Within(count, n)
    ensures Within(count, Turn(count, n, poll))
    ensures Turn(count, n, poll) == n || Left(count, Turn(count, n, poll)) < Left(count, n)
  {
    CompletedWithin(count, Posted(count, n), poll);
  }

  lemma {:induction false} ReplayBound(count: nat, polls: seq<seq<bool>>)
    ensures Within(count, Replay(count, polls))
    ensures Replay(count, polls) == Done(count) ||
            Left(count, Replay(count, polls)) + |polls| <= 3 * Chunks(count) + Idle(count, polls)
  {
    if polls != [] {
      var front := polls[..|polls| - 1];
      ReplayBound(count, front);
      TurnLess(count, Replay(count, front), polls[|polls| - 1]);
      hide Turn, Chunks;
    }
  }

  /** Every schedule that is three iterations per chunk longer than its idle ones ends the loop. */
  lemma Finishes(count: nat, polls: seq<seq<bool>>)
    requires |polls| >= 3 * Chunks(count) + Idle(count, polls)
    ensures Replay(count, polls) == Done(count)
  {
    ReplayBound(count, polls);
    LeftZero(count, Replay(count, polls));
  }

  lemma {:induction false} NothingDone(n: Counts, poll: seq<bool>, isSend: bool)
    requires isSend in poll && AllCompleted(n, poll) == n && n.sent <= n.posted && n.received <= n.posted
    ensures if isSend then n.sent == n.posted else n.received == n.posted
  {
    var front := poll[..|poll| - 1];
    CompletedUp(n, front);
    if poll[|poll| - 1] != isSend {
      assert isSend in front;
      CompletedUp(AllCompleted(n, front), [poll[|poll| - 1]]);
      NothingDone(n, front, isSend);
    }
  }

  lemma {:induction false} CompletedUp(n: Counts, poll: seq<bool>)
    requires n.sent <= n.posted && n.received <= n.posted
    ensures
      var m := AllCompleted(n, poll);
      m.posted == n.posted && n.sent <= m.sent <= n.posted && n.received <= m.received <= n.posted
  {
    if poll != [] { CompletedUp(n, poll[..|poll| - 1]); }
  }

  /** An iteration is idle exactly when the ring is full, or all chunks are posted, and the poll brings
      no completion of an outstanding request; unless everything is done something is outstanding, so
      the loop only ever waits for the network. */
  lemma IdleWaits(count: nat, n: Counts, poll: seq<bool>)
    requires Within(count, n)
    ensures Turn(count, n, poll) == n <==>
            !CanPost(count, n) && (n.sent < n.posted ==> true !in poll) && (n.received < n.posted ==> false !in poll)
    ensures !CanPost(count, n) && n != Done(count) ==> n.sent < n.posted || n.received < n.posted
  {
    hide Chunks;
    if Turn(count, n, poll) == n {
      CompletedUp(Posted(count, n), poll);
      if true in poll { NothingDone(n, poll, true); }
      if false in poll { NothingDone(n, poll, false); }
    } else if !CanPost(count, n) && (n.sent < n.posted ==> true !in poll) && (n.received < n.posted ==> false !in poll) {
      NoneOpen(n, poll);
    }
  }

  lemma {:induction false} NoneOpen(n: Counts, poll: seq<bool>)
    requires n.sent <= n.posted && n.received <= n.posted
    requires (n.sent < n.posted ==> true !in poll) && (n.received < n.posted ==> false !in poll)
    ensures AllCompleted(n, poll) == n
  {
    if poll != [] { NoneOpen(n, poll[..|poll| - 1]); }
  }

  /** Once everything is done further polls change nothing. */
  lemma {:induction false} ReplayStays(count: nat, polls: seq<seq<bool>>, i: nat)
    requires i <= |polls| && Replay(count, polls[..i]) == Done(count)
    ensures Replay(count, polls) == Done(count)
    decreases |polls|
  {
    if i < |polls| {
      assert polls[..|polls| - 1][..i] == polls[..i];
      ReplayStays(count, polls[..|polls| - 1], i);
    } else {
      assert polls[..i] == polls;
    }
  }
}
