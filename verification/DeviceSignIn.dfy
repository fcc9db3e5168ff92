/**
 * The device sign in loop: it asks the backend until there is a terminal answer,
 * the person cancels or the code runs out, and tells the backend when it gives up.
 */
module DeviceSignIn {
  import opened Options

  const TIMEOUT := 180000.0
  const POLL := 2000.0

  /** How the backend answered the start; `expires` is in seconds, none when it named no finite number. */
  datatype Started = Open(expires: Option<real>) | NotStarted

  datatype Ended = ByPerson | ByClock | ByFailure

  datatype Poll = NotOk | Pending | Complete | Terminal(ended: Ended) | Unknown

  /** One turn of the loop: the cancel flag, the clock since the code was handed out, and what a poll answers. */
  datatype Round = Round(cancelled: bool, now: real, poll: Poll)

  datatype Outcome = Completed | Cancelled | TimedOut | Failed

  /** A clock that never runs back, and a wait between two rounds that lasts at least as long as it was asked to. */
  ghost predicate Clocked(rounds: nat -> Round) {
    rounds(0).now >= 0.0 && forall n: nat :: rounds(n + 1).now >= rounds(n).now + 2000.0
  }

  lemma {:induction false} ClockAdvances(rounds: nat -> Round, n: nat)
    requires Clocked(rounds)
    ensures rounds(n).now >= n as real * 2000.0
  {
    if n > 0 {
      ClockAdvances(rounds, n - 1);
      assert rounds((n - 1) + 1).now >= rounds(n - 1).now + 2000.0;
    }
  }

  /** The loop ends: at the latest in the round that begins past the code's lifetime. */
  lemma SomeRoundLeaves(rounds: nat -> Round, lifetime: real, n: nat)
    requires Clocked(rounds) && n as real * 2000.0 >= lifetime
    ensures rounds(n).now >= lifetime
  {
    ClockAdvances(rounds, n);
  }

  /**
   * The loop leaves in the first round that was cancelled, begins past the code's
   * lifetime or is answered with anything but pending. A cancel, the deadline and a
   * failed poll are told to the backend, once; an answer that ends the flow is not.
   * Only a complete answer completes the sign in, and each other way out has its own
   * outcome; `lifetime` is what the start left of the three minutes, `last` the round left in.
   */
  method RunSignIn(started: Started, rounds: nat -> Round)
    returns (outcome: Outcome, lifetime: real, last: nat, polls: nat, cancels: nat)
    requires Clocked(rounds)
    ensures started.NotStarted? ==> outcome == Failed && polls == 0 && cancels == 0
    ensures started.Open? ==>
              lifetime == if started.expires.Some? && 0.0 < started.expires.value < 180.0
                          then started.expires.value * 1000.0 else 180000.0
    ensures started.Open? ==>
              forall k :: 0 <= k < last ==>
                !rounds(k).cancelled && rounds(k).now < lifetime && rounds(k).poll.Pending?
    ensures started.Open? ==>
              var round, late := rounds(last), rounds(last).now >= lifetime;
              && (round.cancelled || late || !round.poll.Pending?)
              && polls == last + (if round.cancelled || late then 0 else 1)
              && cancels == (if round.cancelled || late || round.poll.NotOk? then 1 else 0)
              && (outcome == Completed <==> !round.cancelled && !late && round.poll == Complete)
              && (outcome == Cancelled <==> round.cancelled || (!late && round.poll == Terminal(ByPerson)))
              && (outcome == TimedOut <==> !round.cancelled && (late || round.poll == Terminal(ByClock)))
    ensures started.Open? ==> polls <= 90 && (polls as real - 1.0) * 2000.0 < lifetime
  {
    polls, cancels, last, lifetime := 0, 0, 0, TIMEOUT;
    if started.NotStarted? {
      return Failed, lifetime, last, polls, cancels;
    }
    if started.expires.Some? && started.expires.value > 0.0 && started.expires.value * 1000.0 < TIMEOUT {
      lifetime := started.expires.value * 1000.0;
    }
    while true
      invariant polls == last && cancels == 0
      invariant last > 0 ==> (last as real - 1.0) * POLL < lifetime
      invariant forall k :: 0 <= k < last ==>
                  !rounds(k).cancelled && rounds(k).now < lifetime && rounds(k).poll.Pending?
      decreases lifetime - last as real * POLL
    {
      ClockAdvances(rounds, last);
      var round := rounds(last);
      if round.cancelled {
        return Cancelled, lifetime, last, polls, cancels + 1;
      }
      if round.now >= lifetime {
        return TimedOut, lifetime, last, polls, cancels + 1;
      }
      polls := polls + 1;
      match round.poll {
        case NotOk =>
          return Failed, lifetime, last, polls, cancels + 1;
        case Complete =>
          return Completed, lifetime, last, polls, cancels;
        case Terminal(ended) =>
          outcome := match ended case ByPerson => Cancelled case ByClock => TimedOut case ByFailure => Failed;
          return outcome, lifetime, last, polls, cancels;
        case Unknown =>
          return Failed, lifetime, last, polls, cancels;
        case Pending =>
      }
      last := last + 1;
    }
  }
}
