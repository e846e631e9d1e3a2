/** Sequential time stamps: two readings in the same microsecond still differ. */
module UsecClocks {

  function Max(a: nat, b: nat): nat { if a < b then b else a }

  /** Each stamp is one past the clock or the last stamp, whichever is later. */
  function Stamps(last: nat, times: seq<nat>): (r: seq<nat>)
    ensures |r| == |times|
    decreases |times|
  {
    if times == [] then []
    else [Max(last, times[0]) + 1] + Stamps(Max(last, times[0]) + 1, times[1..])
  }

  predicate Monotone(times: seq<nat>) { forall i, j :: 0 <= i < j < |times| ==> times[i] <= times[j] }

  /** Stamps strictly increase and are always ahead of the clock, by no more than
      the lead they started with and the number of readings. */
  lemma {:induction false} StampsIncrease(last: nat, times: seq<nat>, ahead: nat)
    requires Monotone(times) && forall i :: 0 <= i < |times| ==> last <= times[i] + ahead
    ensures var s := Stamps(last, times);
            && (forall i :: 0 <= i < |s| ==> last < s[i])
            && (forall i, j :: 0 <= i < j < |s| ==> s[i] < s[j])
            && (forall i :: 0 <= i < |s| ==> times[i] < s[i] <= times[i] + ahead + i + 1)
    decreases |times|
  {
    if times != [] {
      var first, rest := Max(last, times[0]) + 1, times[1..];
      forall i | 0 <= i < |rest|
        ensures first <= rest[i] + (ahead + 1)
      {
        assert rest[i] == times[i + 1];
      }
      StampsIncrease(first, rest, ahead + 1);
      var s, t := Stamps(last, times), Stamps(first, rest);
      forall i | 0 < i < |s|
        ensures s[i] == t[i - 1] && first < s[i] && times[i] < s[i] <= times[i] + ahead + i + 1
      {
        assert times[i] == rest[i - 1];
      }
      forall i, j | 0 <= i < j < |s|
        ensures s[i] < s[j]
      {
        if i > 0 {
          assert t[i - 1] < t[j - 1];
        }
      }
    }
  }

  class UsecClock {
    var lastTimeUsec: nat
    var usecSinceLast: nat

    constructor ()
      ensures LastStamp() == 0 && lastTimeUsec == 0
    {
      lastTimeUsec, usecSinceLast := 0, 0;
    }

    function LastStamp(): nat
      reads this
    {
      lastTimeUsec + usecSinceLast
    }

    method TimeUsecSequential(now: nat) returns (stamp: nat)
      requires lastTimeUsec <= now
      modifies this
      ensures stamp == Max(old(LastStamp()), now) + 1
      ensures LastStamp() == stamp && lastTimeUsec == now
    {
      if now != lastTimeUsec {
        var diff := now - lastTimeUsec;
        lastTimeUsec := now;
        if diff >= usecSinceLast {
          usecSinceLast := 0;
        } else {
          usecSinceLast := usecSinceLast - diff;
        }
      }
      usecSinceLast := usecSinceLast + 1;
      return now + usecSinceLast;
    }

    method Readings(times: seq<nat>) returns (stamps: seq<nat>)
      requires Monotone(times) && forall i :: 0 <= i < |times| ==> lastTimeUsec <= times[i]
      modifies this
      ensures stamps == Stamps(old(LastStamp()), times)
    {
      stamps := [];
      for i := 0 to |times|
        invariant |stamps| == i && i < |times| ==> lastTimeUsec <= times[i]
        invariant stamps + Stamps(LastStamp(), times[i..]) == Stamps(old(LastStamp()), times)
      {
        assert times[i..][1..] == times[i + 1..];
        var stamp := TimeUsecSequential(times[i]);
        stamps := stamps + [stamp];
      }
    }
  }
}
