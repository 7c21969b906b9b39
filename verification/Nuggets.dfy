/** The numbers that can be put together from three denominations, in order. */
module Nuggets {
  /** A sum of copies of the denominations. */
  ghost predicate IsSum(coins: seq<nat>, x: int)
    requires |coins| == 3
  {
    exists k0: nat, k1: nat, k2: nat :: x == Sum(coins, k0, k1, k2)
  }

  ghost function Sum(coins: seq<nat>, k0: nat, k1: nat, k2: nat): int
    requires |coins| == 3
  {
    k0 * coins[0] + k1 * coins[1] + k2 * coins[2]
  }

  /** A positive sum is a smaller sum and one more coin. */
  lemma LastCoin(coins: seq<nat>, x: int) returns (g: nat, i: nat)
    requires |coins| == 3 && x > 0 && IsSum(coins, x)
    ensures i < 3 && x == g + coins[i] && IsSum(coins, g)
    ensures coins[i] > 0
  {
    var k0: nat, k1: nat, k2: nat :| x == Sum(coins, k0, k1, k2);
    if k0 > 0 && coins[0] > 0 {
      i := 0;
      Sums(coins, k0 - 1, k1, k2);
      g := Sum(coins, k0 - 1, k1, k2);
    } else if k1 > 0 && coins[1] > 0 {
      i := 1;
      Sums(coins, k0, k1 - 1, k2);
      g := Sum(coins, k0, k1 - 1, k2);
    } else {
      assert k0 * coins[0] == 0 && k1 * coins[1] == 0;
      i := 2;
      Sums(coins, k0, k1, k2 - 1);
      g := Sum(coins, k0, k1, k2 - 1);
    }
  }

  lemma Sums(coins: seq<nat>, k0: nat, k1: nat, k2: nat)
    requires |coins| == 3
    ensures Sum(coins, k0, k1, k2) >= 0 && IsSum(coins, Sum(coins, k0, k1, k2))
    ensures Sum(coins, k0 + 1, k1, k2) == Sum(coins, k0, k1, k2) + coins[0]
    ensures Sum(coins, k0, k1 + 1, k2) == Sum(coins, k0, k1, k2) + coins[1]
    ensures Sum(coins, k0, k1, k2 + 1) == Sum(coins, k0, k1, k2) + coins[2]
  {
  }

  lemma AddCoin(coins: seq<nat>, g: int, i: nat)
    requires |coins| == 3 && i < 3 && IsSum(coins, g)
    ensures IsSum(coins, g + coins[i])
  {
    var k0: nat, k1: nat, k2: nat :| g == Sum(coins, k0, k1, k2);
    Sums(coins, k0, k1, k2);
    Sums(coins, if i == 0 then k0 + 1 else k0, if i == 1 then k1 + 1 else k1, if i == 2 then k2 + 1 else k2);
  }

  ghost predicate Increasing(s: seq<int>) {
    forall k, l :: 0 <= k < l < |s| ==> s[k] < s[l]
  }

  /** The sums up to `last`, each once, in order, starting with zero. */
  ghost predicate IsPrefix(coins: seq<nat>, known: seq<int>)
    requires |coins| == 3
  {
    && known != [] && known[0] == 0 && Increasing(known)
    && (forall x <- known :: IsSum(coins, x))
    && (forall x | IsSum(coins, x) && 0 <= x <= known[|known| - 1] :: x in known)
  }

  /** What a queue holds: the known sums from number `from` on, each with one
    * more coin; these are the ones that go beyond the known sums. */
  ghost predicate IsQueue(queue: seq<int>, known: seq<int>, coin: int, from: nat) {
    && from < |known| && |queue| == |known| - from
    && (forall k :: 0 <= k < |queue| ==> queue[k] == known[from + k] + coin)
    && queue[0] > known[|known| - 1]
    && (from > 0 ==> known[from - 1] + coin <= known[|known| - 1])
  }

  ghost predicate AreQueues(coins: seq<nat>, queues: seq<seq<int>>, known: seq<int>, from: seq<nat>) {
    && |coins| == |queues| == |from| == 3
    && IsQueue(queues[0], known, coins[0], from[0])
    && IsQueue(queues[1], known, coins[1], from[1])
    && IsQueue(queues[2], known, coins[2], from[2])
  }

  /** The least sum beyond the known ones is at the front of a queue, and no front is smaller. */
  ghost predicate IsNext(coins: seq<nat>, known: seq<int>, x: int)
    requires |coins| == 3 && known != []
  {
    && IsSum(coins, x) && x > known[|known| - 1]
    && forall y | IsSum(coins, y) && y > known[|known| - 1] :: x <= y
  }

  /** A known sum and one more coin is in the queue of that coin, once it goes beyond the known sums. */
  lemma InQueue(queue: seq<int>, known: seq<int>, coin: int, from: nat, g: int)
    requires IsQueue(queue, known, coin, from) && Increasing(known)
    requires g in known && g + coin > known[|known| - 1]
    ensures queue[0] <= g + coin
  {
    var m :| 0 <= m < |known| && known[m] == g;
    assert queue[0] == known[from + 0] + coin;
  }

  /** Every sum beyond the known ones is at least as large as some front. */
  lemma {:induction false} FrontIsReached(coins: seq<nat>, queues: seq<seq<int>>, known: seq<int>, from: seq<nat>, x: int)
    returns (i: nat)
    requires AreQueues(coins, queues, known, from) && IsPrefix(coins, known)
    requires IsSum(coins, x) && x > known[|known| - 1] >= 0
    ensures i < 3 && queues[i] != [] && queues[i][0] <= x
    decreases x
  {
    hide Increasing;
    var g;
    g, i := LastCoin(coins, x);
    if g <= known[|known| - 1] {
      assert g in known;
      hide IsSum, IsPrefix;
      InQueue(queues[i], known, coins[i], from[i], g);
    } else {
      i := FrontIsReached(coins, queues, known, from, g);
    }
  }

  /** No front is below it, and some front is it. */
  ghost predicate IsLeastFront(queues: seq<seq<int>>, k0: int)
    requires |queues| == 3
  {
    && (forall i :: 0 <= i < 3 ==> queues[i] != [] && k0 <= queues[i][0])
    && (exists i :: 0 <= i < 3 && queues[i] != [] && k0 == queues[i][0])
  }

  lemma LeastFrontIsNext(coins: seq<nat>, queues: seq<seq<int>>, known: seq<int>, from: seq<nat>, k0: int)
    requires AreQueues(coins, queues, known, from) && IsPrefix(coins, known) && IsLeastFront(queues, k0)
    ensures IsNext(coins, known, k0) && IsPrefix(coins, known + [k0])
  {
    FrontIsSum(coins, queues, known, from, k0);
    assert known[0] == 0;
    forall y | IsSum(coins, y) && y > known[|known| - 1] ensures k0 <= y {
      var _ := FrontIsReached(coins, queues, known, from, y);
    }
    Extended(coins, known, k0);
  }

  lemma FrontIsSum(coins: seq<nat>, queues: seq<seq<int>>, known: seq<int>, from: seq<nat>, k0: int)
    requires AreQueues(coins, queues, known, from) && IsPrefix(coins, known) && IsLeastFront(queues, k0)
    ensures IsSum(coins, k0) && k0 > known[|known| - 1]
  {
    var i :| 0 <= i < 3 && queues[i] != [] && k0 == queues[i][0];
    hide Increasing, IsLeastFront;
    assert queues[i][0] == known[from[i] + 0] + coins[i];
    assert known[from[i]] in known;
    AddCoin(coins, known[from[i]], i);
  }

  lemma Extended(coins: seq<nat>, known: seq<int>, k0: int)
    requires |coins| == 3 && IsPrefix(coins, known) && IsNext(coins, known, k0)
    ensures IsPrefix(coins, known + [k0])
  {
    var more := known + [k0];
    hide IsSum;
    assert more[|known|] == k0;
    forall x | IsSum(coins, x) && 0 <= x <= k0 ensures x in more {
      if x <= known[|known| - 1] { assert x in known; }
    }
  }

  /** A queue after its push and, if it had the next number in front, its pop. */
  lemma QueueStep(queue: seq<int>, known: seq<int>, coin: int, from: nat, k0: int)
    requires coin > 0 && IsQueue(queue, known, coin, from) && Increasing(known)
    requires known[|known| - 1] < k0 <= queue[0]
    ensures queue[0] != k0 ==> IsQueue(queue + [k0 + coin], known + [k0], coin, from)
    ensures queue[0] == k0 ==> IsQueue((queue + [k0 + coin])[1..], known + [k0], coin, from + 1)
  {
    var more, longer := known + [k0], queue + [k0 + coin];
    assert queue[0] == known[from + 0] + coin;
    forall k | 0 <= k < |longer| ensures longer[k] == more[from + k] + coin {
      if k < |queue| { assert queue[k] == known[from + k] + coin; }
    }
    if queue[0] == k0 {
      forall k | 0 <= k < |longer| - 1 ensures longer[1..][k] == more[from + 1 + k] + coin {
        assert longer[k + 1] == more[from + (k + 1)] + coin;
      }
      assert more[from] < more[from + 1];
    }
  }

  /** One queue after a step: the new number is pushed, and popped where it was in front. */
  function Stepped(queue: seq<int>, coin: int, k0: int): seq<int> {
    var longer := queue + [k0 + coin];
    if queue != [] && queue[0] == k0 then longer[1..] else longer
  }

  lemma StepQueue(queue: seq<int>, known: seq<int>, coin: int, from: nat, k0: int) returns (next: nat)
    requires coin > 0 && IsQueue(queue, known, coin, from) && Increasing(known)
    requires known[|known| - 1] < k0 <= queue[0]
    ensures IsQueue(Stepped(queue, coin, k0), known + [k0], coin, next)
  {
    QueueStep(queue, known, coin, from, k0);
    next := if queue[0] == k0 then from + 1 else from;
  }

  ghost function AllStepped(queues: seq<seq<int>>, coins: seq<nat>, k0: int): seq<seq<int>>
    requires |queues| == |coins| == 3
  {
    [Stepped(queues[0], coins[0], k0), Stepped(queues[1], coins[1], k0), Stepped(queues[2], coins[2], k0)]
  }

  lemma AllStep(coins: seq<nat>, queues: seq<seq<int>>, known: seq<int>, from: seq<nat>, k0: int)
    returns (next: seq<nat>)
    requires AreQueues(coins, queues, known, from) && IsPrefix(coins, known) && IsLeastFront(queues, k0)
    requires coins[0] > 0 && coins[1] > 0 && coins[2] > 0
    ensures AreQueues(coins, AllStepped(queues, coins, k0), known + [k0], next)
  {
    FrontIsSum(coins, queues, known, from, k0);
    hide IsQueue, Increasing, IsSum, Stepped;
    var n0 := StepQueue(queues[0], known, coins[0], from[0], k0);
    var n1 := StepQueue(queues[1], known, coins[1], from[1], k0);
    var n2 := StepQueue(queues[2], known, coins[2], from[2], k0);
    next := [n0, n1, n2];
  }

  ghost predicate IsFilled(queue: seq<int>) {
    queue != [] && forall k :: 0 <= k < |queue| ==> queue[k] >= 0
  }

  /** With a denomination of zero, zero comes out for ever. */
  ghost predicate IsStuck(coins: seq<nat>, queues: seq<seq<int>>) {
    |coins| == |queues| == 3 && coins[0] == 0 && queues[0] == [0] && IsFilled(queues[1]) && IsFilled(queues[2])
  }

  lemma StaysStuck(coins: seq<nat>, queues: seq<seq<int>>)
    requires IsStuck(coins, queues)
    ensures IsStuck(coins, AllStepped(queues, coins, 0))
  {
    assert ([0] + [0 + 0])[1..] == [0];
  }

  class Nuggets {
    const coins: seq<nat>
    var queues: seq<seq<int>>
    /** Zero and everything returned so far. */
    ghost var known: seq<int>
    ghost var from: seq<nat>

    ghost predicate Counting()
      reads this
    {
      && AreQueues(coins, queues, known, from) && IsPrefix(coins, known)
      && 0 < coins[0] <= coins[1] <= coins[2]
    }

    ghost predicate Valid()
      reads this
    {
      |coins| == |queues| == 3 && if coins[0] == 0 then IsStuck(coins, queues) else Counting()
    }

    constructor (a: nat, b: nat, c: nat)
      requires a <= b <= c
      ensures Valid() && coins == [a, b, c] && known == [0]
    {
      coins := [a, b, c];
      queues := [[a], [b], [c]];
      known := [0];
      from := [0, 0, 0];
      new;
      if a > 0 {
        assert Sum(coins, 0, 0, 0) == 0;
        assert IsSum(coins, 0);
      }
    }

    /** Returns the least sum that is larger than all that were returned before. */
    method Next() returns (k0: int)
      requires Valid()
      modifies this
      ensures Valid() && known == old(known) + [k0]
      ensures coins[0] == 0 ==> k0 == 0
      ensures coins[0] > 0 ==> old(IsPrefix(coins, known) && IsNext(coins, known, k0)) && IsPrefix(coins, known)
    {
      k0 := Least();
      assert queues[0] != [] && queues[1] != [] && queues[2] != [];
      if coins[0] > 0 {
        LeastFrontIsNext(coins, queues, known, from, k0);
        from := AllStep(coins, queues, known, from, k0);
      } else {
        StaysStuck(coins, queues);
      }
      hide IsPrefix, IsNext, IsLeastFront, AreQueues, IsStuck, AllStepped;
      Advance(k0);
      known := known + [k0];
    }

    /** Pushes the number plus one coin on every queue and pops the fronts that are the number. */
    method Advance(k0: int)
      requires |queues| == |coins| == 3 && queues[0] != [] && queues[1] != [] && queues[2] != []
      modifies this`queues
      ensures queues == AllStepped(old(queues), coins, k0)
    {
      ghost var before := queues;
      for i := 0 to 3
        invariant |queues| == 3
        invariant forall j :: i <= j < 3 ==> queues[j] == before[j] != []
        invariant forall j :: 0 <= j < i ==> queues[j] == Stepped(before[j], coins[j], k0)
      {
        var front := queues[i][0];
        queues := queues[i := queues[i] + [k0 + coins[i]]];
        if front == k0 { queues := queues[i := queues[i][1..]]; }
      }
    }

    /** The least of the three fronts. */
    method Least() returns (k0: int)
      requires Valid()
      ensures coins[0] == 0 ==> k0 == 0
      ensures IsLeastFront(queues, k0)
    {
      assert queues[0] != [] && queues[1] != [] && queues[2] != [];
      assert coins[0] == 0 ==> queues[0][0] == 0 && queues[1][0] >= 0 && queues[2][0] >= 0;
      hide AreQueues, IsStuck;
      k0 := queues[0][0];
      for i := 1 to 3
        invariant forall j :: 0 <= j < i ==> k0 <= queues[j][0]
        invariant exists j :: 0 <= j < i && k0 == queues[j][0]
      {
        if queues[i][0] < k0 { k0 := queues[i][0]; }
      }
    }
  }
}
