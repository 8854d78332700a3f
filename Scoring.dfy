/**
 * Peer reputation counters (co.rsk.scoring.PeerScoring): one counter per
 * event type and a running total of all recorded events, kept equal to the
 * sum of the counters.
 */
module Scoring {

  /** The kinds of misbehaviour recorded against a peer. */
  datatype EventType = InvalidBlock | InvalidTransaction

  /** A counter of a type never recorded reads as zero. */
  function Count(counters: map<EventType, nat>, t: EventType): nat {
    if t in counters then counters[t] else 0
  }

  /** The sum of all counters in the map. */
  ghost function Sum(counters: map<EventType, nat>): nat
    decreases |counters|
  {
    if counters == map[] then 0
    else
      var t :| t in counters;
      counters[t] + Sum(counters - {t})
  }

  /** Any one counter can be taken out of the sum first. */
  lemma {:induction false} SumRemove(counters: map<EventType, nat>, t: EventType)
    requires t in counters
    ensures Sum(counters) == counters[t] + Sum(counters - {t})
    decreases |counters|
  {
    var s :| s in counters && Sum(counters) == counters[s] + Sum(counters - {s});
    if s != t {
      var rest := counters - {s};
      SumRemove(rest, t);
      SumRemove(counters - {t}, s);
      assert rest - {t} == (counters - {t}) - {s};
    }
  }

  /** No counter exceeds the sum. */
  lemma CountBelowSum(counters: map<EventType, nat>, t: EventType)
    ensures Count(counters, t) <= Sum(counters)
  {
    if t in counters {
      SumRemove(counters, t);
    }
  }

  /** Setting one counter changes the sum by the difference. */
  lemma SumUpdate(counters: map<EventType, nat>, t: EventType, v: nat)
    ensures Sum(counters[t := v]) + Count(counters, t) == Sum(counters) + v
  {
    var updated := counters[t := v];
    SumRemove(updated, t);
    assert updated - {t} == counters - {t};
    if t in counters {
      SumRemove(counters, t);
    } else {
      assert counters - {t} == counters;
    }
  }

  /** With the two event types, the sum is the two counters added. */
  lemma SumOfTypes(counters: map<EventType, nat>)
    ensures Sum(counters) == Count(counters, InvalidBlock) + Count(counters, InvalidTransaction)
  {
    var rest := counters - {InvalidBlock};
    if InvalidBlock in counters {
      SumRemove(counters, InvalidBlock);
    } else {
      assert rest == counters;
    }
    var none := rest - {InvalidTransaction};
    if InvalidTransaction in rest {
      SumRemove(rest, InvalidTransaction);
    } else {
      assert none == rest;
    }
    forall t ensures t !in none {
      match t {
        case InvalidBlock =>
        case InvalidTransaction =>
      }
    }
    assert none == map[];
  }

  class PeerScoring {
    var counters: map<EventType, nat>
    var total: nat

    /** The total is the sum of the per-type counters. */
    ghost predicate Valid()
      reads this
    {
      total == Sum(counters)
    }

    /** A new scoring: every counter and the total at zero. */
    constructor ()
      ensures Valid()
      ensures forall t :: GetEventCounter(t) == 0
      ensures GetTotalEventCounter() == 0
    {
      counters := map[];
      total := 0;
    }

    /** getEventCounter: how many events of type t were recorded. */
    function GetEventCounter(t: EventType): (n: nat)
      reads this
      ensures t !in counters ==> n == 0
      ensures Valid() ==> n <= total
    {
      CountBelowSum(counters, t);
      Count(counters, t)
    }

    /** getTotalEventCounter: how many events were recorded in all, which
        is the invalid-block count plus the invalid-transaction count. */
    function GetTotalEventCounter(): (n: nat)
      reads this
      ensures Valid() ==> n == GetEventCounter(InvalidBlock) + GetEventCounter(InvalidTransaction)
    {
      SumOfTypes(counters);
      total
    }

    /** recordEvent: one more event of type t. */
    method RecordEvent(t: EventType)
      requires Valid()
      modifies this
      ensures Valid()
      ensures counters == old(counters)[t := old(GetEventCounter(t)) + 1]
      ensures total == old(total) + 1
      ensures GetEventCounter(t) == old(GetEventCounter(t)) + 1
      ensures forall other :: other != t ==> GetEventCounter(other) == old(GetEventCounter(other))
    {
      SumUpdate(counters, t, Count(counters, t) + 1);
      counters := counters[t := Count(counters, t) + 1];
      total := total + 1;
    }

    /** recordEvent called n times in a row with the same type. */
    method RecordRepeatedly(t: EventType, n: nat)
      requires Valid()
      modifies this
      ensures Valid()
      ensures GetEventCounter(t) == old(GetEventCounter(t)) + n
      ensures GetTotalEventCounter() == old(GetTotalEventCounter()) + n
      ensures forall other :: other != t ==> GetEventCounter(other) == old(GetEventCounter(other))
    {
      var i := 0;
      while i < n
        invariant 0 <= i <= n
        invariant Valid()
        invariant GetEventCounter(t) == old(GetEventCounter(t)) + i
        invariant GetTotalEventCounter() == old(GetTotalEventCounter()) + i
        invariant forall other :: other != t ==> GetEventCounter(other) == old(GetEventCounter(other))
      {
        RecordEvent(t);
        i := i + 1;
      }
    }
  }

  // ---------------------------------------------------------------------------
  // The scenarios of PeerScoringTest, each on a new scoring.

  /** newStatusHasCounterInZero. */
  method NewScoring() returns (invalidBlocks: nat, invalidTransactions: nat, total: nat)
    ensures invalidBlocks == 0 && invalidTransactions == 0 && total == 0
  {
    var scoring := new PeerScoring();
    invalidBlocks := scoring.GetEventCounter(InvalidBlock);
    invalidTransactions := scoring.GetEventCounter(InvalidTransaction);
    total := scoring.GetTotalEventCounter();
  }

  /** recordEvent: one invalid block. */
  method RecordOne() returns (invalidBlocks: nat, invalidTransactions: nat, total: nat)
    ensures invalidBlocks == 1 && invalidTransactions == 0 && total == 1
  {
    var scoring := new PeerScoring();
    scoring.RecordEvent(InvalidBlock);
    invalidBlocks := scoring.GetEventCounter(InvalidBlock);
    invalidTransactions := scoring.GetEventCounter(InvalidTransaction);
    total := scoring.GetTotalEventCounter();
  }

  /** recordManyEvent, for any number of events of one type (three in the test). */
  method RecordMany(t: EventType, n: nat) returns (recorded: nat, others: nat, total: nat)
    ensures recorded == n && others == 0 && total == n
  {
    var scoring := new PeerScoring();
    var i := 0;
    while i < n
      invariant 0 <= i <= n
      invariant scoring.Valid()
      invariant scoring.GetEventCounter(t) == i && scoring.GetTotalEventCounter() == i
      invariant forall other :: other != t ==> scoring.GetEventCounter(other) == 0
    {
      scoring.RecordEvent(t);
      i := i + 1;
    }
    recorded := scoring.GetEventCounter(t);
    others := scoring.GetEventCounter(if t == InvalidBlock then InvalidTransaction else InvalidBlock);
    total := scoring.GetTotalEventCounter();
  }

  /** recordManyEventOfDifferentType: three invalid blocks, then two invalid transactions. */
  method RecordMixed() returns (invalidBlocks: nat, invalidTransactions: nat, total: nat)
    ensures invalidBlocks == 3 && invalidTransactions == 2 && total == 5
    ensures total == invalidBlocks + invalidTransactions
  {
    var scoring := new PeerScoring();
    scoring.RecordEvent(InvalidBlock);
    scoring.RecordEvent(InvalidBlock);
    scoring.RecordEvent(InvalidBlock);
    scoring.RecordEvent(InvalidTransaction);
    scoring.RecordEvent(InvalidTransaction);
    invalidBlocks := scoring.GetEventCounter(InvalidBlock);
    invalidTransactions := scoring.GetEventCounter(InvalidTransaction);
    total := scoring.GetTotalEventCounter();
  }
}
