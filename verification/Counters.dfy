/**
 Counting asynchronous calls, to run a destructor once no call is outstanding.

 What the calls themselves do is irrelevant: a history lists, in the order in which they happen,
 the starts and completions of wrapped calls and the discards.
 */
module Counters {
  import opened Basics

  datatype Call = Start | Finish | Discard

  datatype Outcome = Unsettled | Fulfilled | Rejected

  /** The counter, how often the destructor has run, and the promise of onceDestroyed. */
  datatype Count = Count(counter: int, destructions: nat, onceDestroyed: Outcome)

  const ZERO := Count(0, 0, Unsettled)

  function Settled(o: Outcome, throws: bool): Outcome {
    if o != Unsettled then o else if throws then Rejected else Fulfilled
  }

  function After(c: Count, throws: bool): Count {
    if c.counter <= 0 then Count(c.counter - 1, c.destructions + 1, Settled(c.onceDestroyed, throws))
    else c.(counter := c.counter - 1)
  }

  function Apply(c: Count, call: Call, throws: bool): Count {
    match call
    case Start => c.(counter := c.counter + 1)
    case Finish => After(c, throws)
    case Discard => After(c, throws)
  }

  class Counter {
    /** Whether destructor_ throws. */
    const throws: bool
    var counter_: int
    var destructions: nat
    var onceDestroyed: Outcome

    function View(): Count
      reads this
    {
      Count(counter_, destructions, onceDestroyed)
    }

    constructor (throws: bool)
      ensures this.throws == throws && View() == ZERO
    {
      this.throws := throws;
      counter_, destructions, onceDestroyed := 0, 0, Unsettled;
    }

    /** The beginning of wrap. */
    method Before()
      modifies this
      ensures View() == Apply(old(View()), Start, throws)
    {
      counter_ := counter_ + 1;
    }

    /** What wrap does when its call settles, either way, and what discard does. */
    method AfterCall()
      modifies this
      ensures View() == Apply(old(View()), Finish, throws) == Apply(old(View()), Discard, throws)
    {
      counter_ := counter_ - 1;
      if counter_ < 0 {
        destructions := destructions + 1;
        if onceDestroyed == Unsettled {
          onceDestroyed := if throws then Rejected else Fulfilled;
        }
      }
    }
  }

  // ---------------------------------------------------------------- histories

  function ApplyAll(t: seq<Call>, throws: bool): Count {
    if t == [] then ZERO else Apply(ApplyAll(Init(t), throws), Last(t), throws)
  }

  function Outstanding(t: seq<Call>): int {
    if t == [] then 0
    else Outstanding(Init(t)) + (match Last(t) case Start => 1 case Finish => -1 case Discard => 0)
  }

  function Discards(t: seq<Call>): nat {
    if t == [] then 0 else Discards(Init(t)) + if Last(t).Discard? then 1 else 0
  }

  /** Only calls that have started complete, each once, and there is no second discard. */
  predicate Proper(t: seq<Call>) {
    t == [] || (Proper(Init(t)) && Outstanding(t) >= 0 && Discards(t) <= 1)
  }

  /** The last event of the history ran the destructor. */
  predicate Destroys(t: seq<Call>) {
    t != [] && ApplyAll(t, false).destructions > ApplyAll(Init(t), false).destructions
  }

  /** No call starts once the destructor has run. */
  predicate Quiet(t: seq<Call>) {
    t == [] || (Quiet(Init(t)) && (Last(t).Start? ==> ApplyAll(Init(t), false).destructions == 0))
  }

  lemma {:induction false} CounterIs(t: seq<Call>, throws: bool)
    ensures ApplyAll(t, throws).counter == Outstanding(t) - Discards(t)
    ensures ApplyAll(t, throws).destructions == ApplyAll(t, false).destructions
    ensures ApplyAll(t, throws).onceDestroyed
         == if ApplyAll(t, throws).destructions == 0 then Unsettled else if throws then Rejected else Fulfilled
  {
    if t != [] {
      CounterIs(Init(t), throws);
      CounterIs(Init(t), false);
    }
  }

  /** The destructor runs exactly at the events that leave no call outstanding, with the discard done. */
  lemma DestroysWhenDrained(t: seq<Call>)
    requires Proper(t) && t != []
    ensures Destroys(t) <==> Outstanding(t) == 0 && Discards(t) == 1
  {
    CounterIs(t, false);
    CounterIs(Init(t), false);
    assert Init(t) == [] || Outstanding(Init(t)) >= 0;
  }

  lemma {:induction false} DestroyedOnce(t: seq<Call>)
    requires Proper(t)
    ensures ApplyAll(t, false).destructions > 0 ==> Discards(t) == 1
    ensures Discards(t) == 1 && Outstanding(t) == 0 ==> ApplyAll(t, false).destructions > 0
    ensures Quiet(t) && ApplyAll(t, false).destructions > 0 ==>
              ApplyAll(t, false).destructions == 1 && Outstanding(t) == 0
    ensures !Quiet(t) ==> ApplyAll(t, false).destructions > 0
    ensures !Quiet(t) && Outstanding(t) == 0 ==> ApplyAll(t, false).destructions > 1
  {
    if t != [] {
      DestroyedOnce(Init(t));
      CounterIs(Init(t), false);
      CounterIs(t, false);
      assert Init(t) == [] || Outstanding(Init(t)) >= 0;
    }
  }

  /**
   When all calls have completed and a discard has come, the destructor has run; and it has run exactly
   once if and only if no call was started after it had run.
   */
  lemma DestructorTiming(t: seq<Call>, throws: bool)
    requires Proper(t) && Outstanding(t) == 0
    ensures ApplyAll(t, throws).destructions > 0 <==> Discards(t) == 1
    ensures Discards(t) == 1 ==> (ApplyAll(t, throws).destructions == 1 <==> Quiet(t))
  {
    CounterIs(t, throws);
    DestroyedOnce(t);
  }

  /** Before that point it has not run: with calls outstanding, or no discard, a quiet history destroys nothing. */
  lemma NotTooEarly(t: seq<Call>, throws: bool)
    requires Proper(t) && Quiet(t)
    requires Outstanding(t) > 0 || Discards(t) == 0
    ensures ApplyAll(t, throws).destructions == 0 && ApplyAll(t, throws).onceDestroyed == Unsettled
  {
    CounterIs(t, throws);
    DestroyedOnce(t);
  }
}
