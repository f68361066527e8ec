/** The event group as it is updated in place, and the walk over its waiting tasks. */
module EventGroupObject {
  import opened EventGroups

  lemma {:induction false} LeftAppend(waiting: seq<Waiter>, w: Waiter, bits: Bits)
    ensures Left(waiting + [w], bits) == Left(waiting, bits) + if Satisfied(bits, w) then [] else [w]
  {
    if waiting == [] {
      assert [] + [w] == [w];
    } else {
      LeftAppend(waiting[1..], w, bits);
      assert (waiting + [w])[1..] == waiting[1..] + [w];
    }
  }

  lemma {:induction false} ClearMaskAppend(waiting: seq<Waiter>, w: Waiter, bits: Bits)
    ensures ClearMask(waiting + [w], bits) ==
            ClearMask(waiting, bits) + if Satisfied(bits, w) && w.clear then w.wanted else {}
  {
    if waiting == [] {
      assert [] + [w] == [w];
    } else {
      ClearMaskAppend(waiting[1..], w, bits);
      assert (waiting + [w])[1..] == waiting[1..] + [w];
    }
  }

  lemma {:induction false} WokenAppend(waiting: seq<Waiter>, w: Waiter, bits: Bits, values: map<TaskId, ItemValue>)
    ensures Woken(waiting + [w], bits, values) ==
            var r := Woken(waiting, bits, values); if Satisfied(bits, w) then r[w.task := Unblocked(bits)] else r
  {
    if waiting == [] {
      assert [] + [w] == [w];
    } else {
      WokenAppend(waiting[1..], w, bits,
                  if Satisfied(bits, waiting[0]) then values[waiting[0].task := Unblocked(bits)] else values);
      assert (waiting + [w])[1..] == waiting[1..] + [w];
    }
  }

  // The list while it is walked: what is left of the first n waiters, then the others.
  function Walked(all: seq<Waiter>, n: nat, bits: Bits): seq<Waiter>
    requires n <= |all|
  {
    Left(all[..n], bits) + all[n..]
  }

  lemma WalkedNext(all: seq<Waiter>, n: nat, bits: Bits)
    requires n < |all|
    ensures var i, walked := |Left(all[..n], bits)|, Walked(all, n, bits);
            && i < |walked| && walked[i] == all[n]
            && (if Satisfied(bits, all[n])
                then Walked(all, n + 1, bits) == walked[..i] + walked[i + 1..] && |Left(all[..n + 1], bits)| == i
                else Walked(all, n + 1, bits) == walked && |Left(all[..n + 1], bits)| == i + 1)
  {
    assert all[..n + 1] == all[..n] + [all[n]];
    LeftAppend(all[..n], all[n], bits);
  }

  lemma MaskAndValuesNext(all: seq<Waiter>, n: nat, bits: Bits, values: map<TaskId, ItemValue>)
    requires n < |all|
    ensures ClearMask(all[..n + 1], bits) ==
            ClearMask(all[..n], bits) + if Satisfied(bits, all[n]) && all[n].clear then all[n].wanted else {}
    ensures Woken(all[..n + 1], bits, values) ==
            var r := Woken(all[..n], bits, values);
            if Satisfied(bits, all[n]) then r[all[n].task := Unblocked(bits)] else r
  {
    assert all[..n + 1] == all[..n] + [all[n]];
    ClearMaskAppend(all[..n], all[n], bits);
    WokenAppend(all[..n], all[n], bits, values);
  }

  // The walk after n of the waiting tasks: where it stands, the list, the bits to clear and the items.
  predicate AfterWalk(all: seq<Waiter>, n: nat, bits: Bits, before: map<TaskId, ItemValue>,
                      i: nat, waiting: seq<Waiter>, toClear: Bits, values: map<TaskId, ItemValue>)
  {
    && n <= |all| && i == |Left(all[..n], bits)| && waiting == Walked(all, n, bits)
    && toClear == ClearMask(all[..n], bits) && values == Woken(all[..n], bits, before)
  }

  lemma WalkStep(all: seq<Waiter>, n: nat, bits: Bits, before: map<TaskId, ItemValue>,
                 i: nat, waiting: seq<Waiter>, toClear: Bits, values: map<TaskId, ItemValue>)
    requires AfterWalk(all, n, bits, before, i, waiting, toClear, values) && i < |waiting|
    ensures n < |all| && waiting[i] == all[n]
    ensures var w := waiting[i];
            if Satisfied(bits, w)
            then AfterWalk(all, n + 1, bits, before, i, waiting[..i] + waiting[i + 1..],
                           if w.clear then toClear + w.wanted else toClear, values[w.task := Unblocked(bits)])
            else AfterWalk(all, n + 1, bits, before, i + 1, waiting, toClear, values)
  {
    WalkedNext(all, n, bits);
    MaskAndValuesNext(all, n, bits, before);
  }

  lemma WalkEnds(all: seq<Waiter>, n: nat, bits: Bits, before: map<TaskId, ItemValue>,
                 i: nat, waiting: seq<Waiter>, toClear: Bits, values: map<TaskId, ItemValue>)
    requires AfterWalk(all, n, bits, before, i, waiting, toClear, values) && i >= |waiting|
    ensures waiting == Left(all, bits) && toClear == ClearMask(all, bits) && values == Woken(all, bits, before)
  {
    assert all[..n] == all && all[n..] == [];
  }

  class EventGroup {
    var eventBits: Bits                     // uxEventBits
    var waiting: seq<Waiter>                // xTasksWaitingForBits
    var values: map<TaskId, ItemValue>      // the event list items of the tasks that have left it

    ghost function State(): Group
      reads this
    {
      Group(eventBits, waiting, values)
    }

    constructor ()
      ensures State() == Created().group
    {
      eventBits, waiting, values := {}, [], map[];
    }

    // vTaskRemoveFromUnorderedEventList
    method RemoveWaiter(i: nat, value: ItemValue)
      requires i < |waiting|
      modifies this`waiting, this`values
      ensures waiting == old(waiting[..i] + waiting[i + 1..])
      ensures values == old(values)[old(waiting)[i].task := value]
    {
      values := values[waiting[i].task := value];
      waiting := waiting[..i] + waiting[i + 1..];
    }

    // xEventGroupSetBits. The bits stay as they are until every waiter has been judged by them. It returns what is
    // left of them.
    method SetBits(bitsToSet: Bits) returns (after: Bits)
      modifies this
      ensures State() == EventGroups.SetBits(old(State()), bitsToSet) && after == eventBits
      ensures forall b :: b in eventBits <==>
        && (b in old(eventBits) || b in bitsToSet)
        && !ClearedOnExit(old(waiting), old(eventBits) + bitsToSet, b)
    {
      ghost var g := State();
      ghost var all, n := waiting, 0;
      var bitsToClear: Bits, i := {}, 0;
      eventBits := eventBits + bitsToSet;
      ghost var bits, before := eventBits, values;
      while i < |waiting|
        invariant AfterWalk(all, n, bits, before, i, waiting, bitsToClear, values)
        invariant eventBits == bits
        decreases |all| - n
      {
        var w := waiting[i];
        WalkStep(all, n, bits, before, i, waiting, bitsToClear, values);
        if if w.all then w.wanted <= eventBits else eventBits * w.wanted != {} {
          if w.clear {
            bitsToClear := bitsToClear + w.wanted;
          }
          RemoveWaiter(i, Unblocked(eventBits));
        } else {
          i := i + 1;
        }
        n := n + 1;
      }
      WalkEnds(all, n, bits, before, i, waiting, bitsToClear, values);
      eventBits := eventBits - bitsToClear;
      after := eventBits;
      forall b
        ensures b in eventBits <==>
          (b in old(eventBits) || b in bitsToSet) && !ClearedOnExit(old(waiting), old(eventBits) + bitsToSet, b)
      {
        SetBitsExactly(g, bitsToSet, b);
      }
    }

    // xEventGroupClearBits
    method ClearBits(bitsToClear: Bits) returns (before: Bits)
      modifies this`eventBits
      ensures State() == EventGroups.ClearBits(old(State()), bitsToClear) && before == old(eventBits)
    {
      before := eventBits;
      eventBits := eventBits - bitsToClear;
    }

    // xEventGroupWaitBits up to where it blocks.
    method WaitBits(call: Waiter, blockTime: bool) returns (outcome: Outcome)
      requires call.wanted != {}
      modifies this`eventBits, this`waiting
      ensures (State(), outcome) == EventGroups.WaitBits(old(State()), call, blockTime)
    {
      var current := eventBits;
      if Met(current, call.wanted, call.all) {
        outcome := Returns(current);
        if call.clear {
          eventBits := eventBits - call.wanted;
        }
      } else if !blockTime {
        outcome := Returns(current);
      } else {
        waiting := waiting + [call];
        outcome := Blocks;
      }
    }

    // xEventGroupSync up to where it blocks.
    method Sync(t: TaskId, bitsToSet: Bits, wanted: Bits, blockTime: bool) returns (outcome: Outcome)
      requires wanted != {}
      modifies this
      ensures (State(), outcome) == EventGroups.Sync(old(State()), t, bitsToSet, wanted, blockTime)
    {
      var original := eventBits;
      var _ := SetBits(bitsToSet);
      if (original + bitsToSet) * wanted == wanted {
        outcome := Returns(original + bitsToSet);
        eventBits := eventBits - wanted;
      } else if blockTime {
        waiting := waiting + [Waiter(t, wanted, true, true)];
        outcome := Blocks;
      } else {
        outcome := Returns(eventBits);
      }
    }

    // The tick interrupt takes a task whose block time is over off the list.
    method TimeOut(i: nat)
      requires i < |waiting|
      modifies this`waiting, this`values
      ensures State() == EventGroups.TimeOut(old(State()), i)
    {
      RemoveWaiter(i, TimedOut);
    }

    // The part of xEventGroupWaitBits and xEventGroupSync after the block.
    method Resume(t: TaskId, call: Waiter) returns (bits: Bits)
      requires t in values
      modifies this`eventBits, this`values
      ensures (State(), bits) == EventGroups.Resume(old(State()), t, call)
    {
      var value := values[t];
      values := values - {t};
      if value.Unblocked? {
        bits := value.bits;
      } else {
        bits := eventBits;
        if Met(bits, call.wanted, call.all) && call.clear {
          eventBits := eventBits - call.wanted;
        }
      }
    }
  }
}
