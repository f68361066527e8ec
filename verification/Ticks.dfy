/** The kernel tick counter: an unsigned 32-bit value that wraps, and the unbounded time it stands for. */
module Ticks {

  const WRAP: nat := 0x1_0000_0000
  const MAX_DELAY: Tick := 0xFFFF_FFFF

  // TickType_t
  type Tick = n: nat | n < 0x1_0000_0000

  // A timer period: configASSERT( xTimerPeriodInTicks > 0 )
  type Period = n: nat | 0 < n < 0x1_0000_0000 witness 1

  // The tick count read when `time` ticks have passed since the counter started.
  function Wrap(time: nat): Tick {
    time % 0x1_0000_0000
  }

  // How often the counter has wrapped when `time` ticks have passed.
  function Epoch(time: nat): nat {
    time / 0x1_0000_0000
  }

  // Unsigned 32-bit addition.
  function AddTicks(a: Tick, b: Tick): Tick {
    (a + b) % 0x1_0000_0000
  }

  // Unsigned 32-bit subtraction.
  function SubTicks(a: Tick, b: Tick): Tick {
    (a + 0x1_0000_0000 - b) % 0x1_0000_0000
  }

  lemma WrapAdd(time: nat, b: Tick)
    ensures AddTicks(Wrap(time), b) == Wrap(time + b)
  {
  }

  // The wrapped difference is the true one as long as less than one wrap lies between the two times.
  lemma WrapSub(later: nat, earlier: nat)
    requires earlier <= later < earlier + WRAP
    ensures SubTicks(Wrap(later), Wrap(earlier)) == later - earlier
  {
  }

  // A counter that reads lower than before has wrapped, provided less than one wrap went by.
  lemma WrapDetected(last: nat, now: nat)
    requires last <= now < last + WRAP
    ensures Wrap(now) < Wrap(last) <==> Epoch(now) == Epoch(last) + 1
    ensures Wrap(now) >= Wrap(last) <==> Epoch(now) == Epoch(last)
  {
  }

  // Counting on from `from` by the wrapped difference arrives at `to`.
  lemma AddDifference(from: Tick, to: Tick)
    ensures AddTicks(from, SubTicks(to, from)) == to
  {
  }
}
