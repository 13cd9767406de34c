/**
 The kernel's 32-bit tick arithmetic beside unbounded time.  Code that runs on the
 target only ever sees a `Tick`; ideal time is a natural number, and
 `ToTick` and `Epoch` split it into what the tick counter shows and how
 often the counter has wrapped.
 */
module TickTime {

  const WRAP := 0x1_0000_0000

  type Tick = t: int | 0 <= t < 0x1_0000_0000

  const MAX_DELAY: Tick := 0xFFFF_FFFF

  function ToTick(t: int): Tick {
    t % WRAP
  }

  function Epoch(t: int): int {
    t / WRAP
  }

  /** Addition and subtraction of the C type TickType_t. */
  function AddTicks(a: Tick, b: Tick): Tick {
    (a + b) % WRAP
  }

  function SubTicks(a: Tick, b: Tick): Tick {
    (a - b) % WRAP
  }

  /** A quotient and a remainder in range are the ones that division finds. */
  lemma ModUnique(n: int, q: int, r: int)
    requires n == q * WRAP + r && 0 <= r < WRAP
    ensures n % WRAP == r && n / WRAP == q
  {
  }

  lemma AddTicksIsIdeal(t: nat, p: Tick)
    ensures AddTicks(ToTick(t), p) == ToTick(t + p)
  {
    var q, r := Epoch(t), ToTick(t) + p;
    assert t + p == q * WRAP + r;
    if r < WRAP {
      ModUnique(t + p, q, r);
      ModUnique(r, 0, r);
    } else {
      ModUnique(t + p, q + 1, r - WRAP);
      ModUnique(r, 1, r - WRAP);
    }
  }

  /** Two times less than one wrap apart: their tick difference is the real one. */
  lemma SubTicksIsIdeal(a: nat, b: nat)
    requires b <= a < b + WRAP
    ensures SubTicks(ToTick(a), ToTick(b)) == a - b
  {
    var q := Epoch(b) - Epoch(a);
    assert ToTick(a) - ToTick(b) == q * WRAP + (a - b);
    ModUnique(ToTick(a) - ToTick(b), q, a - b);
  }
}
