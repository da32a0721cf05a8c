/** The restore fence: when the derived reference table may be rebuilt. */
module Fence {
  import opened Wrappers

  /** Microseconds since the epoch, in the 64 bits the module stores them in. */
  newtype Micros = x: int | -0x8000_0000_0000_0000 <= x < 0x8000_0000_0000_0000

  /** What the fence row holds: a restore time, or the time of `init` moved far ahead. */
  type FenceTime = m: Micros | 0 <= m

  const MAX_MICROS: Micros := 0x7FFF_FFFF_FFFF_FFFF
  const RESTORE_QUIET: Micros := 10 * 60 * 1_000_000
  const INIT_FENCE_OFFSET: Micros := 1000 * 365 * 24 * 3600 * 1_000_000

  /** A clock that can read this far into the future never overflows the fence arithmetic. */
  predicate Realistic(now: Micros) {
    0 <= now <= MAX_MICROS - INIT_FENCE_OFFSET
  }

  function InitFence(now: Micros): (fence: FenceTime)
    requires Realistic(now)
    ensures fence >= INIT_FENCE_OFFSET
  {
    now + INIT_FENCE_OFFSET
  }

  /** When `init` ran, if `fence` is the init fence. */
  function InitTime(now: Micros, fence: FenceTime): Option<Micros>
    requires Realistic(now)
  {
    if fence > now + INIT_FENCE_OFFSET / 2 then Some(fence - INIT_FENCE_OFFSET) else None
  }

  predicate QuietOver(now: Micros, fence: FenceTime)
    requires Realistic(now) && InitTime(now, fence).None?
  {
    now >= fence + RESTORE_QUIET
  }

  /** The init fence tells the time of `init` for exactly 500 years; a restore fence never reads as one. */
  lemma FencesAreToldApart(past: Micros, now: Micros)
    requires Realistic(past) && Realistic(now) && past <= now
    ensures now < past + 15_768_000_000_000_000 ==> InitTime(now, InitFence(past)) == Some(past)
    ensures now >= past + 15_768_000_000_000_000 ==> InitTime(now, InitFence(past)) == None
    ensures InitTime(now, past) == None
  {
  }
}
