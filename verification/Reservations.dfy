/**
  What adreno_ringbuffer_allocspace decides.
 */
module Reservations {
  import opened Basics

  /** KGSL_RB_DWORDS */
  const RB_DWORDS: nat := 8192

  /** Words an A5XX submission reserves for what it puts around its payload. */
  const A5XX_SUBMIT_MAX := 64

  datatype Reservation = NoSpace | Space(at: nat, next: nat, wrapped: bool)

  /** adreno_ringbuffer_allocspace, with its 32-bit additions. */
  function Reserve(rptr: nat, wptr: nat, dwords: word): Reservation {
    var sum := (wptr + dwords) % U32;
    if rptr <= wptr && sum <= RB_DWORDS - 2 then Space(wptr, sum % RB_DWORDS, false)
    else if rptr <= wptr && dwords < rptr then Space(0, dwords, true)
    else if sum < rptr then Space(wptr, sum % RB_DWORDS, false)
    else NoSpace
  }
}
