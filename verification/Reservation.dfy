/** Charging memory to a cache with dummy entries (cache_reservation_manager). */
module Reservation {
  const DUMMY := 256 * 1024   // kSizeDummyEntry

  // The cache is seen only through its answers: in each call it accepts the
  // first `accepts` dummy entries offered to it and refuses the next one.
  class Manager {
    const delayed: bool
    var handles: seq<int>
    var reserved: int
    var memoryUsed: int
    var nextHandle: int

    ghost predicate Valid()
      reads this
    {
      reserved == DUMMY * |handles| && 0 <= memoryUsed
    }

    constructor (delayed: bool)
      ensures Valid() && this.delayed == delayed && memoryUsed == 0 && handles == []
    {
      this.delayed := delayed;
      handles, reserved, memoryUsed, nextHandle := [], 0, 0, 0;
    }

    // The reservation is the least number of dummy entries that covers x.
    ghost predicate Tight(x: int)
      reads this
    {
      x <= reserved < x + DUMMY
    }

    // In delayed-decrease mode a fall to no less than three quarters changes nothing.
    ghost predicate Waits(x: int)
      reads this
    {
      delayed && reserved / 4 * 3 <= x < reserved
    }

    method IncreaseCacheReservation(x: int, accepts: nat) returns (ok: bool)
      requires Valid() && x > reserved
      modifies `handles, `reserved, `nextHandle
      ensures Valid() && old(handles) <= handles
      ensures ok <==> x <= old(reserved) + DUMMY * accepts
      ensures if ok then Tight(x) else |handles| == |old(handles)| + accepts
    {
      var taken := 0;
      while x > reserved
        invariant Valid() && reserved < x + DUMMY && old(handles) <= handles
        invariant 0 <= taken <= accepts && |handles| == |old(handles)| + taken
        decreases x - reserved
      {
        if taken == accepts {
          return false;
        }
        handles, nextHandle, taken := handles + [nextHandle], nextHandle + 1, taken + 1;
        reserved := reserved + DUMMY;
      }
      ok := true;
    }

    method DecreaseCacheReservation(x: int)
      requires Valid() && 0 <= x < reserved
      modifies `handles, `reserved
      ensures Valid() && Tight(x) && handles <= old(handles)
    {
      while x + DUMMY <= reserved
        invariant Valid() && x <= reserved && handles <= old(handles)
        decreases reserved
      {
        assert handles != [];
        handles := handles[..|handles| - 1];
        reserved := reserved - DUMMY;
      }
    }

    method UpdateCacheReservation(x: int, accepts: nat) returns (ok: bool)
      requires Valid() && 0 <= x
      modifies `handles, `reserved, `memoryUsed, `nextHandle
      ensures Valid() && memoryUsed == x
      ensures ok <==> x <= old(reserved) + DUMMY * accepts
      ensures ok ==> if old(Waits(x)) then handles == old(handles) else Tight(x)
      ensures !ok ==> reserved < x && |handles| == |old(handles)| + accepts
      ensures old(handles) <= handles || handles <= old(handles)
    {
      memoryUsed := x;
      ok := true;
      if x > reserved {
        ok := IncreaseCacheReservation(x, accepts);
      } else if x < reserved {
        if !(delayed && x >= reserved / 4 * 3) {
          DecreaseCacheReservation(x);
        }
      }
    }

    // The concurrent manager's update by a difference, under its lock.
    method UpdateBy(delta: int, increase: bool, accepts: nat) returns (ok: bool)
      requires Valid() && 0 <= delta && (!increase ==> delta <= memoryUsed)
      modifies `handles, `reserved, `memoryUsed, `nextHandle
      ensures Valid() && memoryUsed == if increase then old(memoryUsed) + delta else old(memoryUsed) - delta
      ensures ok <==> memoryUsed <= old(reserved) + DUMMY * accepts
      ensures ok ==> Tight(memoryUsed) || (delayed && handles == old(handles))
    {
      ok := UpdateCacheReservation(if increase then memoryUsed + delta else memoryUsed - delta, accepts);
    }
  }
}
