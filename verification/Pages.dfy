/** The memory counter of pages.c, shared by the large-block allocator and by the
    private pages. */
module Pages {
  class PagesCtl {
    const bound: nat                // total_allocated_bound
    var totalAllocated: int
    var majorRequested: bool

    constructor (bound: nat)
      ensures totalAllocated == 0 && !majorRequested && this.bound == bound
    {
      this.bound, totalAllocated, majorRequested := bound, 0, false;
    }

    /** increment_total_allocated: asks for a major collection when the bound is
        reached. */
    method Increment(addOrRemove: int)
      modifies this
      ensures totalAllocated == old(totalAllocated) + addOrRemove
      ensures majorRequested <==> old(majorRequested) || totalAllocated >= bound
    {
      totalAllocated := totalAllocated + addOrRemove;
      if totalAllocated >= bound {
        majorRequested := true;
      }
    }
  }
}
