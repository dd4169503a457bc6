/**
 * `DoubleCommandBuffer`: commands are recorded into a collector buffer while
 * the other buffer executes; taking a buffer for execution resets the old
 * executing buffer and swaps the two. The single-buffer specialisation hands
 * out the same buffer for both purposes.
 */
module DoubleCommandBuffer {
  import opened Vulkan

  /** Which of the two original buffers sits in the (executing, collector) slots after `k` swaps. */
  function SlotsAfter(k: nat, first: CommandBuffer, second: CommandBuffer): (r: (CommandBuffer, CommandBuffer))
    ensures k % 2 == 0 ==> r == (first, second)
    ensures k % 2 == 1 ==> r == (second, first)
  {
    if k == 0 then (first, second)
    else
      var (executing, collector) := SlotsAfter(k - 1, first, second);
      (collector, executing)
  }

  /** Two swaps restore the slots, and consecutive executions never hand out the same buffer. */
  lemma SlotsAlternate(k: nat, first: CommandBuffer, second: CommandBuffer)
    requires first != second
    ensures SlotsAfter(k + 2, first, second) == SlotsAfter(k, first, second)
    ensures SlotsAfter(k + 1, first, second).0 != SlotsAfter(k, first, second).0
    ensures {SlotsAfter(k, first, second).0, SlotsAfter(k, first, second).1} == {first, second}
  {
  }

  class DoubleCommandBuffer {
    /** `true` for `DoubleCommandBuffer<true>`. */
    const doubleBuffering: bool
    var executing: CommandBuffer
    var collector: CommandBuffer
    /** The buffers given to the constructor (both the same one without double buffering). */
    ghost const first: CommandBuffer
    ghost const second: CommandBuffer
    /** Number of `GetForExecution` calls so far. */
    ghost var executions: nat

    ghost predicate Valid()
      reads this
    {
      if doubleBuffering then
        first != second && (executing, collector) == SlotsAfter(executions, first, second)
      else
        first == second && executing == first && collector == first
    }

    /** `DoubleCommandBuffer<true>(executing, collector)`. */
    constructor Double(executing: CommandBuffer, collector: CommandBuffer)
      requires executing != collector
      ensures Valid() && doubleBuffering && executions == 0
      ensures this.executing == executing && this.collector == collector
    {
      doubleBuffering := true;
      this.executing := executing;
      this.collector := collector;
      first := executing;
      second := collector;
      executions := 0;
    }

    /** `DoubleCommandBuffer<false>(buffer)`. */
    constructor Single(buffer: CommandBuffer)
      ensures Valid() && !doubleBuffering && executions == 0
      ensures executing == buffer && collector == buffer
    {
      doubleBuffering := false;
      executing := buffer;
      collector := buffer;
      first := buffer;
      second := buffer;
      executions := 0;
    }

    /** `get_for_writing`: the collector, whatever happened before. */
    function GetForWriting(): (r: CommandBuffer)
      reads this
      ensures Valid() && doubleBuffering ==> r == SlotsAfter(executions, first, second).1
      ensures Valid() && !doubleBuffering ==> r == first
    {
      collector
    }

    /**
     * `get_for_execution`: resets the executing buffer and, with double
     * buffering, swaps the slots; returns the handle of the buffer now in the
     * executing slot, which holds what was collected.
     */
    method GetForExecution() returns (h: Handle)
      requires Valid()
      modifies this, executing
      ensures Valid() && executions == old(executions) + 1
      ensures old(executing).commands == []
      ensures doubleBuffering ==> executing == old(collector) && collector == old(executing)
      ensures doubleBuffering ==> h == old(collector).handle && old(collector).commands == old(collector.commands)
      ensures !doubleBuffering ==> executing == old(executing) && collector == old(collector) && h == executing.handle
    {
      executing.Reset();
      if doubleBuffering {
        executing, collector := collector, executing;
      }
      executions := executions + 1;
      h := executing.handle;
    }
  }
}
