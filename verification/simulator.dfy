/** The simulator's step: one press of the step button advances the pipeline
    by one clock cycle, or, with the pipeline switched off, runs one
    instruction start to finish. */
module Simulator {
  import opened Common
  import opened Isa
  import opened Pipeline
  import opened Serial

  /** doOneCycle. Dispatches on the pipeline switch; the switch itself never
      changes. A pipelined step costs exactly one cycle and retires at most
      one instruction; a serial step on an unfinished machine retires one
      instruction and costs five cycles, or eight for a LOAD or STR that went
      to memory; a serial step on a finished machine does nothing. */
  function DoOneCycle(m: Machine): (r: Result<Machine>)
    ensures r.Ok? ==> r.value.pipelined == m.pipelined
    ensures m.pipelined && r.Ok? ==>
              && r.value.clock == m.clock + 1
              && m.instructions <= r.value.instructions <= m.instructions + 1
    ensures !m.pipelined && IsComplete(m) ==> r == Ok(m)
    ensures !m.pipelined && !IsComplete(m) && r.Ok? ==>
              && r.value.instructions == m.instructions + 1
              && BaseCycles <= r.value.clock - m.clock <= BaseCycles + Config.MemoryDelay - 1
    ensures !m.pipelined && r.Err? ==> r.fault.InvalidRegister?
  {
    if m.pipelined then Cycle(m) else RunOneInstruction(m)
  }

  /** The counters can only describe at most one instruction per cycle. */
  predicate IpcBounded(m: Machine) {
    m.instructions <= m.clock
  }

  /** Every step keeps the instruction count within the cycle count. */
  lemma StepKeepsIpcBounded(m: Machine)
    requires IpcBounded(m) && DoOneCycle(m).Ok?
    ensures IpcBounded(DoOneCycle(m).value)
  {
  }

  /** Both resets start the counters from zero, inside the bound. */
  lemma ResetsAreIpcBounded(m: Machine)
    ensures IpcBounded(ResetPerformanceCounters(m))
    ensures IpcBounded(ResetSimulation(m))
  {
  }

  /** A run of steps: each machine is the successful step of the one before. */
  predicate IsSteps(ms: seq<Machine>) {
    forall k :: 0 <= k < |ms| - 1 ==> DoOneCycle(ms[k]) == Ok(ms[k + 1])
  }

  lemma {:induction false} BoundedTrace(ms: seq<Machine>)
    requires |ms| > 0 && IpcBounded(ms[0])
    requires forall k :: 0 <= k < |ms| - 1 ==> (IpcBounded(ms[k]) ==> IpcBounded(ms[k + 1]))
    ensures IpcBounded(ms[|ms| - 1])
    decreases |ms|
  {
    if |ms| > 1 {
      assert IpcBounded(ms[1]);
      BoundedTrace(ms[1..]);
    }
  }

  /** From a reset, however the pipeline switch is set, the reported
      instructions per cycle never exceed one. */
  lemma IpcNeverExceedsOne(ms: seq<Machine>)
    requires |ms| > 0 && IpcBounded(ms[0]) && IsSteps(ms)
    ensures GetPerformanceStats(ms[|ms| - 1]).ipc <= 1.0
  {
    forall k | 0 <= k < |ms| - 1
      ensures IpcBounded(ms[k]) ==> IpcBounded(ms[k + 1])
    {
      if IpcBounded(ms[k]) {
        assert DoOneCycle(ms[k]) == Ok(ms[k + 1]);
        StepKeepsIpcBounded(ms[k]);
      }
    }
    BoundedTrace(ms);
  }
}
