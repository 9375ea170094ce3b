/** `SFX.Activate` and `SFX.Deactivate`: starting and cancelling a clip's
    polling task, with the task and its cancellation source abstracted to
    flags. */
module Activation {
  import opened Clips

  /** The lifecycle invariant: the public flag mirrors the cancellation
      source, a held source belongs to the current task (which has not been
      asked to stop), and a task that nobody asked to stop holds the source. */
  predicate Wf(c: Clip)
  {
    && c.isActive == c.hasSource
    && (c.hasSource ==> c.task == Running(false) || c.task == Completed)
    && (c.task == Running(false) ==> c.hasSource)
  }

  /** `Activate`: when no task exists or the last one completed, mark the
      clip active, create a fresh cancellation source and start a task;
      while a task is still running, do nothing. */
  function Activate(c: Clip): (r: Clip)
    ensures SameSettings(c, r)
    ensures c.task.Running? ==> r == c
    ensures !c.task.Running? ==> r.isActive && r.hasSource && r.task == Running(false)
  {
    if c.task == NoTask || c.task == Completed then
      c.(isActive := true, hasSource := true, task := Running(false))
    else
      c
  }

  /** `Deactivate`: when a cancellation source is held, clear the flag,
      cancel the source (the running task sees the request) and drop it;
      otherwise do nothing. */
  function Deactivate(c: Clip): (r: Clip)
    ensures SameSettings(c, r)
    ensures !c.hasSource ==> r == c
    ensures c.hasSource ==> !r.isActive && !r.hasSource
    ensures r.task.Running? <==> c.task.Running?
    ensures c.hasSource && c.task.Running? ==> r.task.cancelRequested
    ensures !c.task.Running? ==> r.task == c.task
  {
    if c.hasSource then
      var t := if c.task.Running? then Running(true) else c.task;
      c.(isActive := false, hasSource := false, task := t)
    else
      c
  }

  /** The polling task ends: it saw its cancellation request at the top of
      its loop, or opening or playing the file threw. */
  function Finish(c: Clip): (r: Clip)
    requires c.task.Running?
    ensures SameSettings(c, r)
    ensures r.task == Completed && r.isActive == c.isActive && r.hasSource == c.hasSource
  {
    c.(task := Completed)
  }

  /** Something that can happen to a clip's lifecycle. */
  datatype Event = DoActivate | DoDeactivate | TaskEnds

  function Step(c: Clip, e: Event): Clip
  {
    match e
    case DoActivate => Activate(c)
    case DoDeactivate => Deactivate(c)
    case TaskEnds => if c.task.Running? then Finish(c) else c
  }

  /** The clip after a sequence of events, applied first to last. */
  function Run(c: Clip, events: seq<Event>): (r: Clip)
    ensures SameSettings(c, r)
  {
    if |events| == 0 then c else Step(Run(c, events[..|events| - 1]), events[|events| - 1])
  }

  /** Every single step keeps the lifecycle invariant. */
  lemma StepPreservesWf(c: Clip, e: Event)
    requires Wf(c)
    ensures Wf(Step(c, e))
  {
  }

  /** A freshly constructed clip, after any sequence of activations,
      deactivations and task endings, satisfies the lifecycle invariant:
      in particular `IsActive` is true exactly when a cancellation source is
      held, and at most one uncancelled task exists. */
  lemma {:induction false} RunPreservesWf(name: string, path: string, events: seq<Event>)
    ensures Wf(Run(NewClip(name, path), events))
  {
    if |events| > 0 {
      RunPreservesWf(name, path, events[..|events| - 1]);
      StepPreservesWf(Run(NewClip(name, path), events[..|events| - 1]), events[|events| - 1]);
    }
  }

  /** Activating twice is activating once. */
  lemma ActivateIdempotent(c: Clip)
    ensures Activate(Activate(c)) == Activate(c)
  {
  }

  /** Deactivating twice is deactivating once. */
  lemma DeactivateIdempotent(c: Clip)
    ensures Deactivate(Deactivate(c)) == Deactivate(c)
  {
  }

  /** `Activate` never abandons a running task, so a clip never has two
      live tasks; after `Deactivate` no task is left running unasked. */
  lemma NoOrphanTask(c: Clip)
    requires Wf(c)
    ensures Activate(c).task != c.task ==> !c.task.Running?
    ensures Deactivate(c).task != Running(false)
  {
  }

  /** Deactivating and at once re-activating an active clip whose task has
      not yet seen its cancellation leaves the clip inactive: `Activate`
      refuses while the old task is still running. Only once that task ends
      does activation take effect again. */
  lemma ReactivateWhileDraining(c: Clip)
    requires Wf(c) && c.isActive && c.task.Running?
    ensures !Activate(Deactivate(c)).isActive
    ensures Activate(Deactivate(c)).task == Running(true)
    ensures Activate(Finish(Deactivate(c))).isActive
    ensures Activate(Finish(Deactivate(c))).task == Running(false)
  {
  }

  /** The polling loop catches nothing: when opening or playing the file
      throws, the polling task ends while the clip still reports itself active and
      keeps its cancellation source. The next `Activate` starts a new task. */
  lemma FaultLeavesClipActive(c: Clip)
    requires Wf(c) && c.task == Running(false)
    ensures Finish(c).isActive && Finish(c).hasSource && !Finish(c).task.Running?
    ensures Activate(Finish(c)).task == Running(false)
  {
  }
}
