/** What the scheduler runs. JavaScript and host code are not modelled: a task, a poll or a
    reaction is the sequence of scheduler operations it performs. Every finite execution of real
    code is one such value, so a lemma for all of them is a lemma for all executions. */
module Work {
  import opened Common

  /** One call into the active event loop or the promise futures. Task ids, timer ids and promises
      are arbitrary numbers, so an operation may name something stale, foreign or never issued. */
  datatype Op =
    | Queue(task: Task)
    | QueueReady(task: Task)
    | QueueTimer(task: Task, deadline: nat)
    | QueueJsTimer(task: Task, deadline: nat, global: nat)
    | SignalReady(id: nat)
    | CancelIfQueued(id: nat)
    | ClearJsTimer(timer: nat)
    | JsTimerFired(timer: nat)
    | AcquireInterest
    | ReleaseInterest
    | RequestStop
    | Spawn(promise: nat, future: Future)
    | CancelFuture(promise: nat)

  /** A task: what its handler does, its at most one re-queue of itself (running consumes the
      task), and what it and the microtasks drained after it do from then on. */
  datatype Task = Task(body: seq<Op>, again: Option<Again>, tail: seq<Op>)

  /** The arguments of an interval's re-queue. */
  datatype Again = Again(timer: nat, task: Task, deadline: nat)

  /** A future by what its next poll does: finish, leaving the settling of its promise to run
      `reactions`, or stay pending, leave the microtasks `jobs` behind, and continue as `next`. */
  datatype Future =
    | Finishes(effects: seq<Op>, reactions: seq<Op>)
    | Waits(effects: seq<Op>, jobs: seq<Op>, next: Future)

  /** How many polls `future` takes to finish. */
  function Polls(future: Future): (n: nat)
    ensures n > 0
  {
    match future
    case Finishes(_, _) => 1
    case Waits(_, _, next) => 1 + Polls(next)
  }

  /** What is left of `future` after a poll of it whose outcome, if any, is kept. */
  function PolledOnce(future: Future): (left: Future)
    ensures Polls(left) == if future.Waits? then Polls(future) - 1 else 1
  {
    match future
    case Finishes(_, reactions) => Finishes([], reactions)
    case Waits(_, _, next) => next
  }
}
