/** The bounded work queue of src/auth.ts (`createWorkQueue`): at most `concurrency` tasks at a time, in the order of
    their arrival. */
module WorkQueue {
  /** The counter and the waiting tasks. */
  datatype Queue = Queue(active: nat, queued: seq<nat>)

  datatype Settings = Settings(concurrency: nat, maxQueue: nat)

  datatype Admission = Started | Waiting | Rejected

  function Acquire(s: Settings, q: Queue, task: nat): (Queue, Admission) {
    if q.active < s.concurrency then (q.(active := q.active + 1), Started)
    else if |q.queued| >= s.maxQueue then (q, Rejected)
    else (q.(queued := q.queued + [task]), Waiting)
  }

  /** A task ends; the first waiting one takes its place. */
  function Release(q: Queue): Queue
    requires q.active > 0
  {
    if q.queued == [] then q.(active := q.active - 1) else q.(queued := q.queued[1..])
  }

  // ----- Runs -----

  datatype Event = Arrive(task: nat) | Finish

  /** What a run has seen: tasks admitted, tasks started, and how many have ended. */
  datatype History = History(queue: Queue, admitted: seq<nat>, started: seq<nat>, ended: nat)

  function Next(s: Settings, h: History, e: Event): History {
    match e
    case Arrive(task) =>
      var (q, admission) := Acquire(s, h.queue, task);
      h.(queue := q,
         admitted := if admission.Rejected? then h.admitted else h.admitted + [task],
         started := if admission.Started? then h.started + [task] else h.started)
    case Finish =>
      if h.queue.active == 0 then h
      else
        h.(queue := Release(h.queue), ended := h.ended + 1,
           started := if h.queue.queued == [] then h.started else h.started + [h.queue.queued[0]])
  }

  function Run(s: Settings, events: seq<Event>): History
    decreases |events|
  {
    if events == [] then History(Queue(0, []), [], [], 0)
    else Next(s, Run(s, events[..|events| - 1]), events[|events| - 1])
  }

  predicate HistoryOk(s: Settings, h: History) {
    && h.queue.active <= s.concurrency && |h.queue.queued| <= s.maxQueue
    && (h.queue.queued != [] ==> h.queue.active == s.concurrency)
    && h.started + h.queue.queued == h.admitted
    && h.queue.active + h.ended == |h.started|
  }

  lemma NextKeeps(s: Settings, h: History, e: Event)
    requires HistoryOk(s, h)
    ensures HistoryOk(s, Next(s, h, e))
  {
    if e.Arrive? {
      assert h.started + (h.queue.queued + [e.task]) == h.admitted + [e.task];
    } else if h.queue.active > 0 && h.queue.queued != [] {
      assert h.started + [h.queue.queued[0]] + h.queue.queued[1..] == h.admitted;
    }
  }

  /** In every run: never more than `concurrency` tasks at a time, tasks start in the order of their admission, none
      waits while a place is free, and a task is turned away only when all places and the queue are full. */
  lemma {:induction false} StartedInOrder(s: Settings, events: seq<Event>)
    ensures var h := Run(s, events);
            && |h.started| - h.ended == h.queue.active <= s.concurrency
            && h.started <= h.admitted
            && (|h.started| < |h.admitted| ==> h.queue.active == s.concurrency)
            && forall task :: Acquire(s, h.queue, task).1.Rejected? <==>
                 h.queue.active == s.concurrency && |h.admitted| - |h.started| == s.maxQueue
  {
    RunOk(s, events);
  }

  lemma {:induction false} RunOk(s: Settings, events: seq<Event>)
    ensures HistoryOk(s, Run(s, events))
    decreases |events|
  {
    if events != [] {
      var n := |events| - 1;
      RunOk(s, events[..n]);
      NextKeeps(s, Run(s, events[..n]), events[n]);
    }
  }

  class Pool {
    const settings: Settings
    var active: nat
    var queued: seq<nat>

    function State(): Queue
      reads this
    {
      Queue(active, queued)
    }

    constructor (s: Settings)
      ensures settings == s && State() == Queue(0, [])
    {
      settings, active, queued := s, 0, [];
    }

    method Enter(task: nat) returns (r: Admission)
      modifies this
      ensures (State(), r) == Acquire(settings, old(State()), task)
    {
      if active < settings.concurrency {
        active := active + 1;
        return Started;
      }
      if |queued| >= settings.maxQueue {
        return Rejected;
      }
      queued := queued + [task];
      return Waiting;
    }

    /** Ends a task and starts the first waiting one. */
    method Leave() returns (next: seq<nat>)
      requires active > 0
      modifies this
      ensures State() == Release(old(State()))
      ensures next == if old(queued) == [] then [] else [old(queued)[0]]
    {
      active := active - 1;
      next := [];
      if queued != [] {
        next := [queued[0]];
        queued := queued[1..];
        active := active + 1;
      }
    }
  }
}
