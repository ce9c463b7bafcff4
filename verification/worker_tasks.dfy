/**
 * The worker manager's pending-task table (UniverWorkerManager.ts) as a
 * pure event-transition function. A file request registers a task under a
 * fresh id; a worker response settles the task registered under its id; a
 * worker error or `dispose` rejects every pending task. Tasks are the
 * promises handed out, numbered in the order they were created, and each
 * step reports the tasks it settled.
 */
module WorkerTasks {
  import opened Wrappers

  /** How a task's promise settles. */
  datatype Outcome<R> = Resolved(result: R) | Rejected(message: string)

  /** Pending tasks by request id, the disposed flag, and the number the next task gets. */
  datatype Manager = Manager(pending: map<string, nat>, disposed: bool, nextTask: nat)

  /** A freshly constructed manager. */
  const Initial: Manager := Manager(map[], false, 0)

  /** What `transformData` is given: a file, or model data already converted. */
  datatype Input<R> = FileInput(fileName: string) | ModelInput(data: R)

  /** What `transformData` does at once: hand out a pending task, return the data, or throw. */
  datatype Reply<R> = Queued(task: nat) | Returned(data: R) | Thrown(message: string)

  datatype ResponseKind = TransformResponse | TransformError | UnknownKind

  /** A call on the manager or a callback from the worker; `id` of a request is the fresh id drawn for it. */
  datatype Event<R> =
    | Submit(input: Input<R>, id: string)
    | Response(kind: ResponseKind, id: string, result: R, error: Option<string>)
    | WorkerError
    | Dispose

  /** The state after a step, the immediate reply of a request, and the tasks settled (by task number). */
  datatype StepOut<R> = StepOut(next: Manager, reply: Option<Reply<R>>, settled: map<nat, Outcome<R>>)

  const DisposedText: string := "WorkerManager has been disposed"
  const ProcessingFailedText: string := "Worker processing failed"
  const UnknownTypeText: string := "Unknown worker response type"
  const WorkerErrorText: string := "Worker encountered an error"
  const WorkerDisposedText: string := "Worker was disposed"

  /** Every task number in use is below the next one, and no task is pending under two ids. */
  predicate Inv(m: Manager) {
    (forall id | id in m.pending :: m.pending[id] < m.nextTask)
    && (forall a, b | a in m.pending && b in m.pending && a != b :: m.pending[a] != m.pending[b])
    && (m.disposed ==> m.pending == map[])
  }

  /** Every pending task rejected with `message`. */
  function RejectAll<R>(pending: map<string, nat>, message: string): (r: map<nat, Outcome<R>>)
    ensures r.Keys == pending.Values
    ensures forall t | t in r :: r[t] == Rejected(message)
  {
    map t | t in pending.Values :: Rejected(message)
  }

  /** `transformData`: throws once disposed; model data comes back as is; a file registers a new task. */
  function SubmitStep<R>(m: Manager, input: Input<R>, id: string): (r: StepOut<R>)
    ensures r.settled == map[]
    ensures m.disposed ==> r == StepOut(m, Some(Thrown(DisposedText)), map[])
    ensures !m.disposed && input.ModelInput? ==> r == StepOut(m, Some(Returned(input.data)), map[])
    ensures !m.disposed && input.FileInput? ==>
      r.reply == Some(Queued(m.nextTask)) && r.next.pending == m.pending[id := m.nextTask]
      && r.next.nextTask == m.nextTask + 1 && !r.next.disposed
  {
    if m.disposed then StepOut(m, Some(Thrown(DisposedText)), map[])
    else match input
      case ModelInput(data) => StepOut(m, Some(Returned(data)), map[])
      case FileInput(_) =>
        StepOut(m.(pending := m.pending[id := m.nextTask], nextTask := m.nextTask + 1), Some(Queued(m.nextTask)), map[])
  }

  /** The outcome a worker message settles its task with. */
  function MessageOutcome<R>(kind: ResponseKind, result: R, error: Option<string>): (r: Outcome<R>)
    ensures kind == TransformResponse <==> r == Resolved(result)
    ensures kind == TransformError && error.Some? && error.value != [] ==> r == Rejected(error.value)
    ensures kind == TransformError && (error.None? || error.value == []) ==> r == Rejected(ProcessingFailedText)
    ensures kind == UnknownKind ==> r == Rejected(UnknownTypeText)
  {
    match kind
    case TransformResponse => Resolved(result)
    case TransformError => Rejected(if error.Some? && error.value != [] then error.value else ProcessingFailedText)
    case UnknownKind => Rejected(UnknownTypeText)
  }

  /** `onmessage`: ignored once disposed or for an id not pending; otherwise the task leaves the table, then settles. */
  function ResponseStep<R>(m: Manager, kind: ResponseKind, id: string, result: R, error: Option<string>): (r: StepOut<R>)
    ensures r.reply.None?
    ensures m.disposed || id !in m.pending ==> r.next == m && r.settled == map[]
    ensures !m.disposed && id in m.pending ==>
      r.next == m.(pending := m.pending - {id})
      && r.settled == map[m.pending[id] := MessageOutcome(kind, result, error)]
  {
    if m.disposed || id !in m.pending then StepOut(m, None, map[])
    else StepOut(m.(pending := m.pending - {id}), None, map[m.pending[id] := MessageOutcome(kind, result, error)])
  }

  /** `onerror`: ignored once disposed; otherwise every pending task is rejected and the table emptied. */
  function ErrorStep<R>(m: Manager): (r: StepOut<R>)
    ensures r.reply.None?
    ensures m.disposed ==> r.next == m && r.settled == map[]
    ensures !m.disposed ==> r.next == m.(pending := map[]) && r.settled == RejectAll(m.pending, WorkerErrorText)
  {
    if m.disposed then StepOut(m, None, map[])
    else StepOut(m.(pending := map[]), None, RejectAll(m.pending, WorkerErrorText))
  }

  /** `dispose`: idempotent; the first call marks the manager disposed and rejects every pending task. */
  function DisposeStep<R>(m: Manager): (r: StepOut<R>)
    ensures r.reply.None? && r.next.disposed
    ensures m.disposed ==> r.next == m && r.settled == map[]
    ensures !m.disposed ==> r.next == Manager(map[], true, m.nextTask) && r.settled == RejectAll(m.pending, WorkerDisposedText)
  {
    if m.disposed then StepOut(m, None, map[])
    else StepOut(m.(pending := map[], disposed := true), None, RejectAll(m.pending, WorkerDisposedText))
  }

  function Step<R>(m: Manager, e: Event<R>): StepOut<R> {
    match e
    case Submit(input, id) => SubmitStep(m, input, id)
    case Response(kind, id, result, error) => ResponseStep(m, kind, id, result, error)
    case WorkerError => ErrorStep(m)
    case Dispose => DisposeStep(m)
  }

  /** One step keeps the invariant, settles only pending tasks, and takes them out of the table. */
  lemma StepFacts<R>(m: Manager, e: Event<R>)
    requires Inv(m)
    ensures var o := Step(m, e);
      Inv(o.next)
      && o.settled.Keys <= m.pending.Values
      && o.next.pending.Values !! o.settled.Keys
      && o.next.pending.Values <= m.pending.Values + {m.nextTask}
      && o.next.nextTask >= m.nextTask
      && (m.disposed ==> o.next.disposed)
  {
    var o := Step(m, e);
    match e
    case Submit(input, id) =>
      if !m.disposed && input.FileInput? {
        var p := m.pending[id := m.nextTask];
        forall t | t in p.Values ensures t in m.pending.Values + {m.nextTask} {
          var a :| a in p && p[a] == t;
          if a != id {
            assert m.pending[a] == t;
          }
        }
      }
    case Response(kind, id, result, error) =>
      if !m.disposed && id in m.pending {
        var p := m.pending - {id};
        forall t | t in p.Values ensures t in m.pending.Values && t != m.pending[id] {
          var a :| a in p && p[a] == t;
          assert m.pending[a] == t;
        }
      }
    case WorkerError =>
    case Dispose =>
  }

  /** Every pending task number is below the next one. */
  lemma ValuesBelow(m: Manager)
    requires Inv(m)
    ensures forall t | t in m.pending.Values :: t < m.nextTask
  {
    forall t | t in m.pending.Values ensures t < m.nextTask {
      var a :| a in m.pending && m.pending[a] == t;
    }
  }

  /** The state after the events, and what each step settled. */
  function Run<R>(m: Manager, es: seq<Event<R>>): (r: (Manager, seq<map<nat, Outcome<R>>>))
    ensures |r.1| == |es|
    decreases |es|
  {
    if |es| == 0 then (m, [])
    else
      var o := Step(m, es[0]);
      var rest := Run(o.next, es[1..]);
      (rest.0, [o.settled] + rest.1)
  }

  /**
   * Over any sequence of events no task settles twice, and every settled
   * task was pending at the start or created along the way.
   */
  lemma {:induction false} SettledAtMostOnce<R>(m: Manager, es: seq<Event<R>>)
    requires Inv(m)
    ensures forall i, j | 0 <= i < j < |es| :: Run(m, es).1[i].Keys !! Run(m, es).1[j].Keys
    ensures forall i, t | 0 <= i < |es| && t in Run(m, es).1[i] :: t in m.pending.Values || t >= m.nextTask
    decreases |es|
  {
    if |es| > 0 {
      var o := Step(m, es[0]);
      StepFacts(m, es[0]);
      ValuesBelow(m);
      SettledAtMostOnce(o.next, es[1..]);
      var log := Run(m, es).1;
      var rest := Run(o.next, es[1..]).1;
      assert log == [o.settled] + rest;
      forall i, j | 0 <= i < j < |log| ensures log[i].Keys !! log[j].Keys {
        if i == 0 {
          assert log[j] == rest[j - 1];
          forall t | t in log[j] ensures t !in o.settled {
            assert t in rest[j - 1];
            assert t in o.next.pending.Values || t >= o.next.nextTask;
          }
        } else {
          assert log[i] == rest[i - 1] && log[j] == rest[j - 1];
        }
      }
      forall i, t | 0 <= i < |log| && t in log[i] ensures t in m.pending.Values || t >= m.nextTask {
        if i > 0 {
          assert log[i] == rest[i - 1];
          assert t in rest[i - 1];
          assert t in o.next.pending.Values || t >= o.next.nextTask;
          if t in o.next.pending.Values {
            assert t in m.pending.Values + {m.nextTask};
          }
        }
      }
    }
  }

  /** From a fresh manager, no task settles twice. */
  lemma SettledOnce<R>(es: seq<Event<R>>)
    ensures var log := Run(Initial, es).1;
      forall i, j | 0 <= i < j < |log| :: log[i].Keys !! log[j].Keys
  {
    SettledAtMostOnce(Initial, es);
  }

  /** Once disposed, a manager stays disposed and settles nothing. */
  lemma {:induction false} QuietAfterDispose<R>(m: Manager, es: seq<Event<R>>)
    requires m.disposed
    ensures Run(m, es).0.disposed
    ensures forall i | 0 <= i < |es| :: Run(m, es).1[i] == map[]
    decreases |es|
  {
    if |es| > 0 {
      var o := Step(m, es[0]);
      assert o.next == m && o.settled == map[];
      QuietAfterDispose(m, es[1..]);
      var log := Run(m, es).1;
      forall i | 0 <= i < |es| ensures log[i] == map[] {
        if i > 0 {
          assert log[i] == Run(m, es[1..]).1[i - 1];
        }
      }
    }
  }

  /** The events after a `dispose` settle nothing, whatever came before. */
  lemma {:induction false} NothingAfterDispose<R>(m: Manager, es: seq<Event<R>>, i: nat)
    requires i < |es| && es[i] == Dispose
    ensures forall j | i < j < |es| :: Run(m, es).1[j] == map[]
    decreases i
  {
    var o := Step(m, es[0]);
    var log := Run(m, es).1;
    assert log == [o.settled] + Run(o.next, es[1..]).1;
    if i == 0 {
      QuietAfterDispose(o.next, es[1..]);
    } else {
      NothingAfterDispose(o.next, es[1..], i - 1);
    }
    forall j | i < j < |es| ensures log[j] == map[] {
      assert log[j] == Run(o.next, es[1..]).1[j - 1];
    }
  }

  /** A request with a fresh id adds exactly one pending task; a response for a pending id removes exactly one. */
  lemma PendingCount<R>(m: Manager, id: string, name: string, kind: ResponseKind, result: R, error: Option<string>)
    requires !m.disposed
    ensures id !in m.pending ==> |SubmitStep<R>(m, FileInput(name), id).next.pending| == |m.pending| + 1
    ensures id in m.pending ==> |ResponseStep(m, kind, id, result, error).next.pending| == |m.pending| - 1
  {
  }

  /** Model data is handed back unchanged and registers nothing, unless the manager is disposed. */
  lemma ModelInputPassesThrough<R>(m: Manager, data: R, id: string)
    ensures var o := SubmitStep(m, ModelInput(data), id);
      o.next == m && (m.disposed <==> o.reply == Some(Thrown(DisposedText))) && (!m.disposed ==> o.reply == Some(Returned(data)))
  {
  }
}
