/**
 The conversation loader's job queue: a list ordered by priority, a map of queued keys, and the
 channels of those waiting for work (go/chat/convloader.go:29-106).
 */
module JobQueue {

  type Chan = nat

  /** What ConvLoaderJob.String prints: two jobs with the same key are the same generic job. */
  datatype Key = Key(conv: nat, page: string, generic: bool)

  datatype Job = Job(conv: nat, page: string, generic: bool, priority: int) {
    function Name(): Key {
      Key(conv, page, generic)
    }
  }

  /** `ticket` numbers the pushes; the source has no such field. */
  datatype Task = Task(job: Job, attempt: nat, ticket: nat)

  datatype Queue = Queue(tasks: seq<Task>, names: set<Key>, waiting: seq<Chan>, closed: set<Chan>,
                         maxSize: nat, chans: nat, tickets: nat)

  predicate HigherPriority(t: Task, u: Task) {
    t.job.priority > u.job.priority
  }

  /** The place before the first task of lower priority, searching from i. */
  function InsertionPoint(ts: seq<Task>, t: Task, i: nat): (k: nat)
    requires i <= |ts|
    ensures i <= k <= |ts|
    ensures forall j :: i <= j < k ==> !HigherPriority(t, ts[j])
    ensures k < |ts| ==> HigherPriority(t, ts[k])
    decreases |ts| - i
  {
    if i < |ts| && !HigherPriority(t, ts[i]) then InsertionPoint(ts, t, i + 1) else i
  }

  function Insert(ts: seq<Task>, t: Task): seq<Task> {
    var k := InsertionPoint(ts, t, 0);
    ts[..k] + [t] + ts[k..]
  }

  datatype PushResult = Full | Skipped | Queued

  function Push(q: Queue, job: Job, attempt: nat): (Queue, PushResult) {
    if |q.tasks| >= q.maxSize then (q, Full)
    else if job.generic && job.Name() in q.names then (q, Skipped)
    else
      (q.(tasks := Insert(q.tasks, Task(job, attempt, q.tickets)), names := q.names + {job.Name()},
          waiting := [], closed := q.closed + (set c | c in q.waiting), tickets := q.tickets + 1),
       Queued)
  }

  function PopFront(q: Queue): Queue {
    if q.tasks == [] then q
    else q.(tasks := q.tasks[1..], names := q.names - {q.tasks[0].job.Name()})
  }

  /** Wait hands out a new channel, already closed when there is work. */
  function Wait(q: Queue): (Queue, Chan) {
    (if q.tasks == [] then q.(waiting := q.waiting + [q.chans], chans := q.chans + 1)
     else q.(closed := q.closed + {q.chans}, chans := q.chans + 1),
     q.chans)
  }

  /******* Invariant *******/

  /** t leaves the queue before u. */
  predicate Before(t: Task, u: Task) {
    t.job.priority > u.job.priority || (t.job.priority == u.job.priority && t.ticket < u.ticket)
  }

  ghost predicate Ordered(ts: seq<Task>) {
    forall i, j :: 0 <= i < j < |ts| ==> Before(ts[i], ts[j])
  }

  ghost predicate Tasks(q: Queue) {
    && Ordered(q.tasks)
    && |q.tasks| <= q.maxSize
    && forall t :: t in q.tasks ==> t.ticket < q.tickets
  }

  /** Every name in the map is that of a queued job; a generic job is queued once and named. */
  ghost predicate Names(q: Queue) {
    && (forall n :: n in q.names ==> exists i :: 0 <= i < |q.tasks| && q.tasks[i].job.Name() == n)
    && (forall i :: 0 <= i < |q.tasks| && q.tasks[i].job.generic ==> q.tasks[i].job.Name() in q.names)
    && (forall i, j :: 0 <= i < j < |q.tasks| && q.tasks[i].job.generic ==> q.tasks[i].job.Name() != q.tasks[j].job.Name())
  }

  /** No waiter is left open while there is work, and every channel handed out is open or closed, not both. */
  ghost predicate Waiters(q: Queue) {
    && (q.tasks != [] ==> q.waiting == [])
    && (forall c :: c in q.waiting ==> c !in q.closed && c < q.chans)
    && (forall i, j :: 0 <= i < j < |q.waiting| ==> q.waiting[i] != q.waiting[j])
    && (forall c :: c in q.closed ==> c < q.chans)
    && (forall c: nat :: c < q.chans ==> c in q.waiting || c in q.closed)
  }

  ghost predicate Inv(q: Queue) {
    Tasks(q) && Names(q) && Waiters(q)
  }

  lemma InsertConserves(ts: seq<Task>, t: Task)
    ensures multiset(Insert(ts, t)) == multiset(ts) + multiset{t}
  {
    hide InsertionPoint;
    var k := InsertionPoint(ts, t, 0);
    assert ts == ts[..k] + ts[k..];
  }

  /** Where each task is after an insertion. */
  lemma InsertAt(ts: seq<Task>, t: Task)
    ensures var k, r := InsertionPoint(ts, t, 0), Insert(ts, t);
      && |r| == |ts| + 1 && r[k] == t
      && (forall i :: 0 <= i < k ==> r[i] == ts[i])
      && (forall i :: k <= i < |ts| ==> r[i + 1] == ts[i])
      && (forall i :: k < i < |r| ==> r[i] == ts[i - 1])
      && multiset(r) == multiset(ts) + multiset{t}
  {
    hide InsertionPoint;
    InsertConserves(ts, t);
  }

  lemma InsertOrdered(ts: seq<Task>, t: Task)
    requires Ordered(ts) && forall u :: u in ts ==> u.ticket < t.ticket
    ensures Ordered(Insert(ts, t))
  {
    InsertAt(ts, t);
    hide Insert;
    var k, r := InsertionPoint(ts, t, 0), Insert(ts, t);
    forall i, j | 0 <= i < j < |r| ensures Before(r[i], r[j]) {
      if j == k {
        assert ts[i] in ts;
      } else if i == k {
        assert j > k + 1 ==> Before(ts[k], ts[j - 1]);
      }
    }
  }

  lemma InsertNames(q: Queue, t: Task)
    requires Names(q) && (t.job.generic ==> t.job.Name() !in q.names)
    ensures Names(q.(tasks := Insert(q.tasks, t), names := q.names + {t.job.Name()}))
  {
    InsertAt(q.tasks, t);
    hide Insert;
    var k, r := InsertionPoint(q.tasks, t, 0), Insert(q.tasks, t);
    forall n | n in q.names ensures exists i :: 0 <= i < |r| && r[i].job.Name() == n {
      var i :| 0 <= i < |q.tasks| && q.tasks[i].job.Name() == n;
      assert i < k ==> r[i] == q.tasks[i];
    }
    forall i | 0 <= i < |q.tasks| && t.job.generic ensures q.tasks[i].job.Name() != t.job.Name() { }
  }

  lemma PushTasks(q: Queue, t: Task)
    requires Tasks(q) && |q.tasks| < q.maxSize && t.ticket == q.tickets
    ensures Tasks(q.(tasks := Insert(q.tasks, t), tickets := q.tickets + 1))
  {
    InsertAt(q.tasks, t);
    InsertOrdered(q.tasks, t);
    hide Insert, Ordered;
    var ts := Insert(q.tasks, t);
    forall u | u in ts ensures u.ticket < q.tickets + 1 {
      assert u in multiset(ts);
      assert u in q.tasks || u == t;
    }
  }

  lemma PushWaiters(q: Queue, q': Queue)
    requires Waiters(q) && q'.chans == q.chans
    requires q'.waiting == [] && q'.closed == q.closed + (set c | c in q.waiting)
    ensures Waiters(q')
  {
  }

  lemma PushKeepsInv(q: Queue, job: Job, attempt: nat)
    requires Inv(q)
    ensures Inv(Push(q, job, attempt).0)
  {
    if Push(q, job, attempt).1.Queued? {
      var t := Task(job, attempt, q.tickets);
      PushTasks(q, t);
      InsertNames(q, t);
      PushWaiters(q, Push(q, job, attempt).0);
      hide Insert, Ordered, Waiters;
    }
  }

  /** A push fails exactly when the queue is full, is skipped exactly when the same generic job is queued,
      and otherwise adds just this task and releases every waiter. */
  lemma PushQueuesIff(q: Queue, job: Job, attempt: nat)
    requires Inv(q)
    ensures var (q', res) := Push(q, job, attempt);
      && (res.Full? <==> |q.tasks| == q.maxSize)
      && (res.Skipped? <==> |q.tasks| < q.maxSize && job.generic && exists i :: 0 <= i < |q.tasks| && q.tasks[i].job.Name() == job.Name())
      && (res.Queued? ==> multiset(q'.tasks) == multiset(q.tasks) + multiset{Task(job, attempt, q.tickets)})
      && (res.Queued? ==> q'.waiting == [] && forall c :: c in q.waiting ==> c in q'.closed)
      && (!res.Queued? ==> q' == q)
  {
    hide Insert, Ordered, Waiters;
    InsertConserves(q.tasks, Task(job, attempt, q.tickets));
  }

  lemma PopKeepsInv(q: Queue)
    requires Inv(q)
    ensures Inv(PopFront(q))
  {
    if q.tasks != [] {
      var q' := PopFront(q);
      forall n | n in q'.names ensures exists i :: 0 <= i < |q'.tasks| && q'.tasks[i].job.Name() == n {
        var i :| 0 <= i < |q.tasks| && q.tasks[i].job.Name() == n;
        assert q'.tasks[i - 1] == q.tasks[i];
      }
    }
  }

  lemma WaitKeepsInv(q: Queue)
    requires Inv(q)
    ensures Inv(Wait(q).0)
  {
    hide Tasks, Names;
    var q' := Wait(q).0;
    assert forall i :: 0 <= i < |q.waiting| ==> q.waiting[i] in q.waiting;
    if q.tasks == [] {
      assert q.chans !in q.waiting;
      forall i, j | 0 <= i < j < |q'.waiting| ensures q'.waiting[i] != q'.waiting[j] {
        assert q'.waiting[i] == q.waiting[i] && (j < |q.waiting| ==> q'.waiting[j] == q.waiting[j]);
      }
    }
    forall c: nat | c < q'.chans ensures c in q'.waiting || c in q'.closed {
      if q.tasks == [] && c == q.chans { assert q'.waiting[|q.waiting|] == c; }
    }
    SameTasks(q, q');
  }

  lemma SameTasks(q: Queue, q': Queue)
    requires Tasks(q) && Names(q) && q'.tasks == q.tasks && q'.names == q.names && q'.maxSize == q.maxSize && q'.tickets == q.tickets
    ensures Tasks(q') && Names(q')
  {
  }

  /******* Runs *******/

  datatype Op = PushOp(job: Job, attempt: nat) | PopOp | WaitOp

  function Apply(q: Queue, op: Op): Queue {
    match op
    case PushOp(job, attempt) => Push(q, job, attempt).0
    case PopOp => PopFront(q)
    case WaitOp => Wait(q).0
  }

  function Run(q: Queue, ops: seq<Op>): Queue
    decreases |ops|
  {
    if ops == [] then q else Run(Apply(q, ops[0]), ops[1..])
  }

  function New(maxSize: nat): Queue {
    Queue([], {}, [], {}, maxSize, 0, 0)
  }

  lemma ApplyKeepsInv(q: Queue, op: Op)
    requires Inv(q)
    ensures Inv(Apply(q, op))
  {
    match op
    case PushOp(job, attempt) => PushKeepsInv(q, job, attempt);
    case PopOp => PopKeepsInv(q);
    case WaitOp => WaitKeepsInv(q);
  }

  lemma {:induction false} RunKeepsInv(q: Queue, ops: seq<Op>)
    requires Inv(q)
    ensures Inv(Run(q, ops))
    decreases |ops|
  {
    if ops != [] {
      ApplyKeepsInv(q, ops[0]);
      RunKeepsInv(Apply(q, ops[0]), ops[1..]);
    }
  }

  /** The push is taken: there is room, and no queued job is the same generic one. */
  ghost predicate Accepts(q: Queue, op: Op) {
    op.PushOp? && |q.tasks| < q.maxSize && (op.job.generic ==> forall t :: t in q.tasks ==> t.job.Name() != op.job.Name())
  }

  ghost function TakenBy(q: Queue, op: Op): seq<Task> {
    if Accepts(q, op) then [Task(op.job, op.attempt, q.tickets)] else []
  }

  ghost function GivenBy(q: Queue, op: Op): seq<Task> {
    if op.PopOp? && q.tasks != [] then [q.tasks[0]] else []
  }

  /** The tasks that a run takes in, in order, each with the next ticket. */
  ghost function Taken(q: Queue, ops: seq<Op>): seq<Task>
    decreases |ops|
  {
    if ops == [] then [] else TakenBy(q, ops[0]) + Taken(Apply(q, ops[0]), ops[1..])
  }

  /** The tasks that a run hands out, in order. */
  ghost function Given(q: Queue, ops: seq<Op>): seq<Task>
    decreases |ops|
  {
    if ops == [] then [] else GivenBy(q, ops[0]) + Given(Apply(q, ops[0]), ops[1..])
  }

  lemma ApplyConserves(q: Queue, op: Op)
    requires Inv(q)
    ensures var q' := Apply(q, op);
      multiset(q'.tasks) + multiset(GivenBy(q, op)) == multiset(q.tasks) + multiset(TakenBy(q, op)) && q'.tickets == q.tickets + |TakenBy(q, op)|
  {
    hide Insert, Waiters, Ordered, Names;
    if op.PushOp? {
      PushQueuesIff(q, op.job, op.attempt);
      assert forall i :: 0 <= i < |q.tasks| ==> q.tasks[i] in q.tasks;
    } else if op.PopOp? && q.tasks != [] {
      assert q.tasks == [q.tasks[0]] + q.tasks[1..];
    }
  }

  lemma BothCounts(a: seq<Task>, b: seq<Task>)
    ensures multiset(a + b) == multiset(a) + multiset(b)
  {
  }

  lemma Chain(a: multiset<Task>, b: multiset<Task>, c: multiset<Task>, g: multiset<Task>, g': multiset<Task>, t: multiset<Task>, t': multiset<Task>)
    requires b + g == a + t && c + g' == b + t'
    ensures c + (g + g') == a + (t + t')
  {
    forall x ensures (c + (g + g'))[x] == (a + (t + t'))[x] {
      assert (b + g)[x] == (a + t)[x] && (c + g')[x] == (b + t')[x];
    }
  }

  /** Over every run each task taken in is handed out once or still queued, and nothing else is. */
  lemma {:induction false} RunConserves(q: Queue, ops: seq<Op>)
    requires Inv(q)
    ensures multiset(Run(q, ops).tasks) + multiset(Given(q, ops)) == multiset(q.tasks) + multiset(Taken(q, ops))
    decreases |ops|
  {
    hide Inv, Apply, TakenBy, GivenBy;
    if ops != [] {
      var q', rest := Apply(q, ops[0]), ops[1..];
      ApplyConserves(q, ops[0]);
      ApplyKeepsInv(q, ops[0]);
      RunConserves(q', rest);
      BothCounts(GivenBy(q, ops[0]), Given(q', rest));
      BothCounts(TakenBy(q, ops[0]), Taken(q', rest));
      Chain(multiset(q.tasks), multiset(q'.tasks), multiset(Run(q', rest).tasks), multiset(GivenBy(q, ops[0])),
            multiset(Given(q', rest)), multiset(TakenBy(q, ops[0])), multiset(Taken(q', rest)));
    }
  }

  /** A waiter gets a fresh channel, closed exactly when there is work, and disturbs nothing. */
  lemma WaitClosedIff(q: Queue)
    requires Inv(q)
    ensures var (q', c) := Wait(q);
      && c !in q.waiting && c !in q.closed && (c in q'.closed <==> q.tasks != []) && (c in q'.waiting <==> q.tasks == [])
      && q'.tasks == q.tasks && q'.names == q.names
      && forall d :: d != c ==> (d in q'.waiting <==> d in q.waiting) && (d in q'.closed <==> d in q.closed)
  {
  }

  /** After any run the next job out has the highest priority of all queued, and was pushed first among
      its equals; the queue is within its bound and no waiter misses work. */
  lemma FrontIsEarliestOfHighest(maxSize: nat, ops: seq<Op>, t: Task)
    requires var q := Run(New(maxSize), ops); t in q.tasks && t != q.tasks[0]
    ensures var q := Run(New(maxSize), ops); var front := q.tasks[0];
      && (front.job.priority > t.job.priority || (front.job.priority == t.job.priority && front.ticket < t.ticket))
      && |q.tasks| <= maxSize && q.waiting == []
  {
    RunKeepsInv(New(maxSize), ops);
    var q := Run(New(maxSize), ops);
    var i :| 0 <= i < |q.tasks| && q.tasks[i] == t;
    RunKeepsSize(New(maxSize), ops);
  }

  lemma {:induction false} RunKeepsSize(q: Queue, ops: seq<Op>)
    ensures Run(q, ops).maxSize == q.maxSize
    decreases |ops|
  {
    if ops != [] { RunKeepsSize(Apply(q, ops[0]), ops[1..]); }
  }
}

/** The queue object: Push walks the list to its insertion point and closes every waiter. */
module JobQueueObject {
  import opened Wrappers
  import opened JobQueue

  class JobList {
    var queue: seq<Task>
    var waitChs: seq<Chan>
    var queueMap: set<Key>
    const maxSize: nat
    var closed: set<Chan>
    var chans: nat
    var tickets: nat

    function Abs(): Queue
      reads this
    {
      Queue(queue, queueMap, waitChs, closed, maxSize, chans, tickets)
    }

    constructor (size: nat)
      ensures Abs() == New(size)
    {
      queue, waitChs, queueMap, maxSize, closed, chans, tickets := [], [], {}, size, {}, 0, 0;
    }

    method Wait() returns (ch: Chan)
      modifies this
      ensures (Abs(), ch) == JobQueue.Wait(old(Abs()))
    {
      ch := chans;
      chans := chans + 1;
      if |queue| == 0 {
        waitChs := waitChs + [ch];
      } else {
        closed := closed + {ch};
      }
    }

    /** Closing a channel that is closed already would panic. */
    method Close(ch: Chan)
      requires ch !in closed
      modifies this`closed
      ensures closed == old(closed) + {ch}
    {
      closed := closed + {ch};
    }

    method NotifyWaiters()
      requires Waiters(Abs().(tasks := []))
      modifies this`closed, this`waitChs
      ensures waitChs == [] && closed == old(closed) + (set c | c in old(waitChs))
    {
      for i := 0 to |waitChs|
        invariant waitChs == old(waitChs) && closed == old(closed) + (set c | c in waitChs[..i])
      {
        assert waitChs[i] in waitChs;
        Close(waitChs[i]);
        assert waitChs[..i + 1] == waitChs[..i] + [waitChs[i]];
      }
      assert waitChs[..|waitChs|] == waitChs;
      waitChs := [];
    }

    method Push(job: Job, attempt: nat) returns (res: PushResult)
      requires Inv(Abs())
      modifies this
      ensures (Abs(), res) == JobQueue.Push(old(Abs()), job, attempt)
    {
      if |queue| >= maxSize { return Full; }
      if job.generic && job.Name() in queueMap { return Skipped; }
      queueMap := queueMap + {job.Name()};
      var task := Task(job, attempt, tickets);
      var e: nat := 0;
      while e < |queue| && !HigherPriority(task, queue[e])
        invariant e <= |queue| && InsertionPoint(queue, task, e) == InsertionPoint(queue, task, 0)
      {
        e := e + 1;
      }
      queue := queue[..e] + [task] + queue[e..];
      tickets := tickets + 1;
      NotifyWaiters();
      res := Queued;
    }

    method PopFront() returns (res: Option<Task>)
      modifies this
      ensures Abs() == JobQueue.PopFront(old(Abs()))
      ensures res == if old(queue) == [] then None else Some(old(queue)[0])
    {
      if |queue| == 0 { return None; }
      res := Some(queue[0]);
      queueMap := queueMap - {queue[0].job.Name()};
      queue := queue[1..];
    }
  }

}
