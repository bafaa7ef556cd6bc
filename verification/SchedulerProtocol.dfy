/** Who may run which job (homesoc/scheduler.py): any number of callers of `run_now`, any number
    of worker threads (a `stop` that timed out leaves one behind when `start` makes another), one
    FIFO queue under a condition variable, one non-blocking lock per job.

    A worker also takes jobs from the timetable; here it may take any job at any time, so what
    holds here holds for every timetable.  `start`, `stop` and a dying worker change only whether
    callers see a live worker, which here changes at any time. */
module SchedulerProtocol {
  import opened Options

  type Name = nat
  type Thread = nat

  /** `_queue`, and the names whose `queued` and `running` flags are set. */
  datatype Board = Board(queue: seq<Name>, queued: set<Name>, running: set<Name>)

  /** The block of `run_now` under the condition variable. */
  function Offer(b: Board, name: Name): (Board, bool) {
    if name in b.running || name in b.queued then (b, false)
    else (b.(queue := b.queue + [name], queued := b.queued + {name}), true)
  }

  /** The queue branch of `_next_job`, under the same condition variable. */
  function Take(b: Board): Board
    requires b.queue != []
  {
    b.(queue := b.queue[1..], queued := b.queued - {b.queue[0]})
  }

  /** Where a thread is; `worker` threads go back for the next job when one is done. */
  datatype Pc =
    | Idle
    | AsksAlive(name: Name)
    | AsksRunning(name: Name)
    | Offers(name: Name)
    | Picks
    | TriesLock(name: Name, worker: bool)
    | SetsRunning(name: Name, worker: bool)
    | Executes(name: Name, worker: bool)
    | ClearsRunning(name: Name, worker: bool)
    | Releases(name: Name, worker: bool)

  datatype State = State(
    board: Board,
    holders: map<Name, Thread>,   // the per-job locks that are held
    threads: map<Thread, Pc>,
    // history: requests accepted, requests taken from the queue, and jobs executed, in order
    accepted: seq<Name>,
    taken: seq<Name>,
    executed: seq<Name>
  )

  /** What a thread's environment decides for it: whether a worker looks alive, and which job of
      the timetable, if any, is due when the queue is empty. */
  datatype Event =
    | RunNow(t: Thread, name: Name)
    | StartWorker(t: Thread)
    | Step(t: Thread, alive: bool, due: Option<Name>)

  function PcOf(s: State, t: Thread): Pc { if t in s.threads then s.threads[t] else Idle }

  predicate Enabled(s: State, e: Event) {
    match e
    case RunNow(t, _) => PcOf(s, t).Idle?
    case StartWorker(t) => PcOf(s, t).Idle?
    case Step(t, _, _) => !PcOf(s, t).Idle?
  }

  function Goto(s: State, t: Thread, pc: Pc): State { s.(threads := s.threads[t := pc]) }

  function Home(worker: bool): Pc { if worker then Picks else Idle }

  function Advance(s: State, t: Thread, alive: bool, due: Option<Name>): State {
    match PcOf(s, t)
    case Idle => s
    case AsksAlive(n) => Goto(s, t, if alive then Offers(n) else AsksRunning(n))
    case AsksRunning(n) => Goto(s, t, if n in s.board.running then Idle else TriesLock(n, false))
    case Offers(n) =>
      Goto(s, t, Idle).(board := Offer(s.board, n).0,
                        accepted := if Offer(s.board, n).1 then s.accepted + [n] else s.accepted)
    case Picks =>
      if s.board.queue != [] then
        Goto(s, t, TriesLock(s.board.queue[0], true))
          .(board := Take(s.board), taken := s.taken + [s.board.queue[0]])
      else Goto(s, t, if due.Some? then TriesLock(due.value, true) else if alive then Picks else Idle)
    case TriesLock(n, w) =>
      if n in s.holders then Goto(s, t, Home(w))
      else Goto(s, t, SetsRunning(n, w)).(holders := s.holders[n := t])
    case SetsRunning(n, w) => Goto(s, t, Executes(n, w)).(board := s.board.(running := s.board.running + {n}))
    case Executes(n, w) => Goto(s, t, ClearsRunning(n, w)).(executed := s.executed + [n])
    case ClearsRunning(n, w) => Goto(s, t, Releases(n, w)).(board := s.board.(running := s.board.running - {n}))
    case Releases(n, w) => Goto(s, t, Home(w)).(holders := s.holders - {n})
  }

  function Next(s: State, e: Event): State {
    match e
    case RunNow(t, n) => Goto(s, t, AsksAlive(n))
    case StartWorker(t) => Goto(s, t, Picks)
    case Step(t, alive, due) => Advance(s, t, alive, due)
  }

  function After(s: State, run: seq<Event>): State
    decreases run
  {
    if run == [] then s else After(Next(s, run[0]), run[1..])
  }

  ghost predicate Legal(s: State, run: seq<Event>)
    decreases run
  {
    run == [] || (Enabled(s, run[0]) && Legal(Next(s, run[0]), run[1..]))
  }

  const START := State(Board([], {}, {}), map[], map[], [], [], [])

  // ---- the queue ----

  ghost predicate BoardOk(b: Board) {
    && (forall i, j :: 0 <= i < j < |b.queue| ==> b.queue[i] != b.queue[j])
    && (forall n :: n in b.queued <==> n in b.queue)
  }

  lemma BoardKept(b: Board, name: Name)
    requires BoardOk(b)
    ensures BoardOk(Offer(b, name).0)
    ensures b.queue != [] ==> BoardOk(Take(b))
  {
    if b.queue != [] {
      assert b.queue == [b.queue[0]] + b.queue[1..];
    }
  }

  ghost predicate QueueOk(s: State) { BoardOk(s.board) && s.accepted == s.taken + s.board.queue }

  lemma QueueStep(s: State, e: Event)
    requires QueueOk(s) && Enabled(s, e)
    ensures QueueOk(Next(s, e))
  {
    if e.Step? {
      var pc, queue := PcOf(s, e.t), s.board.queue;
      if pc.Picks? && queue != [] {
        BoardKept(s.board, 0);
        assert s.taken + queue == s.taken + [queue[0]] + queue[1..];
      } else if pc.Offers? {
        BoardKept(s.board, pc.name);
      }
    }
  }

  // ---- the locks ----

  /** The job whose lock a thread holds. */
  function Holding(pc: Pc): Option<Name> {
    match pc
    case SetsRunning(n, _) => Some(n)
    case Executes(n, _) => Some(n)
    case ClearsRunning(n, _) => Some(n)
    case Releases(n, _) => Some(n)
    case _ => None
  }

  /** Between setting and clearing the `running` flag of `n`. */
  predicate Busy(pc: Pc, n: Name) { (pc.Executes? || pc.ClearsRunning?) && pc.name == n }

  ghost predicate HoldersOk(s: State) {
    forall t :: t in s.threads && Holding(s.threads[t]).Some? ==>
      var n := Holding(s.threads[t]).value; n in s.holders && s.holders[n] == t
  }

  ghost predicate FlagsOk(s: State) {
    forall n :: n in s.board.running ==> n in s.holders && Busy(PcOf(s, s.holders[n]), n)
  }

  ghost predicate BusyOk(s: State) {
    forall t, n :: t in s.threads && Busy(s.threads[t], n) ==> n in s.board.running
  }

  ghost predicate LocksOk(s: State) { HoldersOk(s) && FlagsOk(s) && BusyOk(s) && HoldersReal(s) }

  /** What a step does to the locks and the flags is about the job of its own thread. */
  lemma OwnJob(s: State, t: Thread, alive: bool, due: Option<Name>, n: Name)
    requires !PcOf(s, t).Idle?
    requires !PcOf(s, t).Picks? && PcOf(s, t).name != n
    ensures var s' := Advance(s, t, alive, due);
            && (n in s'.holders <==> n in s.holders) && (n in s.holders ==> s'.holders[n] == s.holders[n])
            && (n in s'.board.running <==> n in s.board.running)
  {
  }

  lemma HoldersStep(s: State, e: Event)
    requires HoldersOk(s) && Enabled(s, e)
    ensures HoldersOk(Next(s, e))
  {
    if e.Step? {
      var pc, s' := PcOf(s, e.t), Next(s, e);
      forall t | t in s'.threads && Holding(s'.threads[t]).Some?
        ensures var n := Holding(s'.threads[t]).value; n in s'.holders && s'.holders[n] == t
      {
        var n := Holding(s'.threads[t]).value;
        if !pc.Picks? && pc.name != n {
          OwnJob(s, e.t, e.alive, e.due, n);
        }
      }
    }
  }

  lemma FlagsStep(s: State, e: Event)
    requires HoldersOk(s) && FlagsOk(s) && Enabled(s, e)
    ensures FlagsOk(Next(s, e))
  {
    if e.Step? {
      var pc, s' := PcOf(s, e.t), Next(s, e);
      forall n | n in s'.board.running ensures n in s'.holders && Busy(PcOf(s', s'.holders[n]), n) {
        if !pc.Picks? && pc.name != n {
          OwnJob(s, e.t, e.alive, e.due, n);
        }
      }
    }
  }

  lemma BusyStep(s: State, e: Event)
    requires HoldersOk(s) && BusyOk(s) && Enabled(s, e)
    ensures BusyOk(Next(s, e))
  {
    if e.Step? {
      var pc, s' := PcOf(s, e.t), Next(s, e);
      forall t, n | t in s'.threads && Busy(s'.threads[t], n) ensures n in s'.board.running {
        if !pc.Picks? && pc.name != n {
          OwnJob(s, e.t, e.alive, e.due, n);
        }
      }
    }
  }

  /** Nobody holds a lock but the thread at work under it. */
  ghost predicate HoldersReal(s: State) {
    forall n :: n in s.holders ==> Holding(PcOf(s, s.holders[n])) == Some(n)
  }

  lemma RealStep(s: State, e: Event)
    requires HoldersOk(s) && HoldersReal(s) && Enabled(s, e)
    ensures HoldersReal(Next(s, e))
  {
    if e.Step? {
      var pc, s' := PcOf(s, e.t), Next(s, e);
      forall n | n in s'.holders ensures Holding(PcOf(s', s'.holders[n])) == Some(n) {
        if !pc.Picks? && pc.name != n {
          OwnJob(s, e.t, e.alive, e.due, n);
        }
      }
    }
  }

  lemma LocksStep(s: State, e: Event)
    requires LocksOk(s) && Enabled(s, e)
    ensures LocksOk(Next(s, e))
  {
    HoldersStep(s, e);
    FlagsStep(s, e);
    BusyStep(s, e);
    RealStep(s, e);
  }

  lemma {:induction false} SafeRun(s: State, run: seq<Event>)
    requires QueueOk(s) && LocksOk(s) && Legal(s, run)
    ensures QueueOk(After(s, run)) && LocksOk(After(s, run))
    decreases run
  {
    if run != [] {
      QueueStep(s, run[0]);
      LocksStep(s, run[0]);
      SafeRun(Next(s, run[0]), run[1..]);
    }
  }

  /** In every interleaving: the queue holds no job twice, `queued` is set exactly for the jobs in
      it, and the accepted requests are those taken from it, in the order accepted, followed by
      those still waiting. */
  lemma QueueConserved(run: seq<Event>)
    requires Legal(START, run)
    ensures var s := After(START, run);
            && (forall i, j :: 0 <= i < j < |s.board.queue| ==> s.board.queue[i] != s.board.queue[j])
            && (forall n :: n in s.board.queued <==> n in s.board.queue)
            && s.accepted == s.taken + s.board.queue
  {
    SafeRun(START, run);
  }

  /** A second click never stacks up work: no job has two accepted requests waiting. */
  lemma NeverStacked(run: seq<Event>, n: Name)
    requires Legal(START, run)
    ensures multiset(After(START, run).accepted)[n] <= multiset(After(START, run).taken)[n] + 1
  {
    SafeRun(START, run);
    AtMostOne(After(START, run).board.queue, n);
  }

  lemma {:induction false} AtMostOne(queue: seq<Name>, n: Name)
    requires forall i, j :: 0 <= i < j < |queue| ==> queue[i] != queue[j]
    ensures multiset(queue)[n] <= 1
  {
    if queue != [] {
      assert queue == [queue[0]] + queue[1..];
      AtMostOne(queue[1..], n);
      if queue[0] == n {
        assert n !in queue[1..];
      }
    }
  }

  /** In every interleaving two executions of one job never overlap, and while a job executes its
      `running` flag is set, so `run_now` refuses it. */
  lemma NoOverlap(run: seq<Event>, t: Thread, u: Thread)
    requires Legal(START, run)
    requires PcOf(After(START, run), t).Executes? && PcOf(After(START, run), u).Executes?
    requires PcOf(After(START, run), t).name == PcOf(After(START, run), u).name
    ensures t == u
    ensures !Offer(After(START, run).board, PcOf(After(START, run), t).name).1
  {
    SafeRun(START, run);
    assert Busy(PcOf(After(START, run), t), PcOf(After(START, run), t).name);
  }

  /** A request is accepted exactly when no accepted request for the job is still waiting and no thread is
      between setting and clearing the job's flag; then it goes behind those accepted before. */
  lemma AcceptedExactly(run: seq<Event>, t: Thread, alive: bool, due: Option<Name>)
    requires Legal(START, run) && PcOf(After(START, run), t).Offers?
    ensures var s := After(START, run);
            var n := PcOf(s, t).name;
            && |s.taken| <= |s.accepted|
            && Next(s, Step(t, alive, due)).accepted
               == if n in s.accepted[|s.taken|..] || exists u :: Busy(PcOf(s, u), n) then s.accepted
                  else s.accepted + [n]
  {
    SafeRun(START, run);
    var s := After(START, run);
    var n := PcOf(s, t).name;
    assert s.accepted[|s.taken|..] == s.board.queue;
    if n in s.board.running {
      assert Busy(PcOf(s, s.holders[n]), n);
    }
    if u :| Busy(PcOf(s, u), n) {
      assert u in s.threads;
    }
  }

  /** A job taken from the queue or the timetable is executed exactly when, as its lock is tried, no
      other thread is at work on that job; a request taken meanwhile is dropped. */
  lemma TakenRunsExactly(run: seq<Event>, t: Thread, alive: bool, due: Option<Name>)
    requires Legal(START, run) && PcOf(After(START, run), t).TriesLock?
    ensures var s := After(START, run);
            var n := PcOf(s, t).name;
            PcOf(Next(s, Step(t, alive, due)), t).SetsRunning?
            <==> forall u :: Holding(PcOf(s, u)) != Some(n)
  {
    SafeRun(START, run);
    var s := After(START, run);
    var n := PcOf(s, t).name;
    if n in s.holders {
      assert Holding(PcOf(s, s.holders[n])) == Some(n);
    }
  }

  // ---- a request that is dropped ----

  lemma {:induction false} OneMore(s: State, run: seq<Event>, now: State, e: Event, next: State)
    requires Legal(s, run) && After(s, run) == now && Enabled(now, e) && Next(now, e) == next
    ensures Legal(s, run + [e]) && After(s, run + [e]) == next
    decreases run
  {
    if run == [] {
      assert run + [e] == [e] && [e][1..] == [];
    } else {
      OneMore(Next(s, run[0]), run[1..], now, e, next);
      assert (run + [e])[1..] == run[1..] + [e];
    }
  }

  /** A caller and two workers. */
  function Trio(board: Board, holders: map<Name, Thread>, caller: Pc, one: Pc, two: Pc,
                accepted: seq<Name>, taken: seq<Name>, executed: seq<Name>): State {
    State(board, holders, map[0 := caller, 1 := one, 2 := two], accepted, taken, executed)
  }

  lemma TrioGoes(s: State, t: Thread, pc: Pc)
    requires s.threads.Keys == {0, 1, 2} && t in s.threads
    ensures s.threads[t := pc] == map[0 := if t == 0 then pc else s.threads[0], 1 := if t == 1 then pc else s.threads[1],
                                      2 := if t == 2 then pc else s.threads[2]]
  {
  }

  /** The caller's request is accepted: the job is neither queued nor running yet. */
  lemma Accepted(run: seq<Event>, s: State, n: Name, one: Pc, two: Pc, accepted: seq<Name>, taken: seq<Name>)
    returns (longer: seq<Event>)
    requires Legal(START, run) && After(START, run) == s
    requires s == Trio(Board([], {}, {}), map[], AsksAlive(n), one, two, accepted, taken, [])
    ensures Legal(START, longer)
    ensures After(START, longer)
            == Trio(Board([n], {n}, {}), map[], Idle, one, two, accepted + [n], taken, [])
  {
    var s1 := Trio(Board([], {}, {}), map[], Offers(n), one, two, accepted, taken, []);
    var s2 := Trio(Board([n], {n}, {}), map[], Idle, one, two, accepted + [n], taken, []);
    var offer := Step(0, true, None);
    TrioGoes(s, 0, Offers(n));
    OneMore(START, run, s, offer, s1);
    TrioGoes(s1, 0, Idle);
    assert [] + [n] == [n] && {} + {n} == {n};
    OneMore(START, run + [offer], s1, offer, s2);
    longer := run + [offer] + [offer];
  }

  /** Two workers wait, and a request arrives. */
  lemma Opens(n: Name) returns (run: seq<Event>)
    ensures Legal(START, run)
    ensures After(START, run) == Trio(Board([], {}, {}), map[], AsksAlive(n), Picks, Picks, [], [], [])
  {
    var s1 := Goto(START, 0, AsksAlive(n));
    var s2 := Goto(s1, 1, Picks);
    OneMore(START, [], START, RunNow(0, n), s1);
    OneMore(START, [] + [RunNow(0, n)], s1, StartWorker(1), s2);
    OneMore(START, [] + [RunNow(0, n)] + [StartWorker(1)], s2, StartWorker(2), Goto(s2, 2, Picks));
    run := [] + [RunNow(0, n)] + [StartWorker(1)] + [StartWorker(2)];
  }

  /** A worker takes the only request there is. */
  lemma Takes(run: seq<Event>, s: State, n: Name, t: Thread, one: Pc, two: Pc, accepted: seq<Name>, taken: seq<Name>)
    returns (longer: seq<Event>)
    requires Legal(START, run) && After(START, run) == s
    requires s == Trio(Board([n], {n}, {}), map[], Idle, one, two, accepted, taken, [])
    requires (t == 1 && one == Picks) || (t == 2 && two == Picks)
    ensures Legal(START, longer)
    ensures After(START, longer)
            == Trio(Board([], {}, {}), map[], Idle, if t == 1 then TriesLock(n, true) else one,
                    if t == 2 then TriesLock(n, true) else two, accepted, taken + [n], [])
  {
    var take, pc := Step(t, true, None), TriesLock(n, true);
    TrioGoes(s, t, pc);
    assert s.board.queue[1..] == [] && s.board.queued - {n} == {};
    OneMore(START, run, s, take, Trio(Board([], {}, {}), map[], Idle, if t == 1 then pc else one,
                                      if t == 2 then pc else two, accepted, taken + [n], []));
    longer := run + [take];
  }

  /** Both workers have taken a request for the job before either has its lock. */
  lemma TakenTwice(n: Name) returns (run: seq<Event>)
    ensures Legal(START, run)
    ensures After(START, run)
            == Trio(Board([], {}, {}), map[], Idle, TriesLock(n, true), TriesLock(n, true), [n, n], [n, n], [])
  {
    var tries := TriesLock(n, true);
    run := Opens(n);
    run := Accepted(run, After(START, run), n, Picks, Picks, [], []);
    assert [] + [n] == [n] && [n] + [n] == [n, n];
    run := Takes(run, After(START, run), n, 1, Picks, Picks, [n], []);
    var s := After(START, run);
    TrioGoes(s, 0, AsksAlive(n));
    OneMore(START, run, s, RunNow(0, n), Trio(Board([], {}, {}), map[], AsksAlive(n), tries, Picks, [n], [n], []));
    run := run + [RunNow(0, n)];
    run := Accepted(run, After(START, run), n, tries, Picks, [n], [n]);
    run := Takes(run, After(START, run), n, 2, tries, Picks, [n, n], [n]);
  }

  /** The first worker gets the lock, and the second turns away. */
  lemma TurnsAway(n: Name) returns (run: seq<Event>)
    ensures Legal(START, run)
    ensures After(START, run)
            == Trio(Board([], {}, {}), map[n := 1], Idle, SetsRunning(n, true), Picks, [n, n], [n, n], [])
  {
    run := TakenTwice(n);
    var tries, sets := TriesLock(n, true), SetsRunning(n, true);
    var s := After(START, run);
    var s1 := Trio(Board([], {}, {}), map[n := 1], Idle, sets, tries, [n, n], [n, n], []);
    TrioGoes(s, 1, sets);
    OneMore(START, run, s, Step(1, true, None), s1);
    TrioGoes(s1, 2, Picks);
    OneMore(START, run + [Step(1, true, None)], s1, Step(2, true, None),
            Trio(Board([], {}, {}), map[n := 1], Idle, sets, Picks, [n, n], [n, n], []));
    run := run + [Step(1, true, None)] + [Step(2, true, None)];
  }

  lemma Executed(n: Name, run: seq<Event>, s: State) returns (longer: seq<Event>)
    requires Legal(START, run) && After(START, run) == s
    requires s == Trio(Board([], {}, {}), map[n := 1], Idle, SetsRunning(n, true), Picks, [n, n], [n, n], [])
    ensures Legal(START, longer)
    ensures After(START, longer)
            == Trio(Board([], {}, {n}), map[n := 1], Idle, ClearsRunning(n, true), Picks, [n, n], [n, n], [n])
  {
    var go := Step(1, true, None);
    var s1 := Trio(Board([], {}, {n}), map[n := 1], Idle, Executes(n, true), Picks, [n, n], [n, n], []);
    TrioGoes(s, 1, Executes(n, true));
    OneMore(START, run, s, go, s1);
    TrioGoes(s1, 1, ClearsRunning(n, true));
    OneMore(START, run + [go], s1, go,
            Trio(Board([], {}, {n}), map[n := 1], Idle, ClearsRunning(n, true), Picks, [n, n], [n, n], [n]));
    longer := run + [go] + [go];
  }

  /** The lone execution, to its end. */
  lemma Finished(n: Name, run: seq<Event>, s: State) returns (longer: seq<Event>)
    requires Legal(START, run) && After(START, run) == s
    requires s == Trio(Board([], {}, {n}), map[n := 1], Idle, ClearsRunning(n, true), Picks, [n, n], [n, n], [n])
    ensures Legal(START, longer)
    ensures After(START, longer) == Trio(Board([], {}, {}), map[], Idle, Picks, Picks, [n, n], [n, n], [n])
  {
    var go := Step(1, true, None);
    var s1 := Trio(Board([], {}, {}), map[n := 1], Idle, Releases(n, true), Picks, [n, n], [n, n], [n]);
    TrioGoes(s, 1, Releases(n, true));
    OneMore(START, run, s, go, s1);
    TrioGoes(s1, 1, Picks);
    assert map[n := 1] - {n} == map[];
    OneMore(START, run + [go], s1, go, Trio(Board([], {}, {}), map[], Idle, Picks, Picks, [n, n], [n, n], [n]));
    longer := run + [go] + [go];
  }

  /** With two workers a request can be lost: of a job accepted twice, the second time before its
      `running` flag was set, one execution comes, and then nothing is queued or under way. */
  lemma RequestDropped(n: Name) returns (run: seq<Event>)
    ensures Legal(START, run)
    ensures var s := After(START, run);
            && s.accepted == [n, n] && s.taken == [n, n] && s.executed == [n] && s.board.queue == []
            && forall t :: PcOf(s, t).Idle? || PcOf(s, t).Picks?
  {
    run := TurnsAway(n);
    run := Executed(n, run, After(START, run));
    run := Finished(n, run, After(START, run));
  }

  /** One thread is the only worker, and callers always see it alive. */
  ghost predicate WorksAlone(run: seq<Event>, w: Thread) {
    forall e :: e in run ==>
      match e
      case RunNow(t, _) => t != w
      case StartWorker(t) => t == w
      case Step(t, alive, _) => t != w ==> alive
  }

  ghost predicate OthersAsk(s: State, w: Thread) {
    forall t :: t != w ==> PcOf(s, t).Idle? || PcOf(s, t).AsksAlive? || PcOf(s, t).Offers?
  }

  lemma {:induction false} OthersOnlyAsk(s: State, run: seq<Event>, w: Thread)
    requires OthersAsk(s, w) && Legal(s, run) && WorksAlone(run, w)
    ensures OthersAsk(After(s, run), w)
    decreases run
  {
    if run != [] {
      var e, next := run[0], Next(s, run[0]);
      assert e in run;
      forall t | t != w ensures PcOf(next, t).Idle? || PcOf(next, t).AsksAlive? || PcOf(next, t).Offers? {
        assert PcOf(s, t).Idle? || PcOf(s, t).AsksAlive? || PcOf(s, t).Offers?;
      }
      assert forall x :: x in run[1..] ==> x in run;
      OthersOnlyAsk(next, run[1..], w);
    }
  }

  /** With one worker no request is ever dropped: whatever it takes it executes. */
  lemma LoneWorkerDropsNothing(run: seq<Event>, w: Thread, t: Thread, alive: bool, due: Option<Name>)
    requires Legal(START, run) && WorksAlone(run, w) && PcOf(After(START, run), t).TriesLock?
    ensures t == w && PcOf(Next(After(START, run), Step(t, alive, due)), t).SetsRunning?
  {
    OthersOnlyAsk(START, run, w);
    TakenRunsExactly(run, t, alive, due);
    var s := After(START, run);
    assert t == w;
    forall u ensures Holding(PcOf(s, u)) != Some(PcOf(s, t).name) {
      if u != w {
        assert PcOf(s, u).Idle? || PcOf(s, u).AsksAlive? || PcOf(s, u).Offers?;
      }
    }
  }
}
