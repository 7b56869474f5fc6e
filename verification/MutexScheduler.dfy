/** Any number of queries on the mutable pool, interleaved as a scheduler pleases. Each query
    is a task that stops between its pool operations; the scheduler picks who goes on. */
module MutexScheduler {
  import opened PoolSpec
  import opened Counting
  import opened ConnPool
  import opened MutexServer
  import opened MutexInvariant
  import MutexSystem
  import MutexRuns
  import MutexCascade

  /** Where a query stands, with the objects its local variables refer to. */
  datatype Task =
    | Admitted
    | NeedConn(i: nat)
    | Dialing(i: nat, upstream: Upstream)
    | Exchanging(i: nat, ce: ConnEntry)
    | Closing(i: nat, ce: ConnEntry)
    | Adding(i: nat, ce: ConnEntry)
    | Done(out: MutexSystem.Outcome)
    | Released(out: MutexSystem.Outcome)
  {
    predicate HasConn() {
      Exchanging? || Closing? || Adding?
    }

    ghost function View(): MutexSystem.Phase
      reads if HasConn() then {ce} else {}
    {
      match this
      case Admitted => MutexSystem.Admitted
      case NeedConn(i) => MutexSystem.NeedConn(i)
      case Dialing(i, upstream) => MutexSystem.Dialing(i, upstream.Address())
      case Exchanging(i, ce) => MutexSystem.Exchanging(i, ce.View())
      case Closing(i, ce) => MutexSystem.Closing(i, ce.View())
      case Adding(i, ce) => MutexSystem.Adding(i, ce.View())
      case Done(out) => MutexSystem.Done(out)
      case Released(out) => MutexSystem.Released(out)
    }
  }

  function Retry(cfg: Config, i: nat): Task {
    if i < cfg.retries then NeedConn(i + 1) else Done(MutexSystem.Failed)
  }

  lemma RetryView(cfg: Config, i: nat)
    ensures Retry(cfg, i).View() == MutexSystem.Retry(cfg, i)
  {
  }

  /** What the world does to a task that goes on. */
  datatype Net = Net(hit: bool, dial: Option<nat>, rtt: nat, answered: bool, at: Time)

  /** The step that a query in this phase takes, none when it has been released. */
  function StepOf(ph: MutexSystem.Phase, q: nat, n: Net): seq<MutexSystem.Action> {
    match ph
    case Admitted => [MutexSystem.Lookup(q, n.hit)]
    case NeedConn(_) => [MutexSystem.Take(q)]
    case Dialing(_, _) => [if n.dial.Some? then MutexSystem.DialOk(q, n.dial.value) else MutexSystem.DialFail(q)]
    case Exchanging(_, _) => [MutexSystem.Exchange(q, n.rtt, n.answered)]
    case Closing(_, _) => [MutexSystem.Close(q)]
    case Adding(_, _) => [MutexSystem.Return(q)]
    case Done(_) => [MutexSystem.Release(q)]
    case Released(_) => []
  }

  /** What the scheduler picks next: a query that arrives, a task that goes on, or a goroutine
      of a purge that runs. */
  datatype Event =
    | Arrives(q: nat, at: Time)
    | GoesOn(q: nat, n: Net)
    | Closes(k: nat, at: Time)
  {
    function Time(): Time {
      match this
      case Arrives(_, at) => at
      case GoesOn(_, n) => n.at
      case Closes(_, at) => at
    }
  }

  /** The same for a task. */
  function TaskStep(task: Task, q: nat, n: Net): seq<MutexSystem.Action> {
    match task
    case Admitted => [MutexSystem.Lookup(q, n.hit)]
    case NeedConn(_) => [MutexSystem.Take(q)]
    case Dialing(_, _) => [if n.dial.Some? then MutexSystem.DialOk(q, n.dial.value) else MutexSystem.DialFail(q)]
    case Exchanging(_, _) => [MutexSystem.Exchange(q, n.rtt, n.answered)]
    case Closing(_, _) => [MutexSystem.Close(q)]
    case Adding(_, _) => [MutexSystem.Return(q)]
    case Done(_) => [MutexSystem.Release(q)]
    case Released(_) => []
  }

  lemma TaskStepIs(task: Task, q: nat, n: Net)
    ensures TaskStep(task, q, n) == StepOf(task.View(), q, n)
  {
  }

  /** What an event does in a state, nothing when it cannot happen: a query that finds no slot
      goes on waiting. */
  function StepsOf(s: MutexSystem.State, e: Event): seq<MutexSystem.Action> {
    match e
    case Arrives(q, _) => if q !in s.queries && s.sem > 0 then [MutexSystem.Acquire(q)] else []
    case GoesOn(q, n) => if q in s.queries then StepOf(s.queries[q], q, n) else []
    case Closes(k, _) => if k < |s.pending| then [MutexSystem.AsyncClose(k)] else []
  }

  /** From action k on, the run is exactly the events from number i on, each doing what it does
      in the state it meets. */
  ghost predicate Plays(tr: seq<MutexSystem.State>, acts: seq<MutexSystem.Action>, k: nat, events: seq<Event>, i: nat)
    requires i <= |events|
    decreases |events| - i
  {
    && k <= |acts| < |tr|
    && if i == |events| then k == |acts|
       else
         var next := k + |StepsOf(tr[k], events[i])|;
         next <= |acts| && acts[k..next] == StepsOf(tr[k], events[i]) && Plays(tr, acts, next, events, i + 1)
  }

  lemma PlaysOn(tr: seq<MutexSystem.State>, acts: seq<MutexSystem.Action>, tr': seq<MutexSystem.State>,
                acts': seq<MutexSystem.Action>, events: seq<Event>, i: nat, steps: seq<MutexSystem.Action>)
    requires |tr| == |acts| + 1 && tr <= tr' && i < |events| && steps == StepsOf(tr[|acts|], events[i])
    requires acts + steps <= acts' && Plays(tr', acts', |acts + steps|, events, i + 1)
    ensures Plays(tr', acts', |acts|, events, i)
  {
    hide StepsOf;
    assert tr'[|acts|] == tr[|acts|];
    assert acts'[|acts|..|acts| + |steps|] == (acts + steps)[|acts|..] == steps;
  }

  /** The objects behind the connection numbers of a run. */
  datatype Links = Links(conns: seq<ConnEntry>, sockets: seq<Socket>)
  {
    /** Connections are numbered by dial, each has its socket, and no two share one. */
    ghost predicate Numbered() {
      && |conns| == |sockets|
      && (forall i | 0 <= i < |conns| :: conns[i].id == i && conns[i].conn == sockets[i])
      && forall i, j | 0 <= i < j < |sockets| :: sockets[i] != sockets[j]
    }

    ghost predicate Known(c: ConnEntry) {
      c.id < |conns| && conns[c.id] == c
    }

    /** Everybody's connections are known ones. */
    ghost predicate AllKnown(entries: set<ConnEntry>, spawned: seq<ConnEntry>) {
      && (forall c | c in entries :: Known(c))
      && forall i | 0 <= i < |spawned| :: Known(spawned[i])
    }

    /** Each socket was closed as often as the run says. */
    ghost predicate CountsCloses(closed: multiset<nat>)
      reads sockets
    {
      forall i | 0 <= i < |sockets| :: sockets[i].closes == closed[i]
    }

    /** The tasks are where the run says its queries are. */
    ghost predicate Mirrors(tasks: map<nat, Task>, queries: map<nat, MutexSystem.Phase>)
      reads conns
    {
      && tasks.Keys == queries.Keys
      && forall q | q in tasks :: (tasks[q].HasConn() ==> Known(tasks[q].ce)) && tasks[q].View() == queries[q]
    }

    function Plus(ce: ConnEntry): Links {
      Links(conns + [ce], sockets + [ce.conn])
    }
  }

  /** The tasks and the sockets are what a state of the run says, where `entries` are the idle
      connections and `spawned` those that await an asynchronous close. */
  ghost predicate Attached(tasks: map<nat, Task>, links: Links, s: MutexSystem.State,
                           entries: set<ConnEntry>, spawned: seq<ConnEntry>)
    reads links.conns, links.sockets
  {
    && |links.conns| == |s.dialed| && links.Numbered() && links.AllKnown(entries, spawned)
    && links.Mirrors(tasks, s.queries) && links.CountsCloses(s.closed)
  }

  lemma KnownStep(links: Links, entries: set<ConnEntry>, spawned: seq<ConnEntry>,
                  entries': set<ConnEntry>, spawned': seq<ConnEntry>)
    requires links.AllKnown(entries, spawned) && Handed(spawned, entries, spawned')
    requires forall c | c in entries' :: c in entries || links.Known(c)
    ensures links.AllKnown(entries', spawned')
  {
  }

  lemma AttachedStep(tasks: map<nat, Task>, links: Links, s: MutexSystem.State, entries: set<ConnEntry>,
                     spawned: seq<ConnEntry>, s': MutexSystem.State, entries': set<ConnEntry>, spawned': seq<ConnEntry>,
                     q: nat, task: Task)
    requires |links.conns| == |s.dialed| && links.Numbered() && links.AllKnown(entries, spawned)
    requires links.Mirrors(tasks, s.queries) && links.CountsCloses(s'.closed)
    requires s'.dialed == s.dialed && s'.queries == s.queries[q := task.View()]
    requires Handed(spawned, entries, spawned') && (task.HasConn() ==> links.Known(task.ce))
    requires entries' <= entries
    ensures Attached(tasks[q := task], links, s', entries', spawned')
  {
    KnownStep(links, entries, spawned, entries', spawned');
  }

  /** The same when the task gives its connection back. */
  lemma AttachedReturn(tasks: map<nat, Task>, links: Links, s: MutexSystem.State, entries: set<ConnEntry>,
                       spawned: seq<ConnEntry>, s': MutexSystem.State, entries': set<ConnEntry>,
                       spawned': seq<ConnEntry>, q: nat, task: Task)
    requires Attached(tasks, links, s, entries, spawned) && q in tasks && tasks[q].Adding? && !task.HasConn()
    requires s'.dialed == s.dialed && s'.closed == s.closed && s'.queries == s.queries[q := task.View()]
    requires Handed(spawned, entries, spawned') && entries' <= entries + {tasks[q].ce}
    ensures Attached(tasks[q := task], links, s', entries', spawned')
  {
    KnownStep(links, entries, spawned, entries', spawned');
  }

  lemma PlusLinks(links: Links, ce: ConnEntry, closed: multiset<nat>)
    requires links.Numbered() && links.CountsCloses(closed)
    requires ce.id == |links.conns| && ce.conn !in links.sockets && ce.conn.closes == 0 && ce.id !in closed
    ensures links.Plus(ce).Numbered() && links.Plus(ce).CountsCloses(closed) && links.Plus(ce).Known(ce)
    ensures forall c | links.Known(c) :: links.Plus(ce).Known(c)
  {
    assert closed[ce.id] == 0;
    assert forall j | 0 <= j < |links.sockets| :: links.sockets[j] in links.sockets;
  }

  lemma AttachedDial(tasks: map<nat, Task>, links: Links, s: MutexSystem.State, entries: set<ConnEntry>,
                     spawned: seq<ConnEntry>, s': MutexSystem.State, entries': set<ConnEntry>, spawned': seq<ConnEntry>,
                     q: nat, i: nat, ce: ConnEntry)
    requires Attached(tasks, links, s, entries, spawned)
    requires |s'.dialed| == |s.dialed| + 1 && s'.closed == s.closed
    requires s'.queries == s.queries[q := Exchanging(i, ce).View()]
    requires ce.id == |links.conns| && ce.conn !in links.sockets && ce.conn.closes == 0 && ce.id !in s.closed
    requires Handed(spawned, entries, spawned') && entries' <= entries
    ensures Attached(tasks[q := Exchanging(i, ce)], links.Plus(ce), s', entries', spawned')
  {
    KnownStep(links, entries, spawned, entries', spawned');
    PlusLinks(links, ce, s.closed);
    assert links.Plus(ce).Mirrors(tasks, s.queries);
  }

  /** No connection is closed before it was dialed. */
  lemma DialedFirst(server: Server)
    requires server.Valid()
    ensures |server.Now().dialed| !in server.Now().closed
  {
    RunInv(server.cfg, server.tr, server.acts, |server.acts|);
    assert MutexSystem.WellPlaced(server.cfg, server.Now());
  }

  /** A server over a pool to which the upstreams have been added, with no query yet. */
  method Boot(pool: ConnectionPool, ghost start: Time) returns (server: Server)
    requires pool.Valid() && pool.cache == map[] && pool.spawned == [] && start >= 0
    requires |pool.upstreams| > 0 && Distinct(RecordViews(pool.upstreams))
    requires forall u | u in RecordViews(pool.upstreams) :: u.weight == 0.0 && u.wakeup == 0
    ensures server.Valid() && server.pool == pool && server.Now().clock == start
    ensures Attached(map[], Links([], []), server.Now(), Entries(pool.cache), pool.spawned)
  {
    server := new Server(pool, start);
    assert Entries(pool.cache) == {};
  }

  /** A new query is admitted. */
  method Start(server: Server, tasks: map<nat, Task>, ghost links: Links, q: nat, at: Time)
    returns (tasks': map<nat, Task>)
    requires server.Valid() && Attached(tasks, links, server.Now(), Entries(server.pool.cache), server.pool.spawned)
    requires q !in tasks && server.Now().sem > 0 && server.Now().clock <= at
    modifies server`tr, server`acts
    ensures server.Valid() && Attached(tasks', links, server.Now(), Entries(server.pool.cache), server.pool.spawned)
    ensures tasks' == tasks[q := Admitted]
    ensures server.Now().clock == at && old(server.tr) <= server.tr
    ensures server.acts == old(server.acts) + [MutexSystem.Acquire(q)]
  {
    hide AddressOf, MutexSystem.Init, MutexSystem.StepAt, Lists, RecordViews, Conns;
    ghost var s, entries, spawned := server.Now(), Entries(server.pool.cache), server.pool.spawned;
    server.Acquire(q, at);
    assert Attached(tasks, links, s, entries, spawned);
    var task := Admitted;
    AttachedStep(tasks, links, s, entries, spawned, server.Now(), Entries(server.pool.cache), server.pool.spawned,
                 q, task);
    tasks' := tasks[q := task];
  }

  method LookUp(server: Server, tasks: map<nat, Task>, ghost links: Links, q: nat, hit: bool, at: Time)
    returns (tasks': map<nat, Task>)
    requires server.Valid() && Attached(tasks, links, server.Now(), Entries(server.pool.cache), server.pool.spawned)
    requires q in tasks && tasks[q].Admitted? && server.Now().clock <= at
    modifies server`tr, server`acts
    ensures server.Valid() && Attached(tasks', links, server.Now(), Entries(server.pool.cache), server.pool.spawned)
    ensures tasks' == tasks[q := if hit then Done(MutexSystem.Cached) else NeedConn(0)]
    ensures server.Now().clock == at && old(server.tr) <= server.tr
    ensures server.acts == old(server.acts) + [MutexSystem.Lookup(q, hit)]
  {
    hide AddressOf, MutexSystem.Init, MutexSystem.StepAt, Lists, RecordViews, Conns;
    ghost var s, entries, spawned := server.Now(), Entries(server.pool.cache), server.pool.spawned;
    server.LookUp(q, hit, at);
    assert Attached(tasks, links, s, entries, spawned);
    var task := if hit then Done(MutexSystem.Cached) else NeedConn(0);
    AttachedStep(tasks, links, s, entries, spawned, server.Now(), Entries(server.pool.cache), server.pool.spawned,
                 q, task);
    tasks' := tasks[q := task];
  }

  method AskPool(server: Server, tasks: map<nat, Task>, ghost links: Links, q: nat, at: Time)
    returns (tasks': map<nat, Task>)
    requires server.Valid() && Attached(tasks, links, server.Now(), Entries(server.pool.cache), server.pool.spawned)
    requires q in tasks && tasks[q].NeedConn? && server.Now().clock <= at
    modifies server`tr, server`acts, server.pool`cache
    ensures server.Valid() && Attached(tasks', links, server.Now(), Entries(server.pool.cache), server.pool.spawned)
    ensures q in tasks' && tasks' == tasks[q := tasks'[q]]
    ensures (tasks'[q].Exchanging? || tasks'[q].Dialing?) && tasks'[q].i == tasks[q].i
    ensures server.Now().clock == at && old(server.tr) <= server.tr
    ensures server.acts == old(server.acts) + [MutexSystem.Take(q)]
  {
    hide AddressOf, MutexSystem.Init, MutexSystem.StepAt, Lists, RecordViews, Conns;
    ghost var s, entries, spawned := server.Now(), Entries(server.pool.cache), server.pool.spawned;
    var ce, upstream := server.Take(q, at);
    assert Attached(tasks, links, s, entries, spawned);
    var task := if ce != null then Exchanging(tasks[q].i, ce) else Dialing(tasks[q].i, upstream);
    AttachedStep(tasks, links, s, entries, spawned, server.Now(), Entries(server.pool.cache), server.pool.spawned,
                 q, task);
    tasks' := tasks[q := task];
  }

  method Dial(server: Server, tasks: map<nat, Task>, ghost links: Links, q: nat, dial: Option<nat>, at: Time)
    returns (tasks': map<nat, Task>, ghost links': Links, ce: ConnEntry?)
    requires server.Valid() && Attached(tasks, links, server.Now(), Entries(server.pool.cache), server.pool.spawned)
    requires q in tasks && tasks[q].Dialing? && server.Now().clock <= at
    modifies server`tr, server`acts, server.pool`cache, server.pool`spawned, server.pool.upstreams
    ensures server.Valid() && Attached(tasks', links', server.Now(), Entries(server.pool.cache), server.pool.spawned)
    ensures ce != null <==> dial.Some?
    ensures tasks' == tasks[q := if ce != null then Exchanging(tasks[q].i, ce) else Retry(server.cfg, tasks[q].i)]
    ensures server.Now().clock == at && old(server.tr) <= server.tr
    ensures server.acts == old(server.acts)
                           + [if dial.Some? then MutexSystem.DialOk(q, dial.value) else MutexSystem.DialFail(q)]
    ensures links' == links || (ce != null && fresh(ce) && fresh(ce.conn) && links' == links.Plus(ce))
  {
    hide AddressOf, MutexSystem.Init, MutexSystem.StepAt, Lists, RecordViews, Conns;
    ghost var s, entries, spawned := server.Now(), Entries(server.pool.cache), server.pool.spawned;
    var i := tasks[q].i;
    DialedFirst(server);
    ce := server.NewConnection(q, tasks[q].upstream, dial, at);
    assert Attached(tasks, links, s, entries, spawned);
    if ce != null {
      AttachedDial(tasks, links, s, entries, spawned, server.Now(), Entries(server.pool.cache), server.pool.spawned,
                   q, i, ce);
      tasks', links' := tasks[q := Exchanging(i, ce)], links.Plus(ce);
    } else {
      RetryView(server.cfg, i);
      AttachedStep(tasks, links, s, entries, spawned, server.Now(), Entries(server.pool.cache), server.pool.spawned,
                   q, Retry(server.cfg, i));
      tasks', links' := tasks[q := Retry(server.cfg, i)], links;
    }
  }

  /** No other task holds the connection of this one. */
  lemma HeldAlone(server: Server, tasks: map<nat, Task>, links: Links, q: nat)
    requires server.Valid() && links.Mirrors(tasks, server.Now().queries) && q in tasks && tasks[q].HasConn()
    ensures forall r | r in tasks && r != q && tasks[r].HasConn() :: tasks[r].ce != tasks[q].ce
  {
    forall r | r in tasks && r != q && tasks[r].HasConn() ensures tasks[r].ce != tasks[q].ce {
      assert tasks[r].View() == server.Now().queries[r] && tasks[q].View() == server.Now().queries[q];
      server.HeldDistinct(q, r);
    }
  }

  /** An exchange touches the connection of its own task and no other. */
  method ExchangeHeld(server: Server, tasks: map<nat, Task>, ghost links: Links, q: nat, a: Attempt)
    returns (task: Task)
    requires server.Valid() && links.Mirrors(tasks, server.Now().queries)
    requires q in tasks && tasks[q].Exchanging? && server.Now().clock <= a.exchangeAt
    modifies server`tr, server`acts, tasks[q].ce
    ensures server.Valid() && server.Now().clock == a.exchangeAt && old(server.tr) <= server.tr
    ensures server.acts == old(server.acts) + [MutexSystem.Exchange(q, a.rtt, a.answered)]
    ensures task == if a.answered then Adding(tasks[q].i, tasks[q].ce) else Closing(tasks[q].i, tasks[q].ce)
    ensures links.Mirrors(tasks[q := task], server.Now().queries)
    ensures server.Now().dialed == old(server.Now().dialed) && server.Now().closed == old(server.Now().closed)
  {
    hide AddressOf, MutexSystem.Init, MutexSystem.StepAt, Lists, RecordViews, Conns;
    HeldAlone(server, tasks, links, q);
    ghost var queries := server.Now().queries;
    assert tasks[q].View() == queries[q];
    server.Exchange(q, tasks[q].ce, a);
    task := if a.answered then Adding(tasks[q].i, tasks[q].ce) else Closing(tasks[q].i, tasks[q].ce);
    assert task.View() == server.Now().queries[q];
    forall r | r in tasks && r != q ensures tasks[r].View() == queries[r] {
    }
  }

  method Exchange(server: Server, tasks: map<nat, Task>, ghost links: Links, q: nat, rtt: nat, answered: bool, at: Time)
    returns (tasks': map<nat, Task>)
    requires server.Valid() && Attached(tasks, links, server.Now(), Entries(server.pool.cache), server.pool.spawned)
    requires q in tasks && tasks[q].Exchanging? && server.Now().clock <= at
    modifies server`tr, server`acts, tasks[q].ce
    ensures server.Valid() && Attached(tasks', links, server.Now(), Entries(server.pool.cache), server.pool.spawned)
    ensures var i, ce := tasks[q].i, tasks[q].ce;
            tasks' == tasks[q := if answered then Adding(i, ce) else Closing(i, ce)]
    ensures server.Now().clock == at && old(server.tr) <= server.tr
    ensures server.acts == old(server.acts) + [MutexSystem.Exchange(q, rtt, answered)]
  {
    hide AddressOf, MutexSystem.Init, MutexSystem.StepAt, Lists, RecordViews, Conns;
    ghost var s, entries, spawned := server.Now(), Entries(server.pool.cache), server.pool.spawned;
    var task := ExchangeHeld(server, tasks, links, q, Attempt(at, None, at, rtt, answered, at, at));
    assert links.CountsCloses(server.Now().closed);
    tasks' := tasks[q := task];
  }

  lemma OneMoreClose(links: Links, before: seq<nat>, closed: multiset<nat>, id: nat)
    requires |before| == |links.sockets| && id < |before|
    requires forall i | 0 <= i < |before| :: before[i] == closed[i]
    requires forall i | 0 <= i < |before| :: links.sockets[i].closes == before[i] + if i == id then 1 else 0
    ensures links.CountsCloses(closed + multiset{id})
  {
  }

  ghost function Counts(sockets: seq<Socket>): seq<nat>
    reads sockets
  {
    seq(|sockets|, i requires 0 <= i < |sockets| reads sockets => sockets[i].closes)
  }

  /** A close touches its own socket and no other. */
  method CloseSocket(server: Server, ghost links: Links, ghost q: nat, ce: ConnEntry, at: Time)
    requires server.Valid() && links.Numbered() && links.Known(ce) && links.CountsCloses(server.Now().closed)
    requires q in server.Now().queries && server.Now().clock <= at
    requires server.Now().queries[q].Closing? && server.Now().queries[q].ce == ce.View()
    modifies server`tr, server`acts, server.pool`upstreams, server.pool`cache, server.pool`spawned
    modifies server.pool.upstreams, ce.conn
    ensures server.Valid() && server.Now().clock == at && old(server.tr) <= server.tr
    ensures server.acts == old(server.acts) + [MutexSystem.Close(q)]
    ensures Entries(server.pool.cache) <= old(Entries(server.pool.cache))
    ensures Handed(old(server.pool.spawned), old(Entries(server.pool.cache)), server.pool.spawned)
    ensures Among(server.pool.upstreams, old(server.pool.upstreams))
    ensures var queries := old(server.Now().queries);
            server.Now().queries == queries[q := MutexSystem.Retry(server.cfg, queries[q].i)]
    ensures server.Now().dialed == old(server.Now().dialed)
    ensures links.CountsCloses(server.Now().closed)
  {
    hide AddressOf, MutexSystem.Init, MutexSystem.StepAt, Lists, RecordViews, Conns;
    ghost var before, closed := Counts(links.sockets), server.Now().closed;
    server.CloseConnection(q, ce, at);
    OneMoreClose(links, before, closed, ce.id);
  }

  method Close(server: Server, tasks: map<nat, Task>, ghost links: Links, q: nat, at: Time)
    returns (tasks': map<nat, Task>)
    requires server.Valid() && Attached(tasks, links, server.Now(), Entries(server.pool.cache), server.pool.spawned)
    requires q in tasks && tasks[q].Closing? && server.Now().clock <= at
    modifies server`tr, server`acts, server.pool`upstreams, server.pool`cache, server.pool`spawned
    modifies server.pool.upstreams
    modifies tasks[q].ce.conn
    ensures server.Valid() && Attached(tasks', links, server.Now(), Entries(server.pool.cache), server.pool.spawned)
    ensures tasks' == tasks[q := Retry(server.cfg, tasks[q].i)]
    ensures server.Now().clock == at && old(server.tr) <= server.tr
    ensures server.acts == old(server.acts) + [MutexSystem.Close(q)]
    ensures Among(server.pool.upstreams, old(server.pool.upstreams))
  {
    hide AddressOf, MutexSystem.Init, MutexSystem.StepAt, Lists, RecordViews, Conns;
    ghost var s, entries, spawned := server.Now(), Entries(server.pool.cache), server.pool.spawned;
    assert tasks[q].View() == s.queries[q];
    CloseSocket(server, links, q, tasks[q].ce, at);
    RetryView(server.cfg, tasks[q].i);
    assert links.Mirrors(tasks, s.queries);
    var task := Retry(server.cfg, tasks[q].i);
    AttachedStep(tasks, links, s, entries, spawned, server.Now(), Entries(server.pool.cache), server.pool.spawned,
                 q, task);
    tasks' := tasks[q := task];
  }

  method Return(server: Server, tasks: map<nat, Task>, ghost links: Links, q: nat, at: Time)
    returns (tasks': map<nat, Task>)
    requires server.Valid() && Attached(tasks, links, server.Now(), Entries(server.pool.cache), server.pool.spawned)
    requires q in tasks && tasks[q].Adding? && server.Now().clock <= at
    modifies server`tr, server`acts, server.pool`upstreams, server.pool`cache, server.pool`spawned
    modifies server.pool.upstreams
    ensures server.Valid() && Attached(tasks', links, server.Now(), Entries(server.pool.cache), server.pool.spawned)
    ensures tasks' == tasks[q := Done(MutexSystem.Answered)]
    ensures server.Now().clock == at && old(server.tr) <= server.tr
    ensures server.acts == old(server.acts) + [MutexSystem.Return(q)]
    ensures Among(server.pool.upstreams, old(server.pool.upstreams))
  {
    hide AddressOf, MutexSystem.Init, MutexSystem.StepAt, Lists, RecordViews, Conns;
    ghost var s, entries, spawned := server.Now(), Entries(server.pool.cache), server.pool.spawned;
    server.AddConnection(q, tasks[q].ce, at);
    assert Attached(tasks, links, s, entries, spawned);
    var task := Done(MutexSystem.Answered);
    AttachedReturn(tasks, links, s, entries, spawned, server.Now(), Entries(server.pool.cache), server.pool.spawned,
                   q, task);
    tasks' := tasks[q := task];
  }

  method Leave(server: Server, tasks: map<nat, Task>, ghost links: Links, q: nat)
    returns (tasks': map<nat, Task>)
    requires server.Valid() && Attached(tasks, links, server.Now(), Entries(server.pool.cache), server.pool.spawned)
    requires q in tasks && tasks[q].Done?
    modifies server`tr, server`acts
    ensures server.Valid() && Attached(tasks', links, server.Now(), Entries(server.pool.cache), server.pool.spawned)
    ensures tasks' == tasks[q := Released(tasks[q].out)]
    ensures server.Now().clock == old(server.Now().clock) && old(server.tr) <= server.tr
    ensures server.acts == old(server.acts) + [MutexSystem.Release(q)]
  {
    hide AddressOf, MutexSystem.Init, MutexSystem.StepAt, Lists, RecordViews, Conns;
    ghost var s, entries, spawned := server.Now(), Entries(server.pool.cache), server.pool.spawned;
    server.Leave(q);
    assert Attached(tasks, links, s, entries, spawned);
    var task := Released(tasks[q].out);
    AttachedStep(tasks, links, s, entries, spawned, server.Now(), Entries(server.pool.cache), server.pool.spawned,
                 q, task);
    tasks' := tasks[q := task];
  }

  /** One of the goroutines started by a purge runs. */
  method CloseSpawned(server: Server, tasks: map<nat, Task>, ghost links: Links, k: nat, at: Time)
    requires server.Valid() && Attached(tasks, links, server.Now(), Entries(server.pool.cache), server.pool.spawned)
    requires k < |server.pool.spawned| && server.Now().clock <= at
    modifies server`tr, server`acts, server.pool`upstreams, server.pool`cache, server.pool`spawned
    modifies server.pool.upstreams
    modifies server.pool.spawned[k].conn
    ensures server.Valid() && Attached(tasks, links, server.Now(), Entries(server.pool.cache), server.pool.spawned)
    ensures server.Now().clock == at && old(server.tr) <= server.tr
    ensures server.acts == old(server.acts) + [MutexSystem.AsyncClose(k)]
    ensures Among(server.pool.upstreams, old(server.pool.upstreams))
  {
    hide AddressOf, MutexSystem.Init, MutexSystem.StepAt, Lists, RecordViews, Conns;
    ghost var s, entries, spawned := server.Now(), Entries(server.pool.cache), server.pool.spawned;
    ghost var before, id := Counts(links.sockets), server.pool.spawned[k].id;
    assert links.Known(server.pool.spawned[k]);
    server.RunSpawned(k, at);
    OneMoreClose(links, before, s.closed, id);
    KnownStep(links, entries, spawned, Entries(server.pool.cache), server.pool.spawned);
    assert links.Mirrors(tasks, s.queries);
  }

  /** A task that holds a connection goes on. */
  method TurnHeld(server: Server, tasks: map<nat, Task>, ghost links: Links, q: nat, n: Net)
    returns (tasks': map<nat, Task>)
    requires server.Valid() && Attached(tasks, links, server.Now(), Entries(server.pool.cache), server.pool.spawned)
    requires q in tasks && tasks[q].HasConn() && server.Now().clock <= n.at
    modifies server`tr, server`acts, server.pool`upstreams, server.pool`cache, server.pool`spawned
    modifies server.pool.upstreams
    modifies tasks[q].ce, tasks[q].ce.conn
    ensures server.Valid() && Attached(tasks', links, server.Now(), Entries(server.pool.cache), server.pool.spawned)
    ensures server.Now().clock == n.at && old(server.tr) <= server.tr
    ensures server.acts == old(server.acts) + TaskStep(tasks[q], q, n)
    ensures q in tasks' && tasks' == tasks[q := tasks'[q]] && Among(server.pool.upstreams, old(server.pool.upstreams))
  {
    hide AddressOf, MutexSystem.Init, MutexSystem.StepAt, Lists, RecordViews, Conns;
    AmongThemselves(server.pool.upstreams, server.pool.upstreams);
    match tasks[q] {
      case Exchanging(_, _) => tasks' := Exchange(server, tasks, links, q, n.rtt, n.answered, n.at);
      case Closing(_, _) => tasks' := Close(server, tasks, links, q, n.at);
      case Adding(_, _) => tasks' := Return(server, tasks, links, q, n.at);
    }
  }

  /** A task that neither holds nor dials a connection goes on. */
  method TurnFree(server: Server, tasks: map<nat, Task>, ghost links: Links, q: nat, n: Net)
    returns (tasks': map<nat, Task>)
    requires server.Valid() && Attached(tasks, links, server.Now(), Entries(server.pool.cache), server.pool.spawned)
    requires q in tasks && !tasks[q].HasConn() && !tasks[q].Dialing? && server.Now().clock <= n.at
    modifies server`tr, server`acts, server.pool`cache
    ensures server.Valid() && Attached(tasks', links, server.Now(), Entries(server.pool.cache), server.pool.spawned)
    ensures server.Now().clock <= n.at && old(server.tr) <= server.tr
    ensures server.acts == old(server.acts) + TaskStep(tasks[q], q, n)
    ensures q in tasks' && tasks' == tasks[q := tasks'[q]]
  {
    hide AddressOf, MutexSystem.Init, MutexSystem.StepAt, Lists, RecordViews, Conns;
    match tasks[q] {
      case Admitted => tasks' := LookUp(server, tasks, links, q, n.hit, n.at);
      case NeedConn(_) => tasks' := AskPool(server, tasks, links, q, n.at);
      case Done(_) => tasks' := Leave(server, tasks, links, q);
      case Released(_) => tasks' := tasks;
    }
  }

  /** One task goes on by one step. A released one has nothing left to do. */
  method Turn(server: Server, tasks: map<nat, Task>, ghost links: Links, q: nat, n: Net)
    returns (tasks': map<nat, Task>, ghost links': Links, ce: ConnEntry?)
    requires server.Valid() && Attached(tasks, links, server.Now(), Entries(server.pool.cache), server.pool.spawned)
    requires q in tasks && server.Now().clock <= n.at
    modifies server`tr, server`acts, server.pool`upstreams, server.pool`cache, server.pool`spawned
    modifies server.pool.upstreams
    modifies links.conns, links.sockets
    ensures server.Valid() && Attached(tasks', links', server.Now(), Entries(server.pool.cache), server.pool.spawned)
    ensures server.Now().clock <= n.at && old(server.tr) <= server.tr
    ensures server.acts == old(server.acts) + TaskStep(tasks[q], q, n)
    ensures q in tasks' && tasks' == tasks[q := tasks'[q]] && Among(server.pool.upstreams, old(server.pool.upstreams))
    ensures links' == links || (ce != null && fresh(ce) && fresh(ce.conn) && links' == links.Plus(ce))
  {
    hide AddressOf, MutexSystem.Init, MutexSystem.StepAt, Lists, RecordViews, Conns;
    links', ce := links, null;
    AmongThemselves(server.pool.upstreams, server.pool.upstreams);
    if tasks[q].Dialing? {
      tasks', links', ce := Dial(server, tasks, links, q, n.dial, n.at);
    } else if tasks[q].HasConn() {
      tasks' := TurnHeld(server, tasks, links, q, n);
    } else {
      tasks' := TurnFree(server, tasks, links, q, n);
    }
  }

  /** The tasks that hold a semaphore slot. */
  function Active(tasks: map<nat, Task>): set<nat> {
    set q | q in tasks && !tasks[q].Released?
  }

  lemma SlotsLeft(server: Server, tasks: map<nat, Task>, links: Links)
    requires server.Valid() && links.Mirrors(tasks, server.Now().queries)
    ensures server.Now().sem == server.cfg.concurrency - |Active(tasks)|
  {
    hide AddressOf, MutexSystem.Init, MutexSystem.StepAt, Lists, RecordViews, Conns;
    RunInv(server.cfg, server.tr, server.acts, |server.acts|);
    var queries := server.Now().queries;
    assert MutexSystem.SlotsCounted(server.cfg, server.Now());
    assert Active(tasks) == Matching(queries, MutexSystem.IsActive()) by {
      assert forall q | q in tasks :: tasks[q].View() == queries[q];
    }
  }

  /** Events happen in the order of their times. */
  ghost predicate InTime(events: seq<Event>) {
    forall i, j | 0 <= i < j < |events| :: events[i].Time() <= events[j].Time()
  }

  /** The event happens if it can; a query that finds no slot waits, as does everybody else. */
  method Happen(server: Server, tasks: map<nat, Task>, ghost links: Links, e: Event)
    returns (tasks': map<nat, Task>, ghost links': Links, ce: ConnEntry?)
    requires server.Valid() && Attached(tasks, links, server.Now(), Entries(server.pool.cache), server.pool.spawned)
    requires server.Now().clock <= e.Time()
    modifies server`tr, server`acts, server.pool`upstreams, server.pool`cache, server.pool`spawned
    modifies server.pool.upstreams
    modifies links.conns, links.sockets
    ensures server.Valid() && Attached(tasks', links', server.Now(), Entries(server.pool.cache), server.pool.spawned)
    ensures server.Now().clock <= e.Time() && old(server.tr) <= server.tr
    ensures server.acts == old(server.acts) + StepsOf(old(server.Now()), e)
    ensures Among(server.pool.upstreams, old(server.pool.upstreams))
    ensures links' == links || (ce != null && fresh(ce) && fresh(ce.conn) && links' == links.Plus(ce))
  {
    hide AddressOf, MutexSystem.Init, MutexSystem.StepAt, Lists, RecordViews;
    tasks', links', ce := tasks, links, null;
    AmongThemselves(server.pool.upstreams, server.pool.upstreams);
    SlotsLeft(server, tasks, links);
    assert |server.pool.spawned| == |server.Now().pending|;
    match e {
      case Arrives(q, at) =>
        if q !in tasks && |Active(tasks)| < server.cfg.concurrency {
          tasks' := Start(server, tasks, links, q, at);
        }
      case GoesOn(q, n) =>
        if q in tasks {
          TaskStepIs(tasks[q], q, n);
          assert tasks[q].View() == server.Now().queries[q];
          tasks', links', ce := Turn(server, tasks, links, q, n);
        }
      case Closes(k, at) =>
        if k < |server.pool.spawned| {
          CloseSpawned(server, tasks, links, k, at);
        }
    }
  }

  /** Any schedule of any number of queries and goroutines, from event i on. Whatever it is, the
      objects follow a run of the transition system that consists of the steps of its events, so
      all that is proved of runs holds of them: see `Fates`. */
  method Schedule(server: Server, tasks: map<nat, Task>, ghost links: Links, events: seq<Event>, i: nat)
    returns (tasks': map<nat, Task>, ghost links': Links)
    requires server.Valid() && Attached(tasks, links, server.Now(), Entries(server.pool.cache), server.pool.spawned)
    requires i <= |events| && InTime(events) && (i < |events| ==> server.Now().clock <= events[i].Time())
    modifies server`tr, server`acts, server.pool`upstreams, server.pool`cache, server.pool`spawned
    modifies server.pool.upstreams
    modifies links.conns, links.sockets
    ensures server.Valid() && Attached(tasks', links', server.Now(), Entries(server.pool.cache), server.pool.spawned)
    ensures old(server.tr) <= server.tr && old(server.acts) <= server.acts
    ensures Plays(server.tr, server.acts, |old(server.acts)|, events, i)
    ensures links.conns <= links'.conns && links.sockets <= links'.sockets
    decreases |events| - i
  {
    hide AddressOf, MutexSystem.Init, MutexSystem.StepAt, Lists, RecordViews, Conns;
    tasks', links' := tasks, links;
    if i < |events| {
      ghost var tr, acts, steps := server.tr, server.acts, StepsOf(server.Now(), events[i]);
      var ce;
      tasks', links', ce := Happen(server, tasks, links, events[i]);
      assert server.acts == acts + steps;
      tasks', links' := Schedule(server, tasks', links', events, i + 1);
      PlaysOn(tr, acts, server.tr, server.acts, events, i, steps);
    }
  }

  lemma IdleOpen(server: Server, tasks: map<nat, Task>, links: Links, c: ConnEntry)
    requires server.Valid() && Attached(tasks, links, server.Now(), Entries(server.pool.cache), server.pool.spawned)
    requires c in Entries(server.pool.cache)
    ensures c.conn.closes == 0
  {
    var a, j :| a in server.pool.cache && 0 <= j < |server.pool.cache[a]| && server.pool.cache[a][j] == c;
    assert server.pool.View().cache[a] == Conns(server.pool.cache[a]);
    assert server.pool.View().cache[a][j].id == c.id;
    MutexRuns.IdleExclusively(server.cfg, server.tr, server.acts, |server.acts|, a, j);
    assert links.Known(c) && links.sockets[c.id].closes == server.Now().closed[c.id];
  }

  lemma WaitingOpen(server: Server, tasks: map<nat, Task>, links: Links, i: nat)
    requires server.Valid() && Attached(tasks, links, server.Now(), Entries(server.pool.cache), server.pool.spawned)
    requires i < |server.pool.spawned|
    ensures server.pool.spawned[i].conn.closes == 0
  {
    var c, s := server.pool.spawned[i], server.Now();
    assert links.Known(c) && s.pending[i].id == c.id;
    MutexRuns.Conservation(server.cfg, server.tr, server.acts, |server.acts|, c.id);
    OccMember(s.pending, i);
    assert s.closed[c.id] == 0 && links.sockets[c.id].closes == s.closed[c.id];
  }

  lemma HeldOpen(server: Server, tasks: map<nat, Task>, links: Links, q: nat)
    requires server.Valid() && Attached(tasks, links, server.Now(), Entries(server.pool.cache), server.pool.spawned)
    requires q in tasks && tasks[q].HasConn()
    ensures tasks[q].ce.conn.closes == 0
  {
    var c, s := tasks[q].ce, server.Now();
    assert links.Known(c) && tasks[q].View() == s.queries[q];
    MutexRuns.Conservation(server.cfg, server.tr, server.acts, |server.acts|, c.id);
    CountMember(s.queries, q, MutexSystem.Holds(c.id));
    assert s.closed[c.id] == 0 && links.sockets[c.id].closes == s.closed[c.id];
  }

  /** What became of sockets and queries after any schedule. Every socket was closed at most
      once, and that of an idle, held or waiting connection not at all. No two tasks hold the
      same connection. The account of every finished query is settled. */
  lemma Fates(server: Server, tasks: map<nat, Task>, links: Links)
    requires server.Valid() && Attached(tasks, links, server.Now(), Entries(server.pool.cache), server.pool.spawned)
    ensures forall i | 0 <= i < |links.sockets| :: links.sockets[i].closes <= 1
    ensures forall c | c in Entries(server.pool.cache) :: c.conn.closes == 0
    ensures forall i | 0 <= i < |server.pool.spawned| :: server.pool.spawned[i].conn.closes == 0
    ensures forall q | q in tasks && tasks[q].HasConn() :: tasks[q].ce.conn.closes == 0
    ensures forall q, r | q in tasks && r in tasks && q != r && tasks[q].HasConn() && tasks[r].HasConn() ::
              tasks[q].ce != tasks[r].ce
    ensures forall q | q in tasks && (tasks[q].Done? || tasks[q].Released?) ::
              MutexCascade.Settled(server.cfg, MutexCascade.Books(server.acts, q), tasks[q].out)
  {
    hide AddressOf, MutexSystem.Init, MutexSystem.StepAt, Lists, RecordViews, Conns;
    forall i | 0 <= i < |links.sockets| ensures links.sockets[i].closes <= 1 {
      MutexRuns.Conservation(server.cfg, server.tr, server.acts, |server.acts|, i);
    }
    forall c | c in Entries(server.pool.cache) ensures c.conn.closes == 0 {
      IdleOpen(server, tasks, links, c);
    }
    forall i | 0 <= i < |server.pool.spawned| ensures server.pool.spawned[i].conn.closes == 0 {
      WaitingOpen(server, tasks, links, i);
    }
    forall q | q in tasks && tasks[q].HasConn() ensures tasks[q].ce.conn.closes == 0 {
      HeldOpen(server, tasks, links, q);
    }
    forall q | q in tasks && tasks[q].HasConn()
      ensures forall r | r in tasks && r != q && tasks[r].HasConn() :: tasks[r].ce != tasks[q].ce
    {
      HeldAlone(server, tasks, links, q);
    }
    forall q | q in tasks && (tasks[q].Done? || tasks[q].Released?)
      ensures MutexCascade.Settled(server.cfg, MutexCascade.Books(server.acts, q), tasks[q].out)
    {
      assert server.acts[..|server.acts|] == server.acts && tasks[q].View() == server.Now().queries[q];
      MutexCascade.QueryAccounts(server.cfg, server.tr, server.acts, |server.acts|, q);
    }
  }
}
