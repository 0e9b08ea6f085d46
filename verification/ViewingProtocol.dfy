/** Any number of viewing transactions of any number of members, interleaved statement by
    statement, each of which may also fail at any point. Every commit has the effect its handler
    would have alone on the rows of that instant, every reachable state is sound, and some
    transaction can always go on. */
module ViewingProtocol {
  import opened Orders
  import opened Catalogue
  import opened WatchHandlers
  import opened ViewingScripts
  import opened ViewingAlone

  type UserId = nat
  type TxId = nat

  /** `Failed(None)` is a lost connection or a crash. */
  datatype Progress = Running | Committed | Failed(error: Option<Error>)

  /** A transaction and the statements it will run. Each has its own clock and date; the catalogue
      rows are the same for all. */
  datatype Tx = Tx(
    user: UserId, world: World, request: Request, now: Instant,
    ops: seq<Op>, pc: nat, local: Local, progress: Progress) {

    ghost function Locks(): set<Lock>
      requires pc <= |ops|
    {
      Held(ops, pc)
    }
  }

  /** `log` lists the committed transactions in commit order. */
  datatype State = State(
      members: map<UserId, Member>, txs: map<TxId, Tx>, locks: map<(UserId, Lock), TxId>, log: seq<TxId>)

  datatype Event =
    | Begin(t: TxId, user: UserId, clock: Clock, today: Date, request: Request, now: Instant)
    | Advance(t: TxId)
    | Abort(t: TxId)

  function RowsOf(members: map<UserId, Member>, u: UserId): Member {
    if u in members then members[u] else Member(map[], {}, [])
  }

  function Release(locks: map<(UserId, Lock), TxId>, t: TxId): map<(UserId, Lock), TxId> {
    map k | k in locks && locks[k] != t :: locks[k]
  }

  predicate Active(s: State, t: TxId) {
    t in s.txs && s.txs[t].progress.Running?
  }

  /** A transaction waits when the lock it asks for next belongs to another. */
  predicate Waits(s: State, t: TxId)
    requires Active(s, t)
  {
    var tx := s.txs[t];
    tx.pc < |tx.ops| && tx.ops[tx.pc].Take?
    && (tx.user, tx.ops[tx.pc].lock) in s.locks && s.locks[(tx.user, tx.ops[tx.pc].lock)] != t
  }

  function Advanced(s: State, t: TxId): State
    requires Active(s, t) && !Waits(s, t)
  {
    if s.txs[t].pc >= |s.txs[t].ops| then Commit(s, t) else Statement(s, t)
  }

  function Commit(s: State, t: TxId): State
    requires t in s.txs
  {
    var tx := s.txs[t];
    State(s.members[tx.user := View(RowsOf(s.members, tx.user), tx.local)],
          s.txs[t := tx.(progress := Committed)], Release(s.locks, t), s.log + [t])
  }

  function Statement(s: State, t: TxId): State
    requires t in s.txs && s.txs[t].pc < |s.txs[t].ops|
  {
    var tx := s.txs[t];
    var op := tx.ops[tx.pc];
    match Execute(tx.world, op, tx.local, RowsOf(s.members, tx.user))
    case Err(error) => Stopped(s, t, Some(error))
    case Ok(l) =>
      s.(txs := s.txs[t := tx.(pc := tx.pc + 1, local := l)],
         locks := if op.Take? then s.locks[(tx.user, op.lock) := t] else s.locks)
  }

  /** Roll back: nothing written, every lock released. */
  function Stopped(s: State, t: TxId, error: Option<Error>): State
    requires t in s.txs
  {
    s.(txs := s.txs[t := s.txs[t].(progress := Failed(error))], locks := Release(s.locks, t))
  }

  /** One event; an event that cannot happen in `s` changes nothing. */
  ghost function Apply(cache: Cache, s: State, event: Event): State {
    match event
    case Begin(t, user, clock, today, request, now) =>
      var world := World(cache, clock, today);
      if t in s.txs || !WellFormed(world, request) then s
      else s.(txs := s.txs[t := Tx(user, world, request, now, Script(world, request, now), 0, NOTHING, Running)])
    case Advance(t) =>
      if Active(s, t) && !Waits(s, t) then Advanced(s, t) else s
    case Abort(t) =>
      if Active(s, t) then Stopped(s, t, None) else s
  }

  ghost function Run(cache: Cache, members: map<UserId, Member>, events: seq<Event>): State {
    if events == [] then State(members, map[], map[], [])
    else Apply(cache, Run(cache, members, events[..|events| - 1]), events[|events| - 1])
  }

  // ---- the locking invariant -----------------------------------------------------------

  /** A running transaction has done what its statements so far would do alone on the rows as
      they are now. */
  ghost predicate Current(tx: Tx, db: Member)
    requires tx.pc <= |tx.ops|
  {
    var replay := Replay(tx.world, tx.ops, tx.pc, db);
    replay.Ok? && Sim(tx.Locks(), tx.local, replay.value, db.plans)
  }

  ghost predicate TxInv(s: State, t: TxId)
    requires t in s.txs
  {
    var tx := s.txs[t];
    && tx.pc <= |tx.ops| && Disciplined(tx.ops)
    && (tx.progress.Running? ==> Current(tx, RowsOf(s.members, tx.user)))
    && (tx.progress.Running? ==> forall lock :: lock in tx.Locks() ==> Owns(s, t, lock))
  }

  predicate Owns(s: State, t: TxId, lock: Lock)
    requires t in s.txs
  {
    (s.txs[t].user, lock) in s.locks && s.locks[(s.txs[t].user, lock)] == t
  }

  ghost predicate LockInv(s: State, u: UserId, lock: Lock)
    requires (u, lock) in s.locks
  {
    var t := s.locks[(u, lock)];
    Active(s, t) && s.txs[t].user == u && s.txs[t].pc <= |s.txs[t].ops| && lock in s.txs[t].Locks()
  }

  ghost predicate Inv(s: State) {
    && (forall t :: t in s.txs ==> TxInv(s, t))
    && (forall u, lock :: (u, lock) in s.locks ==> LockInv(s, u, lock))
  }

  /** A finished transaction's writes are those of its statements alone on the rows of this
      instant. */
  lemma CommitIsOutcome(s: State, t: TxId)
    requires Inv(s) && Active(s, t) && s.txs[t].pc == |s.txs[t].ops|
    ensures var tx := s.txs[t]; var db := RowsOf(s.members, tx.user);
      Outcome(tx.world, tx.ops, db) == Ok(View(db, tx.local))
  {
    var tx := s.txs[t];
    var db := RowsOf(s.members, tx.user);
    assert TxInv(s, t);
    var alone := Replay(tx.world, tx.ops, tx.pc, db).value;
    assert View(db, tx.local) == View(db, alone);
  }

  /** A commit leaves another transaction of the same member current: their locks are disjoint. */
  lemma StaysCurrent(s: State, t: TxId, o: TxId)
    requires Inv(s) && Active(s, t) && Active(s, o) && t != o
    requires s.txs[t].user == s.txs[o].user
    ensures s.txs[o].pc <= |s.txs[o].ops|
    ensures Current(s.txs[o], View(RowsOf(s.members, s.txs[t].user), s.txs[t].local))
  {
    var tx, other := s.txs[t], s.txs[o];
    assert TxInv(s, t) && TxInv(s, o);
    var db := RowsOf(s.members, tx.user);
    var db' := View(db, tx.local);
    forall lock | lock in tx.Locks() ensures lock !in other.Locks() {
      assert Owns(s, t, lock);
    }
    CommitWithinRely(other.Locks(), tx.Locks(), tx.local, db);
    ReplayStable(other.world, other.ops, other.pc, db, db');
    SimAcross(other.Locks(), other.local,
              Replay(other.world, other.ops, other.pc, db).value,
              Replay(other.world, other.ops, other.pc, db').value, db, db');
  }

  lemma SimAcross(held: set<Lock>, l: Local, r: Local, r': Local, db: Member, db': Member)
    requires Sim(held, l, r, db.plans) && Sim(held, r, r', db'.plans) && Rely(held, db, db')
    ensures Sim(held, l, r', db'.plans)
  {
    forall e | e in db'.plans ensures e in l.dropPlans <==> e in r.dropPlans {
      if e in db.plans {
        assert e in db.plans - l.dropPlans <==> e in db.plans - r.dropPlans;
      }
    }
    assert db'.plans - l.dropPlans == db'.plans - r.dropPlans;
  }

  lemma HeldGrows(ops: seq<Op>, k: nat)
    requires k < |ops|
    ensures Held(ops, k + 1) == if ops[k].Take? then Held(ops, k) + {ops[k].lock} else Held(ops, k)
  {
  }

  lemma SimGrows(held: set<Lock>, held': set<Lock>, l: Local, r: Local, plans: set<EpisodeId>)
    requires held <= held' && Sim(held, l, r, plans)
    ensures Sim(held', l, r, plans)
  {
  }

  /** What a running transaction's next statement does, seen from its replay. */
  lemma StatementSteps(s: State, t: TxId)
    requires Inv(s) && Active(s, t) && s.txs[t].pc < |s.txs[t].ops|
    ensures var tx := s.txs[t]; var db := RowsOf(s.members, tx.user);
      var done := Execute(tx.world, tx.ops[tx.pc], tx.local, db);
      && (done.Ok? ==> Current(tx.(pc := tx.pc + 1, local := done.value), db))
      && (done.Err? && !tx.ops[tx.pc].AddPlan? ==> Outcome(tx.world, tx.ops, db) == Err(done.error))
  {
    var tx := s.txs[t];
    assert TxInv(s, t);
    var db := RowsOf(s.members, tx.user);
    var op, alone := tx.ops[tx.pc], Replay(tx.world, tx.ops, tx.pc, db).value;
    ExecuteStable(tx.world, op, tx.Locks(), tx.local, alone, db, db);
    var done := Execute(tx.world, op, tx.local, db);
    HeldGrows(tx.ops, tx.pc);
    if done.Ok? {
      var next := Execute(tx.world, op, alone, db).value;
      assert Replay(tx.world, tx.ops, tx.pc + 1, db) == Ok(next);
      SimGrows(tx.Locks(), Held(tx.ops, tx.pc + 1), done.value, next, db.plans);
    } else if !op.AddPlan? {
      assert Replay(tx.world, tx.ops, tx.pc + 1, db) == Err(done.error);
      ErrorStays(tx.world, tx.ops, tx.pc + 1, |tx.ops|, db);
    }
  }

  lemma BeginKeeps(s: State, t: TxId, tx: Tx)
    requires Inv(s) && t !in s.txs && tx.pc == 0 && tx.local == NOTHING && Disciplined(tx.ops)
    ensures Inv(s.(txs := s.txs[t := tx]))
  {
    var s' := s.(txs := s.txs[t := tx]);
    assert tx.Locks() == {};
    assert Current(tx, RowsOf(s.members, tx.user));
    forall o | o in s'.txs ensures TxInv(s', o) {
      if o != t { assert TxInv(s, o); }
    }
    forall u, lock | (u, lock) in s'.locks ensures LockInv(s', u, lock) {
      assert LockInv(s, u, lock);
    }
  }

  ghost predicate OthersCurrent(s: State, t: TxId, members: map<UserId, Member>) {
    forall o :: o != t && Active(s, o) && s.txs[o].pc <= |s.txs[o].ops| ==>
        Current(s.txs[o], RowsOf(members, s.txs[o].user))
  }

  /** Ending `t` releases its locks and no others. */
  lemma EndKeeps(s: State, s': State, t: TxId, progress: Progress)
    requires Inv(s) && t in s.txs && s'.locks == Release(s.locks, t) && !progress.Running?
    requires s'.txs == s.txs[t := s.txs[t].(progress := progress)]
    requires OthersCurrent(s, t, s'.members)
    ensures Inv(s')
  {
    forall o | o in s'.txs ensures TxInv(s', o) {
      assert TxInv(s, o);
      if o != t && Active(s, o) {
        forall lock | lock in s'.txs[o].Locks() ensures Owns(s', o, lock) {
          assert Owns(s, o, lock);
        }
      }
    }
    forall u, lock | (u, lock) in s'.locks ensures LockInv(s', u, lock) {
      assert LockInv(s, u, lock);
    }
  }

  lemma StopKeeps(s: State, t: TxId, error: Option<Error>)
    requires Inv(s) && Active(s, t)
    ensures Inv(Stopped(s, t, error))
  {
    forall o | o != t && Active(s, o) ensures Current(s.txs[o], RowsOf(s.members, s.txs[o].user)) {
      assert TxInv(s, o);
    }
    EndKeeps(s, Stopped(s, t, error), t, Failed(error));
  }

  lemma CommitKeeps(s: State, t: TxId)
    requires Inv(s) && Active(s, t) && s.txs[t].pc == |s.txs[t].ops|
    ensures Inv(Commit(s, t))
  {
    var s' := Commit(s, t);
    forall o | o != t && Active(s, o) && s.txs[o].pc <= |s.txs[o].ops|
      ensures Current(s.txs[o], RowsOf(s'.members, s.txs[o].user))
    {
      assert TxInv(s, o);
      if s.txs[o].user == s.txs[t].user { StaysCurrent(s, t, o); }
    }
    EndKeeps(s, s', t, Committed);
  }

  lemma StatementKeeps(s: State, t: TxId)
    requires Inv(s) && Active(s, t) && s.txs[t].pc < |s.txs[t].ops| && !Waits(s, t)
    ensures Inv(Statement(s, t))
  {
    var tx := s.txs[t];
    var op := tx.ops[tx.pc];
    var done := Execute(tx.world, op, tx.local, RowsOf(s.members, tx.user));
    if done.Err? {
      StopKeeps(s, t, Some(done.error));
    } else {
      StatementSteps(s, t);
      StepKeeps(s, Statement(s, t), t, done.value);
    }
  }

  /** `t` has run one statement and perhaps taken one lock. */
  ghost predicate RanStatement(s: State, s': State, t: TxId, l: Local)
    requires Active(s, t) && s.txs[t].pc < |s.txs[t].ops|
  {
    var tx := s.txs[t];
    var op := tx.ops[tx.pc];
    s' == s.(txs := s.txs[t := tx.(pc := tx.pc + 1, local := l)],
             locks := if op.Take? then s.locks[(tx.user, op.lock) := t] else s.locks)
  }

  lemma StepKeeps(s: State, s': State, t: TxId, l: Local)
    requires Inv(s) && Active(s, t) && s.txs[t].pc < |s.txs[t].ops| && !Waits(s, t)
    requires RanStatement(s, s', t, l) && Current(s'.txs[t], RowsOf(s.members, s.txs[t].user))
    ensures Inv(s')
  {
    HeldGrows(s.txs[t].ops, s.txs[t].pc);
    forall o | o in s'.txs ensures TxInv(s', o) {
      assert TxInv(s, o);
      if Active(s, o) { StepOwns(s, s', t, l, o); }
    }
    forall u, lock | (u, lock) in s'.locks ensures LockInv(s', u, lock) {
      StepLock(s, s', t, l, u, lock);
    }
  }

  lemma StepOwns(s: State, s': State, t: TxId, l: Local, o: TxId)
    requires Inv(s) && Active(s, t) && s.txs[t].pc < |s.txs[t].ops| && !Waits(s, t) && RanStatement(s, s', t, l)
    requires Active(s, o)
    ensures forall lock :: lock in s'.txs[o].Locks() ==> Owns(s', o, lock)
  {
    assert TxInv(s, o);
    HeldGrows(s.txs[t].ops, s.txs[t].pc);
    forall lock | lock in s'.txs[o].Locks() ensures Owns(s', o, lock) {
      if lock in s.txs[o].Locks() { assert Owns(s, o, lock); }
    }
  }

  lemma StepLock(s: State, s': State, t: TxId, l: Local, u: UserId, lock: Lock)
    requires Inv(s) && Active(s, t) && s.txs[t].pc < |s.txs[t].ops| && !Waits(s, t) && RanStatement(s, s', t, l)
    requires (u, lock) in s'.locks
    ensures LockInv(s', u, lock)
  {
    HeldGrows(s.txs[t].ops, s.txs[t].pc);
    if (u, lock) in s.locks { OldLock(s, s', t, l, u, lock); }
  }

  lemma OldLock(s: State, s': State, t: TxId, l: Local, u: UserId, lock: Lock)
    requires Inv(s) && Active(s, t) && s.txs[t].pc < |s.txs[t].ops| && !Waits(s, t) && RanStatement(s, s', t, l)
    requires (u, lock) in s.locks
    ensures (u, lock) in s'.locks && s'.locks[(u, lock)] == s.locks[(u, lock)] && LockInv(s', u, lock)
  {
    assert LockInv(s, u, lock);
    if s.locks[(u, lock)] == t {
      HeldGrows(s.txs[t].ops, s.txs[t].pc);
    } else {
      var o := s.locks[(u, lock)];
      assert s'.txs[o] == s.txs[o] && s'.locks[(u, lock)] == o;
    }
  }

  lemma ApplyKeeps(cache: Cache, s: State, event: Event)
    requires Inv(s)
    ensures Inv(Apply(cache, s, event))
  {
    match event
    case Begin(t, user, clock, today, request, now) =>
      var world := World(cache, clock, today);
      if t !in s.txs && WellFormed(world, request) {
        ScriptsDisciplined(world, request, now);
        BeginKeeps(s, t, Tx(user, world, request, now, Script(world, request, now), 0, NOTHING, Running));
      }
    case Advance(t) =>
      if Active(s, t) && !Waits(s, t) {
        assert TxInv(s, t);
        if s.txs[t].pc == |s.txs[t].ops| { CommitKeeps(s, t); } else { StatementKeeps(s, t); }
      }
    case Abort(t) => if Active(s, t) { StopKeeps(s, t, None); }
  }

  lemma {:induction false} RunKeeps(cache: Cache, members: map<UserId, Member>, events: seq<Event>)
    ensures Inv(Run(cache, members, events))
    decreases |events|
  {
    if events != [] {
      RunKeeps(cache, members, events[..|events| - 1]);
      ApplyKeeps(cache, Run(cache, members, events[..|events| - 1]), events[|events| - 1]);
    }
  }

  // ---- the running handlers ------------------------------------------------------------

  ghost predicate Scripted(cache: Cache, tx: Tx) {
    && tx.world.cache == cache && WellFormed(tx.world, tx.request)
    && tx.ops == Script(tx.world, tx.request, tx.now)
  }

  ghost predicate AllScripted(cache: Cache, s: State) {
    forall t :: t in s.txs ==> Scripted(cache, s.txs[t])
  }

  /** What a transaction is asked to do never changes. */
  ghost predicate SameRequests(txs: map<TxId, Tx>, txs': map<TxId, Tx>) {
    forall t :: t in txs ==> t in txs' && txs'[t].user == txs[t].user && txs'[t].world == txs[t].world
                             && txs'[t].request == txs[t].request && txs'[t].now == txs[t].now
                             && txs'[t].ops == txs[t].ops
  }

  lemma SameButOne(txs: map<TxId, Tx>, t: TxId, pc: nat, local: Local, progress: Progress)
    requires t in txs
    ensures SameRequests(txs, txs[t := txs[t].(pc := pc, local := local, progress := progress)])
  {
  }

  lemma AdvanceKeepsRequests(s: State, t: TxId)
    requires Active(s, t) && !Waits(s, t)
    ensures SameRequests(s.txs, Advanced(s, t).txs) && Advanced(s, t).txs.Keys == s.txs.Keys
  {
    var after := Advanced(s, t).txs[t];
    assert Advanced(s, t).txs
        == s.txs[t := s.txs[t].(pc := after.pc, local := after.local, progress := after.progress)];
    SameButOne(s.txs, t, after.pc, after.local, after.progress);
  }

  lemma RequestsStay(cache: Cache, s: State, event: Event)
    ensures SameRequests(s.txs, Apply(cache, s, event).txs)
    ensures !event.Begin? ==> Apply(cache, s, event).txs.Keys == s.txs.Keys
  {
    if event.Advance? && Active(s, event.t) && !Waits(s, event.t) { AdvanceKeepsRequests(s, event.t); }
  }

  lemma ScriptedStep(cache: Cache, s: State, event: Event)
    requires AllScripted(cache, s)
    ensures AllScripted(cache, Apply(cache, s, event))
  {
    RequestsStay(cache, s, event);
    if event.Begin? { ScriptedBegin(cache, s, event); } else { ScriptedStays(cache, s, Apply(cache, s, event)); }
  }

  lemma ScriptedStays(cache: Cache, s: State, s': State)
    requires AllScripted(cache, s) && SameRequests(s.txs, s'.txs) && s'.txs.Keys == s.txs.Keys
    ensures AllScripted(cache, s')
  {
    forall t | t in s'.txs ensures Scripted(cache, s'.txs[t]) {
      assert t in s.txs.Keys && Scripted(cache, s.txs[t]);
    }
  }

  lemma ScriptedBegin(cache: Cache, s: State, event: Event)
    requires AllScripted(cache, s) && event.Begin?
    ensures AllScripted(cache, Apply(cache, s, event))
  {
    var s' := Apply(cache, s, event);
    forall t | t in s'.txs ensures Scripted(cache, s'.txs[t]) {
      if t in s.txs { assert Scripted(cache, s.txs[t]); }
    }
  }

  lemma {:induction false} RunScripted(cache: Cache, members: map<UserId, Member>, events: seq<Event>)
    ensures AllScripted(cache, Run(cache, members, events))
    decreases |events|
  {
    if events != [] {
      RunScripted(cache, members, events[..|events| - 1]);
      ScriptedStep(cache, Run(cache, members, events[..|events| - 1]), events[|events| - 1]);
    }
  }

  ghost predicate AllSound(cache: Cache, members: map<UserId, Member>) {
    forall u :: u in members ==> SoundRows(cache, members[u])
  }

  ghost predicate SoundRows(cache: Cache, rows: Member) {
    Exclusive(rows) && WithinQuotas(rows) && Filed(cache, rows.history)
  }

  /** A commit writes what its handler would write alone at that instant. */
  lemma CommitIsHandler(cache: Cache, s: State, t: TxId)
    requires Inv(s) && Active(s, t) && Scripted(cache, s.txs[t]) && s.txs[t].pc == |s.txs[t].ops|
    ensures var tx := s.txs[t]; var db := RowsOf(s.members, tx.user);
      Handle(tx.world, tx.request, tx.now, db) == Ok(View(db, tx.local))
  {
    var tx := s.txs[t];
    CommitIsOutcome(s, t);
    ScriptIsHandler(tx.world, tx.request, tx.now, RowsOf(s.members, tx.user));
  }

  /** Only a commit changes rows, and then one member's. */
  ghost predicate Commits(s: State, event: Event) {
    event.Advance? && Active(s, event.t) && s.txs[event.t].pc >= |s.txs[event.t].ops|
  }

  ghost predicate Stepped(s: State, s': State, event: Event) {
    && (Commits(s, event) ==> s' == Commit(s, event.t))
    && (!Commits(s, event) ==> s'.members == s.members && s'.log == s.log)
  }

  lemma OnlyCommitsWrite(cache: Cache, s: State, event: Event)
    ensures Stepped(s, Apply(cache, s, event), event)
  {
  }

  lemma SoundStep(cache: Cache, s: State, s': State, event: Event)
    requires Inv(s) && AllScripted(cache, s) && AllSound(cache, s.members) && Stepped(s, s', event)
    ensures AllSound(cache, s'.members)
  {
    if Commits(s, event) { CommitSound(cache, s, event.t); }
  }

  lemma CommitSound(cache: Cache, s: State, t: TxId)
    requires Inv(s) && Active(s, t) && Scripted(cache, s.txs[t]) && s.txs[t].pc >= |s.txs[t].ops|
    requires AllSound(cache, s.members)
    ensures AllSound(cache, Commit(s, t).members)
  {
    var tx := s.txs[t];
    var rows := RowsOf(s.members, tx.user);
    NewMemberSound(cache);
    CommitSoundRows(cache, s, t);
    UpdateSound(cache, s.members, tx.user, View(rows, tx.local));
  }

  lemma NewMemberSound(cache: Cache)
    ensures SoundRows(cache, Member(map[], {}, []))
  {
  }

  lemma UpdateSound(cache: Cache, members: map<UserId, Member>, u: UserId, rows: Member)
    requires AllSound(cache, members) && SoundRows(cache, rows)
    ensures AllSound(cache, members[u := rows])
  {
  }

  lemma CommitSoundRows(cache: Cache, s: State, t: TxId)
    requires Inv(s) && Active(s, t) && Scripted(cache, s.txs[t]) && s.txs[t].pc >= |s.txs[t].ops|
    requires SoundRows(cache, RowsOf(s.members, s.txs[t].user))
    ensures SoundRows(cache, View(RowsOf(s.members, s.txs[t].user), s.txs[t].local))
  {
    var tx := s.txs[t];
    var rows := RowsOf(s.members, tx.user);
    assert TxInv(s, t);
    CommitIsHandler(cache, s, t);
    SoundCommit(tx.world, tx.request, tx.now, rows, View(rows, tx.local));
  }

  lemma SoundCommit(world: World, request: Request, now: Instant, rows: Member, after: Member)
    requires WellFormed(world, request) && SoundRows(world.cache, rows)
    requires Handle(world, request, now, rows) == Ok(after)
    ensures SoundRows(world.cache, after)
  {
    HandlerSound(world, request, now, rows);
  }

  lemma {:induction false} RunSound(cache: Cache, members: map<UserId, Member>, events: seq<Event>)
    requires AllSound(cache, members)
    ensures AllSound(cache, Run(cache, members, events).members)
    decreases |events|
  {
    if events != [] {
      var before := events[..|events| - 1];
      RunSound(cache, members, before);
      RunKeeps(cache, members, before);
      RunScripted(cache, members, before);
      OnlyCommitsWrite(cache, Run(cache, members, before), events[|events| - 1]);
      SoundStep(cache, Run(cache, members, before), Run(cache, members, events), events[|events| - 1]);
    }
  }

  // ---- the theorems --------------------------------------------------------------------

  /** In every schedule, no committed state has an episode both planned and watched, and every
      count stays within its cap. */
  lemma EveryScheduleIsSound(cache: Cache, members: map<UserId, Member>, events: seq<Event>, u: UserId)
    requires AllSound(cache, members)
    ensures var rows := RowsOf(Run(cache, members, events).members, u);
      && (forall e :: e in rows.plans ==> !rows.HasWatched(e))
      && |rows.tracked| <= MAX_TRACKING_ITEMS_PER_USER
      && |rows.plans| <= MAX_EPISODE_PLANS_PER_USER
      && |rows.history| <= MAX_HISTORY_EVENTS_PER_USER
  {
    RunSound(cache, members, events);
    var rows := RowsOf(Run(cache, members, events).members, u);
    forall e | e in rows.plans ensures !rows.HasWatched(e) {
      assert !HasEpisode(rows.history, e);
    }
  }

  /** The handlers of the logged transactions, one after another, each alone. */
  ghost function Serially(
      members: map<UserId, Member>, txs: map<TxId, Tx>, log: seq<TxId>): Option<map<UserId, Member>> {
    if log == [] then Some(members)
    else
      match Serially(members, txs, log[..|log| - 1])
      case None => None
      case Some(before) => Alone(before, txs, log[|log| - 1])
  }

  ghost function Alone(before: map<UserId, Member>, txs: map<TxId, Tx>, t: TxId): Option<map<UserId, Member>> {
    if t !in txs || !WellFormed(txs[t].world, txs[t].request) then None
    else
      match Handle(txs[t].world, txs[t].request, txs[t].now, RowsOf(before, txs[t].user))
      case Err(_) => None
      case Ok(after) => Some(before[txs[t].user := after])
  }

  lemma {:induction false} SeriallySame(
      members: map<UserId, Member>, txs: map<TxId, Tx>, txs': map<TxId, Tx>, log: seq<TxId>)
    requires SameRequests(txs, txs') && Serially(members, txs, log).Some?
    ensures Serially(members, txs', log) == Serially(members, txs, log)
    decreases |log|
  {
    if log != [] { SeriallySame(members, txs, txs', log[..|log| - 1]); }
  }

  lemma CommitAlone(cache: Cache, s: State, t: TxId)
    requires Inv(s) && Active(s, t) && Scripted(cache, s.txs[t]) && s.txs[t].pc >= |s.txs[t].ops|
    ensures var s' := Commit(s, t);
      s'.log == s.log + [t] && SameRequests(s.txs, s'.txs) && Alone(s.members, s'.txs, t) == Some(s'.members)
  {
    var tx := s.txs[t];
    assert TxInv(s, t);
    CommitIsHandler(cache, s, t);
    AloneIs(s.members, Commit(s, t).txs, t, View(RowsOf(s.members, tx.user), tx.local));
  }

  lemma AloneIs(before: map<UserId, Member>, txs: map<TxId, Tx>, t: TxId, after: Member)
    requires t in txs && WellFormed(txs[t].world, txs[t].request)
    requires Handle(txs[t].world, txs[t].request, txs[t].now, RowsOf(before, txs[t].user)) == Ok(after)
    ensures Alone(before, txs, t) == Some(before[txs[t].user := after])
  {
  }

  lemma SerialStep(cache: Cache, members: map<UserId, Member>, s: State, s': State, event: Event)
    requires Inv(s) && AllScripted(cache, s) && Serially(members, s.txs, s.log) == Some(s.members)
    requires Stepped(s, s', event) && SameRequests(s.txs, s'.txs)
    ensures Serially(members, s'.txs, s'.log) == Some(s'.members)
  {
    SeriallySame(members, s.txs, s'.txs, s.log);
    if Commits(s, event) {
      CommitAlone(cache, s, event.t);
      assert s'.log[..|s'.log| - 1] == s.log;
    }
  }

  /** Every schedule leaves the rows that running its committed handlers one at a time, in commit
      order, would leave; and each of them would have been accepted. */
  lemma {:induction false} EveryScheduleIsSerial(cache: Cache, members: map<UserId, Member>, events: seq<Event>)
    ensures var s := Run(cache, members, events); Serially(members, s.txs, s.log) == Some(s.members)
    decreases |events|
  {
    if events != [] {
      var before := events[..|events| - 1];
      EveryScheduleIsSerial(cache, members, before);
      RunKeeps(cache, members, before);
      RunScripted(cache, members, before);
      OnlyCommitsWrite(cache, Run(cache, members, before), events[|events| - 1]);
      RequestsStay(cache, Run(cache, members, before), events[|events| - 1]);
      SerialStep(cache, members, Run(cache, members, before), Run(cache, members, events), events[|events| - 1]);
    }
  }

  // ---- deadlock freedom ----------------------------------------------------------------

  /** Following a waiting transaction to the owner of its lock, and so on, climbs in rank and
      ends at one that can go on. */
  lemma {:induction false} FollowOwners(s: State, t: TxId) returns (free: TxId)
    requires Inv(s) && Active(s, t)
    ensures Active(s, free) && !Waits(s, free)
    decreases if Waits(s, t) then 4 - Rank(s.txs[t].ops[s.txs[t].pc].lock) else 0
  {
    free := t;
    if Waits(s, t) {
      var tx := s.txs[t];
      var lock := tx.ops[tx.pc].lock;
      var o := s.locks[(tx.user, lock)];
      assert LockInv(s, tx.user, lock) && TxInv(s, o);
      free := FollowOwners(s, o);
    }
  }

  /** Whatever has happened, if a transaction is unfinished then some transaction can step. */
  lemma NoDeadlock(cache: Cache, members: map<UserId, Member>, events: seq<Event>, t: TxId)
    requires Active(Run(cache, members, events), t)
    ensures var s := Run(cache, members, events);
      exists free :: Active(s, free) && !Waits(s, free) && Apply(cache, s, Advance(free)) != s
  {
    var s := Run(cache, members, events);
    RunKeeps(cache, members, events);
    var free := FollowOwners(s, t);
    assert Advanced(s, free).txs[free] != s.txs[free];
  }

  // ---- one transaction at a time -------------------------------------------------------

  /** The next `n` steps of a transaction. */
  ghost function Advances(cache: Cache, s: State, t: TxId, n: nat): State {
    if n == 0 then s else Apply(cache, Advances(cache, s, t, n - 1), Advance(t))
  }

  /** No one else holds a lock of this member. */
  ghost predicate HasMemberAlone(s: State, t: TxId, user: UserId) {
    forall lock :: (user, lock) in s.locks ==> s.locks[(user, lock)] == t
  }

  ghost predicate Fresh(s: State, t: TxId) {
    t in s.txs && s.txs[t].progress.Running? && s.txs[t].pc == 0 && s.txs[t].local == NOTHING
  }

  /** After `k` steps alone a transaction has done what its first `k` statements do, or has stopped at
      the first that refuses. */
  lemma {:induction false} StepsReplay(cache: Cache, s: State, t: TxId, k: nat)
    requires Fresh(s, t) && HasMemberAlone(s, t, s.txs[t].user) && k <= |s.txs[t].ops|
    ensures var tx, s' := s.txs[t], Advances(cache, s, t, k);
      var replay := Replay(tx.world, tx.ops, k, RowsOf(s.members, tx.user));
      && t in s'.txs && s'.members == s.members && s'.log == s.log && HasMemberAlone(s', t, tx.user)
      && s'.txs[t] == (if replay.Ok? then tx.(pc := k, local := replay.value)
                       else s'.txs[t].(progress := Failed(Some(replay.error))))
    decreases k
  {
    if k > 0 {
      StepsReplay(cache, s, t, k - 1);
      StepReplays(cache, s, t, k);
    }
  }

  lemma StepReplays(cache: Cache, s: State, t: TxId, k: nat)
    requires Fresh(s, t) && 0 < k <= |s.txs[t].ops|
    requires var tx, before := s.txs[t], Advances(cache, s, t, k - 1);
      var replay := Replay(tx.world, tx.ops, k - 1, RowsOf(s.members, tx.user));
      && t in before.txs && before.members == s.members && before.log == s.log && HasMemberAlone(before, t, tx.user)
      && before.txs[t] == (if replay.Ok? then tx.(pc := k - 1, local := replay.value)
                           else before.txs[t].(progress := Failed(Some(replay.error))))
    ensures var tx, s' := s.txs[t], Advances(cache, s, t, k);
      var replay := Replay(tx.world, tx.ops, k, RowsOf(s.members, tx.user));
      && t in s'.txs && s'.members == s.members && s'.log == s.log && HasMemberAlone(s', t, tx.user)
      && s'.txs[t] == (if replay.Ok? then tx.(pc := k, local := replay.value)
                       else s'.txs[t].(progress := Failed(Some(replay.error))))
  {
    var tx, before := s.txs[t], Advances(cache, s, t, k - 1);
    if Replay(tx.world, tx.ops, k - 1, RowsOf(s.members, tx.user)).Ok? {
      assert Apply(cache, before, Advance(t)) == Statement(before, t);
    }
  }

  /** A request whose member's locks no one else holds, from its first statement to its end: it commits
      what its handler would, or fails with its handler's error and leaves the rows. */
  lemma RequestRunsAlone(cache: Cache, s: State, t: TxId)
    requires Fresh(s, t) && HasMemberAlone(s, t, s.txs[t].user)
    requires var tx := s.txs[t]; WellFormed(tx.world, tx.request) && tx.ops == Script(tx.world, tx.request, tx.now)
    ensures var tx := s.txs[t]; var s' := Advances(cache, s, t, |tx.ops| + 1);
      var rows := if tx.user in s.members then s.members[tx.user] else Member(map[], {}, []);
      && t in s'.txs
      && match Handle(tx.world, tx.request, tx.now, rows)
         case Ok(after) =>
           s'.txs[t].progress == Committed && s'.members == s.members[tx.user := after] && s'.log == s.log + [t]
         case Err(error) =>
           s'.txs[t].progress == Failed(Some(error)) && s'.members == s.members && s'.log == s.log
  {
    var tx := s.txs[t];
    StepsReplay(cache, s, t, |tx.ops|);
    ScriptIsHandler(tx.world, tx.request, tx.now, RowsOf(s.members, tx.user));
  }

  /** A transaction that is lost at any point rolls back: it has failed, holds nothing, has written
      nothing. */
  lemma LostTransactionsRollBack(cache: Cache, members: map<UserId, Member>, events: seq<Event>, t: TxId)
    requires Active(Run(cache, members, events), t)
    ensures var s, s' := Run(cache, members, events), Run(cache, members, events + [Abort(t)]);
      && s'.txs == s.txs[t := s.txs[t].(progress := Failed(None))]
      && s'.members == s.members && s'.log == s.log
      && forall k :: k in s'.locks <==> k in s.locks && s.locks[k] != t
  {
    assert (events + [Abort(t)])[..|events|] == events;
  }
}
