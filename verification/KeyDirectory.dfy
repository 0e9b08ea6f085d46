/** The key directory of one account: publications and re-seals as interleaved steps. Whether a
    publication replaces keys is read before its transaction and carried into the upsert; the
    rows are locked from their write to the commit; any step may fail. */
module KeyDirectory {
  import opened Orders
  import opened Octets

  type ProcId = nat

  const MAX_GENERATION := 0x7fff_ffff // INTEGER

  datatype PublicKeys = PublicKeys(exchange: Bytes, signing: Bytes, fingerprint: string)

  datatype Identity = Identity(keys: PublicKeys, generation: nat)

  /** Older accounts still carry a copy sealed under the password. */
  datatype Backup = Backup(recovery: Bytes, password: Option<Bytes>)

  datatype Rows = Rows(identity: Option<Identity>, backup: Option<Backup>)

  datatype Error = BadRequest | Conflict | NotFound | Internal

  datatype Request = Publish(keys: PublicKeys, sealed: Bytes) | Rewrap(sealed: Bytes)

  datatype Phase = Started | Looked | Ready | IdentityWritten | BackupWritten | Done | Failed(error: Error)

  /** `written` holds a process's own uncommitted rows. */
  datatype Proc = Proc(request: Request, phase: Phase, replacing: bool, confirmed: bool, written: Rows)

  datatype Directory = Directory(
    rows: Rows, procs: map<ProcId, Proc>, identityLock: Option<ProcId>, backupLock: Option<ProcId>, log: seq<ProcId>)

  /** `works` is false when the step fails: a refused confirmation, a lost connection, a crash. */
  datatype Event = Start(p: ProcId, request: Request) | Step(p: ProcId, works: bool)

  const UNWRITTEN := Rows(None, None)

  // ---- statements ----------------------------------------------------------------------

  /** INSERT ... ON CONFLICT DO UPDATE ... WHERE replacing RETURNING generation. */
  function UpsertIdentity(current: Option<Identity>, keys: PublicKeys, replacing: bool): Result<Identity, Error> {
    match current
    case None => Ok(Identity(keys, 1))
    case Some(identity) =>
      if !replacing then Err(Conflict)
      else if identity.generation >= MAX_GENERATION then Err(Internal)
      else Ok(Identity(keys, identity.generation + 1))
  }

  function UpsertBackup(sealed: Bytes): Backup {
    Backup(sealed, None)
  }

  /** UPDATE user_key_backups; no row is an error. */
  function UpdateBackup(current: Option<Backup>, sealed: Bytes): Result<Backup, Error> {
    match current
    case None => Err(NotFound)
    case Some(backup) => Ok(backup.(recovery := sealed, password := None))
  }

  // ---- the protocol --------------------------------------------------------------------

  predicate Active(d: Directory, p: ProcId) {
    p in d.procs && !d.procs[p].phase.Done? && !d.procs[p].phase.Failed?
  }

  predicate Waits(d: Directory, p: ProcId)
    requires p in d.procs
  {
    var proc := d.procs[p];
    match proc.phase
    case Ready =>
      if proc.request.Publish? then d.identityLock.Some? && d.identityLock != Some(p)
      else d.rows.backup.Some? && d.backupLock.Some? && d.backupLock != Some(p)
    case IdentityWritten => d.backupLock.Some? && d.backupLock != Some(p)
    case _ => false
  }

  function Unlock(lock: Option<ProcId>, p: ProcId): Option<ProcId> {
    if lock == Some(p) then None else lock
  }

  function Fail(d: Directory, p: ProcId, error: Error): Directory
    requires p in d.procs
  {
    d.(procs := d.procs[p := d.procs[p].(phase := Failed(error))],
       identityLock := Unlock(d.identityLock, p), backupLock := Unlock(d.backupLock, p))
  }

  function Committed(rows: Rows, written: Rows): Rows {
    Rows(if written.identity.Some? then written.identity else rows.identity,
         if written.backup.Some? then written.backup else rows.backup)
  }

  function Commit(d: Directory, p: ProcId): Directory
    requires p in d.procs
  {
    Directory(Committed(d.rows, d.procs[p].written), d.procs[p := d.procs[p].(phase := Done)],
              Unlock(d.identityLock, p), Unlock(d.backupLock, p), d.log + [p])
  }

  function Advance(d: Directory, p: ProcId): Directory
    requires Active(d, p) && !Waits(d, p)
  {
    var proc := d.procs[p];
    match proc.phase
    case Started =>
      if proc.request.Rewrap? then Move(d, p, proc.(phase := Ready, confirmed := true))
      else Move(d, p, proc.(phase := Looked, replacing := d.rows.identity.Some?))
    case Looked => Move(d, p, proc.(phase := Ready, confirmed := proc.replacing))
    case Ready => if proc.request.Publish? then WriteIdentity(d, p) else WriteBackup(d, p)
    case IdentityWritten => WriteBackup(d, p)
    case _ => Commit(d, p)
  }

  function Move(d: Directory, p: ProcId, proc: Proc): Directory {
    d.(procs := d.procs[p := proc])
  }

  function WriteIdentity(d: Directory, p: ProcId): Directory
    requires p in d.procs && d.procs[p].request.Publish?
  {
    var proc := d.procs[p];
    match UpsertIdentity(d.rows.identity, proc.request.keys, proc.replacing)
    case Err(error) => Fail(d, p, error)
    case Ok(identity) =>
      d.(procs := d.procs[p := proc.(phase := IdentityWritten, written := Rows(Some(identity), None))],
         identityLock := Some(p))
  }

  function WriteBackup(d: Directory, p: ProcId): Directory
    requires p in d.procs
  {
    var proc := d.procs[p];
    var backup := if proc.request.Publish? then Ok(UpsertBackup(proc.request.sealed))
                  else UpdateBackup(d.rows.backup, proc.request.sealed);
    match backup
    case Err(error) => Fail(d, p, error)
    case Ok(sealed) =>
      d.(procs := d.procs[p := proc.(phase := BackupWritten, written := proc.written.(backup := Some(sealed)))],
         backupLock := Some(p))
  }

  /** The next step is the confirmation: of a replacement once keys were seen, of a re-seal always. */
  predicate Confirms(proc: Proc) {
    proc.phase.Looked? || (proc.phase.Started? && proc.request.Rewrap?)
  }

  function Apply(d: Directory, event: Event): Directory {
    match event
    case Start(p, request) =>
      if p in d.procs then d else Move(d, p, Proc(request, Started, false, false, UNWRITTEN))
    case Step(p, works) =>
      if !Active(d, p) || (works && Waits(d, p)) then d
      else if works then Advance(d, p)
      else Fail(d, p, if Confirms(d.procs[p]) then BadRequest else Internal)
  }

  function Run(start: Rows, events: seq<Event>): Directory {
    if events == [] then Directory(start, map[], None, None, [])
    else Apply(Run(start, events[..|events| - 1]), events[|events| - 1])
  }

  // ---- the invariant -------------------------------------------------------------------

  /** What a process holds and has written, phase by phase. */
  predicate ProcInv(d: Directory, p: ProcId)
    requires p in d.procs
  {
    var proc := d.procs[p];
    && (proc.request.Publish? && proc.replacing && !proc.phase.Looked? && !proc.phase.Failed? ==> proc.confirmed)
    && (proc.request.Rewrap? && !proc.phase.Started? && !proc.phase.Failed? ==> proc.confirmed)
    && (proc.phase.Looked? || proc.phase.IdentityWritten? ==> proc.request.Publish?)
    && (d.identityLock == Some(p) <==>
        proc.request.Publish? && (proc.phase.IdentityWritten? || proc.phase.BackupWritten?))
    && (d.backupLock == Some(p) <==> proc.phase.BackupWritten?)
    && (proc.phase.Started? || proc.phase.Looked? || proc.phase.Ready? ==> proc.written == UNWRITTEN)
    && (proc.phase.IdentityWritten? ==> proc.written.backup.None?)
    && (proc.phase.BackupWritten? ==> proc.written.backup.Some? && proc.written.backup.value.password.None?)
    && (proc.request.Rewrap? ==> proc.written.identity.None?)
    && (proc.request.Rewrap? && proc.phase.BackupWritten? ==> d.rows.backup.Some?)
    && (d.identityLock == Some(p) ==>
          Some(proc.written.identity) == match UpsertIdentity(d.rows.identity, proc.request.keys, proc.replacing)
                                         case Ok(identity) => Some(Some(identity))
                                         case Err(_) => None)
  }

  predicate Inv(d: Directory) {
    && (forall p :: p in d.procs ==> ProcInv(d, p))
    && (d.identityLock.Some? ==> d.identityLock.value in d.procs)
    && (d.backupLock.Some? ==> d.backupLock.value in d.procs)
    && (d.rows.identity.Some? ==> d.rows.backup.Some?)
  }

  lemma FailKeeps(d: Directory, p: ProcId, error: Error)
    requires Inv(d) && Active(d, p)
    ensures Inv(Fail(d, p, error))
  {
    var d' := Fail(d, p, error);
    forall q | q in d'.procs ensures ProcInv(d', q) {
      if q in d.procs { assert ProcInv(d, q); }
      if p in d.procs { assert ProcInv(d, p); }
    }
  }

  lemma WriteIdentityKeeps(d: Directory, p: ProcId)
    requires Inv(d) && Active(d, p) && !Waits(d, p) && d.procs[p].phase.Ready? && d.procs[p].request.Publish?
    ensures Inv(WriteIdentity(d, p))
  {
    var d' := WriteIdentity(d, p);
    forall q | q in d'.procs ensures ProcInv(d', q) {
      if q in d.procs { assert ProcInv(d, q); }
      if p in d.procs { assert ProcInv(d, p); }
    }
  }

  lemma WriteBackupKeeps(d: Directory, p: ProcId)
    requires Inv(d) && Active(d, p) && !Waits(d, p)
    requires d.procs[p].phase.IdentityWritten? || (d.procs[p].phase.Ready? && d.procs[p].request.Rewrap?)
    ensures Inv(WriteBackup(d, p))
  {
    var d' := WriteBackup(d, p);
    forall q | q in d'.procs ensures ProcInv(d', q) {
      if q in d.procs { assert ProcInv(d, q); }
      if p in d.procs { assert ProcInv(d, p); }
    }
  }

  lemma CommitKeeps(d: Directory, p: ProcId)
    requires Inv(d) && Active(d, p) && d.procs[p].phase.BackupWritten?
    ensures Inv(Commit(d, p))
  {
    var d' := Commit(d, p);
    forall q | q in d'.procs ensures ProcInv(d', q) {
      if q in d.procs { assert ProcInv(d, q); }
      if p in d.procs { assert ProcInv(d, p); }
    }
  }

  lemma StepKeeps(d: Directory, event: Event)
    requires Inv(d)
    ensures Inv(Apply(d, event))
  {
    if event.Start? {
      StartKeeps(d, event.p, event.request);
    } else if Active(d, event.p) && !event.works {
      FailKeeps(d, event.p, if Confirms(d.procs[event.p]) then BadRequest else Internal);
    } else if Active(d, event.p) && !Waits(d, event.p) {
      AdvanceKeeps(d, event.p);
    }
  }

  lemma StartKeeps(d: Directory, p: ProcId, request: Request)
    requires Inv(d)
    ensures Inv(Apply(d, Start(p, request)))
  {
    var d' := Apply(d, Start(p, request));
    forall q | q in d'.procs ensures ProcInv(d', q) {
      if q in d.procs { assert ProcInv(d, q); }
    }
  }

  lemma AdvanceKeeps(d: Directory, p: ProcId)
    requires Inv(d) && Active(d, p) && !Waits(d, p)
    ensures Inv(Advance(d, p))
  {
    assert ProcInv(d, p);
    match d.procs[p].phase
    case Ready => if d.procs[p].request.Publish? { WriteIdentityKeeps(d, p); } else { WriteBackupKeeps(d, p); }
    case IdentityWritten => WriteBackupKeeps(d, p);
    case BackupWritten => CommitKeeps(d, p);
    case _ => MoveKeeps(d, p);
  }

  lemma MoveKeeps(d: Directory, p: ProcId)
    requires Inv(d) && Active(d, p) && (d.procs[p].phase.Started? || d.procs[p].phase.Looked?)
    ensures Inv(Advance(d, p))
  {
    var d' := Advance(d, p);
    assert ProcInv(d, p);
    assert d' == Move(d, p, d'.procs[p]);
    forall q | q in d'.procs ensures ProcInv(d', q) {
      if q != p { assert ProcInv(d, q); }
    }
  }

  lemma {:induction false} RunKeeps(start: Rows, events: seq<Event>)
    requires start.identity.Some? ==> start.backup.Some?
    ensures Inv(Run(start, events))
    decreases |events|
  {
    if events != [] {
      RunKeeps(start, events[..|events| - 1]);
      StepKeeps(Run(start, events[..|events| - 1]), events[|events| - 1]);
    }
  }

  // ---- what the log means --------------------------------------------------------------

  /** The generation a peer sees; no keys count as zero. */
  function Generation(identity: Option<Identity>): nat {
    if identity.Some? then identity.value.generation else 0
  }

  function Publications(procs: map<ProcId, Proc>, log: seq<ProcId>): seq<ProcId> {
    if log == [] then []
    else
      var p := log[|log| - 1];
      Publications(procs, log[..|log| - 1]) + if p in procs && procs[p].request.Publish? then [p] else []
  }

  /** Committed processes never change again, and every re-seal among them was confirmed. */
  predicate Settled(procs: map<ProcId, Proc>, log: seq<ProcId>) {
    forall p :: p in log ==> p in procs && procs[p].phase.Done? && (procs[p].request.Rewrap? ==> procs[p].confirmed)
  }

  lemma {:induction false} PublicationsStay(procs: map<ProcId, Proc>, procs': map<ProcId, Proc>, log: seq<ProcId>)
    requires Settled(procs, log)
    requires forall p :: p in log ==> p in procs' && procs'[p].request == procs[p].request
    ensures Publications(procs', log) == Publications(procs, log)
    decreases |log|
  {
    if log != [] { PublicationsStay(procs, procs', log[..|log| - 1]); }
  }

  /** The identity row in terms of the committed publications. */
  predicate Chain(
      start: Option<Identity>, identity: Option<Identity>, procs: map<ProcId, Proc>, publications: seq<ProcId>) {
    var n := |publications|;
    && Generation(identity) == Generation(start) + n
    && (n == 0 ==> identity == start)
    && (n > 0 ==>
          identity.Some? && publications[n - 1] in procs && procs[publications[n - 1]].request.Publish?
          && identity.value.keys == procs[publications[n - 1]].request.keys)
    && (forall i :: 0 <= i < n && (i > 0 || start.Some?) ==>
          publications[i] in procs && procs[publications[i]].replacing && procs[publications[i]].confirmed)
  }

  /** The whole history of the directory, in terms of its log. */
  predicate History(start: Rows, d: Directory) {
    && Settled(d.procs, d.log)
    && Chain(start.identity, d.rows.identity, d.procs, Publications(d.procs, d.log))
    && (d.log != [] ==> d.rows.backup.Some? && d.rows.backup.value.password.None?)
  }

  predicate Commits(d: Directory, event: Event) {
    event.Step? && event.works && event.p in d.procs && d.procs[event.p].phase.BackupWritten?
  }

  /** Until it commits, a process changes no row: a refused or failed one never does. */
  lemma OnlyCommitsWrite(d: Directory, event: Event)
    requires !Commits(d, event)
    ensures Apply(d, event).rows == d.rows && Apply(d, event).log == d.log
  {
  }

  /** A step of `p` leaves the others as they are, and `p` asking for the same. */
  lemma AdvanceStays(d: Directory, p: ProcId)
    requires Active(d, p) && !Waits(d, p)
    ensures p in Advance(d, p).procs && Advance(d, p).procs[p].request == d.procs[p].request
    ensures Advance(d, p).procs == d.procs[p := Advance(d, p).procs[p]]
  {
  }

  lemma DoneStays(d: Directory, event: Event)
    ensures var d' := Apply(d, event);
      && (forall p :: p in d.procs ==> p in d'.procs && d'.procs[p].request == d.procs[p].request)
      && (forall p :: p in d.procs && d.procs[p].phase.Done? ==> d'.procs[p] == d.procs[p])
  {
    if event.Step? && Active(d, event.p) && !Waits(d, event.p) { AdvanceStays(d, event.p); }
  }

  lemma HistoryStep(start: Rows, d: Directory, event: Event)
    requires Inv(d) && History(start, d)
    ensures History(start, Apply(d, event))
  {
    if Commits(d, event) {
      HistoryCommit(start, d, event.p);
    } else {
      OnlyCommitsWrite(d, event);
      DoneStays(d, event);
      QuietStep(start, d, Apply(d, event));
    }
  }

  lemma QuietStep(start: Rows, d: Directory, d': Directory)
    requires History(start, d) && d'.rows == d.rows && d'.log == d.log
    requires forall p :: p in d.procs && d.procs[p].phase.Done? ==> p in d'.procs && d'.procs[p] == d.procs[p]
    ensures History(start, d')
  {
    PublicationsStay(d.procs, d'.procs, d.log);
    PublicationsSettled(d.procs, d.log);
  }

  lemma HistoryCommit(start: Rows, d: Directory, p: ProcId)
    requires Inv(d) && History(start, d) && Active(d, p) && d.procs[p].phase.BackupWritten?
    ensures History(start, Commit(d, p))
  {
    CommitSettles(d, p);
    CommitChains(start, d, p);
    assert ProcInv(d, p);
  }

  lemma CommitSettles(d: Directory, p: ProcId)
    requires Inv(d) && Settled(d.procs, d.log) && Active(d, p) && d.procs[p].phase.BackupWritten?
    ensures Settled(Commit(d, p).procs, Commit(d, p).log)
  {
    assert ProcInv(d, p);
  }

  lemma CommitChains(start: Rows, d: Directory, p: ProcId)
    requires Inv(d) && History(start, d) && Active(d, p) && d.procs[p].phase.BackupWritten?
    ensures var d' := Commit(d, p); Chain(start.identity, d'.rows.identity, d'.procs, Publications(d'.procs, d'.log))
  {
    var d' := Commit(d, p);
    var publications := Publications(d.procs, d.log);
    PublicationsStay(d.procs, d'.procs, d.log);
    PublicationsSettled(d.procs, d.log);
    assert ProcInv(d, p);
    assert d'.log[..|d'.log| - 1] == d.log;
    if d.procs[p].request.Publish? {
      ChainGrows(start.identity, d, p, publications);
      assert Publications(d'.procs, d'.log) == publications + [p];
    } else {
      assert Publications(d'.procs, d'.log) == publications;
    }
  }

  lemma ChainGrows(start: Option<Identity>, d: Directory, p: ProcId, publications: seq<ProcId>)
    requires p in d.procs && ProcInv(d, p) && d.procs[p].request.Publish? && d.procs[p].phase.BackupWritten?
    requires Chain(start, d.rows.identity, d.procs, publications) && p !in publications
    ensures var d' := Commit(d, p); Chain(start, d'.rows.identity, d'.procs, publications + [p])
  {
  }

  lemma {:induction false} PublicationsSettled(procs: map<ProcId, Proc>, log: seq<ProcId>)
    ensures forall p :: p in Publications(procs, log) ==> p in log && p in procs && procs[p].request.Publish?
    decreases |log|
  {
    if log != [] { PublicationsSettled(procs, log[..|log| - 1]); }
  }

  /** Over every interleaving: each committed publication after the first advances the generation
      by one, and was sent by a request that saw keys and passed the confirmation; the keys are
      those of the last; nothing else moves identity or generation; every committed re-seal was
      confirmed; and once anything has committed, a backup is there and its password copy is gone. */
  lemma {:induction false} EveryRunHasHistory(start: Rows, events: seq<Event>)
    requires start.identity.Some? ==> start.backup.Some?
    ensures History(start, Run(start, events))
    ensures Run(start, events).rows.identity.Some? ==> Run(start, events).rows.backup.Some?
    decreases |events|
  {
    RunKeeps(start, events);
    if events != [] {
      var before := events[..|events| - 1];
      EveryRunHasHistory(start, before);
      RunKeeps(start, before);
      HistoryStep(start, Run(start, before), events[|events| - 1]);
    }
  }

  /** At most one publication that saw no keys ever commits, and it is the first of all. */
  lemma FirstPublicationsDoNotReplace(start: Rows, events: seq<Event>, i: nat)
    requires start.identity.Some? ==> start.backup.Some?
    requires var d := Run(start, events); var publications := Publications(d.procs, d.log);
      i < |publications| && publications[i] in d.procs && !d.procs[publications[i]].replacing
    ensures i == 0 && start.identity.None?
  {
    EveryRunHasHistory(start, events);
  }

  /** A first publication that finds keys when it writes is told to start again, and changes
      nothing but its own outcome. */
  lemma LosingFirstPublication(start: Rows, events: seq<Event>, p: ProcId)
    requires start.identity.Some? ==> start.backup.Some?
    requires var d := Run(start, events);
      && p in d.procs && d.procs[p].phase == Ready && d.procs[p].request.Publish? && !d.procs[p].replacing
      && d.rows.identity.Some? && !Waits(d, p)
    ensures var d := Run(start, events);
      Apply(d, Step(p, true)) == d.(procs := d.procs[p := d.procs[p].(phase := Failed(Conflict))])
  {
    RunKeeps(start, events);
    assert ProcInv(Run(start, events), p);
  }

  /** A re-seal writes no identity in any run. */
  lemma RewrapKeepsIdentity(start: Rows, events: seq<Event>, p: ProcId)
    requires start.identity.Some? ==> start.backup.Some?
    requires p in Run(start, events).procs && Run(start, events).procs[p].request.Rewrap?
    ensures var d := Run(start, events); var d' := Apply(d, Step(p, true));
      && d'.rows.identity == d.rows.identity
      && (d.rows.backup.None? ==> d'.rows == d.rows)
  {
    RunKeeps(start, events);
    assert ProcInv(Run(start, events), p);
  }

  /** Identity before backup: someone can always go on. */
  lemma NoDeadlock(start: Rows, events: seq<Event>, p: ProcId) returns (free: ProcId)
    requires start.identity.Some? ==> start.backup.Some?
    requires Active(Run(start, events), p)
    ensures Active(Run(start, events), free) && !Waits(Run(start, events), free)
  {
    var d := Run(start, events);
    RunKeeps(start, events);
    free := p;
    if Waits(d, free) && d.procs[free].phase.Ready? && d.procs[free].request.Publish? {
      free := d.identityLock.value;
      assert ProcInv(d, free);
    }
    if Waits(d, free) {
      free := d.backupLock.value;
      assert ProcInv(d, free);
    }
  }

  // ---- one request at a time -----------------------------------------------------------

  /** When a publication on its own goes through. */
  predicate Publishes(identity: Option<Identity>, confirmation: bool) {
    identity.None? || (confirmation && identity.value.generation < MAX_GENERATION)
  }

  function Published(identity: Option<Identity>, keys: PublicKeys, sealed: Bytes): Rows {
    Rows(Some(Identity(keys, Generation(identity) + 1)), Some(Backup(sealed, None)))
  }

  /** Look, confirm if keys are replaced, write both rows and commit, with no one in between. */
  function PublishSteps(d: Directory, p: ProcId, confirmation: bool): Directory {
    var confirmed := Apply(Apply(d, Step(p, true)), Step(p, confirmation || d.rows.identity.None?));
    Apply(Apply(Apply(confirmed, Step(p, true)), Step(p, true)), Step(p, true))
  }

  predicate Unlocked(d: Directory) {
    d.identityLock.None? && d.backupLock.None?
  }

  /** The interleaved steps of a publication, run alone. */
  lemma PublishAlone(d: Directory, p: ProcId, confirmation: bool)
    requires p in d.procs && d.procs[p].request.Publish? && d.procs[p].phase.Started? && Unlocked(d)
    ensures var d', request := PublishSteps(d, p, confirmation), d.procs[p].request;
      && p in d'.procs && Unlocked(d')
      && (if Publishes(d.rows.identity, confirmation)
          then d'.rows == Published(d.rows.identity, request.keys, request.sealed) && d'.procs[p].phase.Done?
          else d'.rows == d.rows && d'.procs[p].phase == Failed(if confirmation then Internal else BadRequest))
  {
    var replacing := d.rows.identity.Some?;
    var works := confirmation || !replacing;
    var d1 := Apply(d, Step(p, true));
    var d2 := Apply(d1, Step(p, works));
    assert d1 == Move(d, p, d.procs[p].(phase := Looked, replacing := replacing));
    if works {
      assert d2 == Move(d, p, d.procs[p].(phase := Ready, replacing := replacing, confirmed := replacing));
      WritesAlone(d2, p);
    } else {
      FailedStays(d2, p);
      assert PublishSteps(d, p, confirmation) == d2;
    }
  }

  lemma FailedStays(d: Directory, p: ProcId)
    requires p in d.procs && d.procs[p].phase.Failed?
    ensures Apply(d, Step(p, true)) == d
  {
  }

  lemma WritesAlone(d: Directory, p: ProcId)
    requires p in d.procs && d.procs[p].request.Publish? && d.procs[p].phase.Ready? && Unlocked(d)
    requires d.procs[p].replacing == d.rows.identity.Some?
    ensures var d' := Apply(Apply(Apply(d, Step(p, true)), Step(p, true)), Step(p, true));
      var request := d.procs[p].request;
      && p in d'.procs && Unlocked(d')
      && (if Publishes(d.rows.identity, true)
          then d'.rows == Published(d.rows.identity, request.keys, request.sealed) && d'.procs[p].phase.Done?
          else d'.rows == d.rows && d'.procs[p].phase == Failed(Internal))
  {
    var d1 := Apply(d, Step(p, true));
    assert d1 == WriteIdentity(d, p);
    if d1.procs[p].phase.Failed? {
      FailedStays(d1, p);
    } else {
      var d2 := Apply(d1, Step(p, true));
      assert d2 == WriteBackup(d1, p);
      assert Apply(d2, Step(p, true)) == Commit(d2, p);
    }
  }

  /** Confirm, write and commit, with no one in between. */
  function RewrapSteps(d: Directory, p: ProcId, confirmation: bool): Directory {
    Apply(Apply(Apply(d, Step(p, confirmation)), Step(p, true)), Step(p, true))
  }

  /** The interleaved steps of a re-seal, run alone. */
  lemma RewrapAlone(d: Directory, p: ProcId, confirmation: bool)
    requires p in d.procs && d.procs[p].request.Rewrap? && d.procs[p].phase.Started? && Unlocked(d)
    requires d.procs[p].written == UNWRITTEN
    ensures var d', request := RewrapSteps(d, p, confirmation), d.procs[p].request;
      && p in d'.procs && Unlocked(d')
      && (if confirmation && d.rows.backup.Some?
          then d'.rows == d.rows.(backup := Some(Backup(request.sealed, None))) && d'.procs[p].phase.Done?
          else d'.rows == d.rows && d'.procs[p].phase == Failed(if confirmation then NotFound else BadRequest))
  {
    var d1 := Apply(d, Step(p, confirmation));
    if confirmation {
      var d2 := Apply(d1, Step(p, true));
      assert d2 == WriteBackup(d1, p);
      if d2.procs[p].phase.Failed? { FailedStays(d2, p); }
    } else {
      FailedStays(d1, p);
    }
  }

  /** A request that fails at any step, its confirmation refused or its connection lost, leaves the rows
      and holds no lock. */
  lemma FailuresCount(d: Directory, p: ProcId)
    requires Active(d, p)
    ensures var d' := Apply(d, Step(p, false));
      && p in d'.procs && d'.procs[p].phase.Failed? && d'.rows == d.rows && d'.log == d.log
      && d'.identityLock != Some(p) && d'.backupLock != Some(p)
      && (forall o :: o in d.procs && o != p ==> o in d'.procs && d'.procs[o] == d.procs[o])
  {
  }

  /** The rows of one account, as the two routes update them when nothing interferes. */
  class Account {
    var identity: Option<Identity>
    var backup: Option<Backup>

    predicate Valid()
      reads this
    {
      identity.Some? ==> backup.Some?
    }

    constructor ()
      ensures Valid() && identity == None && backup == None
    {
      identity, backup := None, None;
    }

    /** `confirmation` is the outcome of the step-up, asked for only when keys are replaced. */
    method PublishKeys(keys: PublicKeys, sealed: Bytes, confirmation: bool) returns (result: Result<nat, Error>)
      requires Valid()
      modifies this
      ensures Valid()
      ensures result.Ok? <==>
        old(identity).None? || (confirmation && old(identity).value.generation < 0x7fff_ffff)
      ensures result.Ok? ==>
        && result.value == (if old(identity).None? then 1 else old(identity).value.generation + 1)
        && identity == Some(Identity(keys, result.value)) && backup == Some(Backup(sealed, None))
      ensures result.Err? ==>
        && result.error == (if !confirmation then BadRequest else Internal)
        && identity == old(identity) && backup == old(backup)
    {
      var replacing := identity.Some?;
      if replacing && !confirmation {
        return Err(BadRequest);
      }
      var upserted := UpsertIdentity(identity, keys, replacing);
      if upserted.Err? {
        return Err(upserted.error);
      }
      identity := Some(upserted.value);
      backup := Some(UpsertBackup(sealed));
      return Ok(upserted.value.generation);
    }

    method RewrapKeyBackup(sealed: Bytes, confirmation: bool) returns (result: Result<(), Error>)
      requires Valid()
      modifies this`backup
      ensures Valid()
      ensures result.Ok? <==> confirmation && old(backup).Some?
      ensures result.Ok? ==> backup == Some(Backup(sealed, None))
      ensures result.Err? ==>
        result.error == (if !confirmation then BadRequest else NotFound) && backup == old(backup)
    {
      if !confirmation {
        return Err(BadRequest);
      }
      var updated := UpdateBackup(backup, sealed);
      if updated.Err? {
        return Err(updated.error);
      }
      backup := Some(updated.value);
      return Ok(());
    }
  }
}
