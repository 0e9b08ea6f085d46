/** One account's avatar: a row in the database and objects in a store, kept consistent without a
    transaction over both. Any number of uploads, interleaved; put, commit and cleanup may fail,
    with or without having taken effect, and a request may die at any step. */
module AvatarStore {
  import opened Orders
  import opened Octets

  type Key = string
  type UploadId = nat

  /** What `avatar_url` holds: a url made from one of our keys, or anything else. */
  datatype Link = Ours(key: Key, version: string) | Foreign(url: string)

  // ---- the protocol --------------------------------------------------------------------

  /** `Aborted` uploads changed no row; `Abandoned` ones did, and may not have cleaned up. */
  datatype Phase =
    | Drawn | Put | Locked
    | Read(superseded: Option<Link>)
    | Committed(superseded: Option<Link>)
    | Finished(superseded: Option<Link>)
    | Aborted
    | Abandoned(superseded: Option<Link>)

  datatype Upload = Upload(key: Key, version: string, image: Bytes, phase: Phase) {
    predicate Active() {
      phase.Drawn? || phase.Put? || phase.Locked? || phase.Read? || phase.Committed?
    }

    predicate HasCommitted() {
      phase.Committed? || phase.Finished? || phase.Abandoned?
    }
  }

  /** `log` lists the uploads in the order they committed. */
  datatype State = State(
    row: Option<Link>, objects: map<Key, Bytes>, uploads: map<UploadId, Upload>, lock: Option<UploadId>,
    log: seq<UploadId>)

  /** A failed step may still have taken effect on the other side. */
  datatype Outcome = Works | Fails(tookEffect: bool)

  datatype Event = Begin(t: UploadId, key: Key, version: string, image: Bytes) | Step(t: UploadId, outcome: Outcome)

  function KeyOf(row: Option<Link>): Option<Key> {
    if row.Some? && row.value.Ours? then Some(row.value.key) else None
  }

  /** The key of a new upload carries a random nonce: no upload, object or row has it. */
  predicate Fresh(start: State, s: State, key: Key) {
    && key !in s.objects && key !in start.objects && KeyOf(start.row) != Some(key)
    && forall t :: t in s.uploads ==> s.uploads[t].key != key
  }

  function Move(s: State, t: UploadId, phase: Phase): State
    requires t in s.uploads
  {
    s.(uploads := s.uploads[t := s.uploads[t].(phase := phase)],
       lock := if s.lock == Some(t) && !phase.Read? then None else s.lock)
  }

  function PutObject(s: State, t: UploadId): State
    requires t in s.uploads
  {
    s.(objects := s.objects[s.uploads[t].key := s.uploads[t].image])
  }

  /** UPDATE users SET avatar_url, and commit. */
  function Commit(s: State, t: UploadId): State
    requires t in s.uploads
  {
    s.(row := Some(Ours(s.uploads[t].key, s.uploads[t].version)), log := s.log + [t])
  }

  /** Delete exactly the object this upload replaced. */
  function Clean(s: State, t: UploadId, superseded: Option<Link>): State
    requires t in s.uploads
  {
    var previous := KeyOf(superseded);
    if previous.None? || previous.value == s.uploads[t].key then s else s.(objects := s.objects - {previous.value})
  }

  predicate Waits(s: State, t: UploadId)
    requires t in s.uploads
  {
    s.uploads[t].phase.Put? && s.lock.Some?
  }

  function Advance(s: State, t: UploadId, outcome: Outcome): State
    requires t in s.uploads && s.uploads[t].Active() && (outcome.Works? ==> !Waits(s, t))
  {
    var takesEffect := outcome.Works? || outcome.tookEffect;
    match s.uploads[t].phase
    case Drawn =>
      Move(if takesEffect then PutObject(s, t) else s, t, if outcome.Works? then Put else Aborted)
    case Put =>
      if outcome.Works? then Move(s, t, Locked).(lock := Some(t)) else Move(s, t, Aborted)
    case Locked =>
      Move(s, t, if outcome.Works? then Read(s.row) else Aborted)
    case Read(superseded) =>
      Move(if takesEffect then Commit(s, t) else s, t,
           if outcome.Works? then Committed(superseded) else if takesEffect then Abandoned(superseded) else Aborted)
    case Committed(superseded) =>
      Move(if takesEffect then Clean(s, t, superseded) else s, t,
           if outcome.Works? then Finished(superseded) else Abandoned(superseded))
  }

  function Apply(start: State, s: State, event: Event): State {
    match event
    case Begin(t, key, version, image) =>
      if t in s.uploads || !Fresh(start, s, key) then s
      else s.(uploads := s.uploads[t := Upload(key, version, image, Drawn)])
    case Step(t, outcome) =>
      if t in s.uploads && s.uploads[t].Active() && (outcome.Works? ==> !Waits(s, t)) then Advance(s, t, outcome) else s
  }

  function Run(start: State, events: seq<Event>): State {
    if events == [] then start
    else Apply(start, Run(start, events[..|events| - 1]), events[|events| - 1])
  }

  /** A row with no upload in flight: none, a url of some other origin, or one of ours whose
      object is there. */
  predicate Begins(start: State) {
    && start.uploads == map[] && start.lock == None && start.log == []
    && (KeyOf(start.row).Some? ==> KeyOf(start.row).value in start.objects)
  }

  // ---- the invariant -------------------------------------------------------------------

  /** The row after the first `i` commits. */
  function RowAt(start: State, s: State, i: nat): Option<Link>
    requires i <= |s.log|
  {
    if i == 0 then start.row
    else if s.log[i - 1] !in s.uploads then None
    else Some(Ours(s.uploads[s.log[i - 1]].key, s.uploads[s.log[i - 1]].version))
  }

  predicate UploadInv(start: State, s: State, t: UploadId)
    requires t in s.uploads
  {
    var u := s.uploads[t];
    && u.key !in start.objects && KeyOf(start.row) != Some(u.key)
    && (s.lock == Some(t) <==> u.phase.Locked? || u.phase.Read?)
    && (u.phase.Drawn? ==> u.key !in s.objects)
    && (u.phase.Put? || u.phase.Locked? || u.phase.Read? ==> u.key in s.objects && s.objects[u.key] == u.image)
    && (u.phase.Read? ==> u.phase.superseded == s.row)
    && (u.HasCommitted() <==> t in s.log)
  }

  /** Commit number `i` superseded the row before it, and its image stays until the next one. */
  predicate LogInv(start: State, s: State, i: nat)
    requires i < |s.log|
  {
    && s.log[i] in s.uploads && s.uploads[s.log[i]].HasCommitted()
    && s.uploads[s.log[i]].phase.superseded == RowAt(start, s, i)
    && (i + 1 == |s.log| ==>
          s.uploads[s.log[i]].key in s.objects && s.objects[s.uploads[s.log[i]].key] == s.uploads[s.log[i]].image)
  }

  predicate Apart(s: State) {
    && (forall t, o :: t in s.uploads && o in s.uploads && t != o ==> s.uploads[t].key != s.uploads[o].key)
    && (forall i, j :: 0 <= i < j < |s.log| ==> s.log[i] != s.log[j])
  }

  predicate Inv(start: State, s: State) {
    && Begins(start)
    && Apart(s)
    && (s.lock.Some? ==> s.lock.value in s.uploads)
    && (forall t :: t in s.uploads ==> UploadInv(start, s, t))
    && (forall i :: 0 <= i < |s.log| ==> LogInv(start, s, i))
    && s.row == RowAt(start, s, |s.log|)
    && (s.log == [] && KeyOf(start.row).Some? ==> KeyOf(start.row).value in s.objects)
  }

  /** The keys the row has pointed at, one after another, are all different. */
  lemma RowKeysDiffer(start: State, s: State, i: nat, j: nat)
    requires Inv(start, s) && i < j <= |s.log|
    ensures s.log[j - 1] in s.uploads && KeyOf(RowAt(start, s, j)) == Some(s.uploads[s.log[j - 1]].key)
    ensures KeyOf(RowAt(start, s, i)) != KeyOf(RowAt(start, s, j))
  {
    assert LogInv(start, s, j - 1);
    var b := s.uploads[s.log[j - 1]];
    assert UploadInv(start, s, s.log[j - 1]);
    if i > 0 {
      assert LogInv(start, s, i - 1);
      var a := s.uploads[s.log[i - 1]];
      assert UploadInv(start, s, s.log[i - 1]);
    }
  }

  /** The objects that must stay: the row's, and those of uploads about to commit. */
  predicate Needed(s: State, key: Key) {
    || KeyOf(s.row) == Some(key)
    || exists t :: t in s.uploads && s.uploads[t].key == key
                   && (s.uploads[t].phase.Put? || s.uploads[t].phase.Locked? || s.uploads[t].phase.Read?)
  }

  predicate Superseded(phase: Phase, superseded: Option<Link>) {
    (phase.Committed? || phase.Finished? || phase.Abandoned?) && phase.superseded == superseded
  }

  /** A step of upload `t` that commits nothing and takes away no needed object. */
  lemma PhaseKeeps(start: State, s: State, s': State, t: UploadId)
    requires Inv(start, s) && t in s.uploads && t in s'.uploads
    requires s'.log == s.log && s'.row == s.row
    requires s'.uploads == s.uploads[t := s.uploads[t].(phase := s'.uploads[t].phase)]
    requires UploadInv(start, s', t)
    requires s.uploads[t].HasCommitted() ==> Superseded(s'.uploads[t].phase, s.uploads[t].phase.superseded)
    requires s'.lock == s.lock || ((s.lock == None || s.lock == Some(t)) && (s'.lock == None || s'.lock == Some(t)))
    requires forall k :: k in s.objects && Needed(s, k) ==> k in s'.objects && s'.objects[k] == s.objects[k]
    requires forall k :: k in s'.objects ==> k in s.objects || k == s.uploads[t].key
    ensures Inv(start, s')
  {
    forall o | o in s'.uploads ensures UploadInv(start, s', o) {
      if o != t { assert UploadInv(start, s, o); }
    }
    PhaseKeepsLog(start, s, s', t);
  }

  lemma PhaseKeepsLog(start: State, s: State, s': State, t: UploadId)
    requires Inv(start, s) && t in s.uploads && t in s'.uploads
    requires s'.log == s.log && s'.row == s.row
    requires s'.uploads == s.uploads[t := s.uploads[t].(phase := s'.uploads[t].phase)]
    requires s.uploads[t].HasCommitted() ==> Superseded(s'.uploads[t].phase, s.uploads[t].phase.superseded)
    requires forall k :: k in s.objects && Needed(s, k) ==> k in s'.objects && s'.objects[k] == s.objects[k]
    ensures forall i :: 0 <= i < |s'.log| ==> LogInv(start, s', i)
    ensures s'.row == RowAt(start, s', |s'.log|)
  {
    forall i | 0 <= i < |s'.log| ensures LogInv(start, s', i) {
      assert LogInv(start, s, i);
      if i > 0 { assert LogInv(start, s, i - 1); }
    }
    if s.log != [] { assert LogInv(start, s, |s.log| - 1); }
  }

  lemma MoveKeeps(start: State, s: State, t: UploadId, outcome: Outcome)
    requires Inv(start, s) && t in s.uploads && s.uploads[t].Active() && (outcome.Works? ==> !Waits(s, t))
    requires s.uploads[t].phase.Drawn? || s.uploads[t].phase.Put? || s.uploads[t].phase.Locked?
    ensures Inv(start, Advance(s, t, outcome))
  {
    assert UploadInv(start, s, t);
    PhaseKeeps(start, s, Advance(s, t, outcome), t);
  }

  lemma CommitKeeps(start: State, s: State, t: UploadId, outcome: Outcome)
    requires Inv(start, s) && t in s.uploads && s.uploads[t].phase.Read?
    ensures Inv(start, Advance(s, t, outcome))
  {
    var s' := Advance(s, t, outcome);
    assert UploadInv(start, s, t);
    if s'.log == s.log {
      PhaseKeeps(start, s, s', t);
    } else {
      NewRowKeeps(start, s, s', t);
    }
  }

  lemma NewRowKeeps(start: State, s: State, s': State, t: UploadId)
    requires Inv(start, s) && t in s.uploads && s.uploads[t].phase.Read? && t in s'.uploads
    requires s'.log == s.log + [t] && s'.row == Some(Ours(s.uploads[t].key, s.uploads[t].version))
    requires s'.uploads == s.uploads[t := s.uploads[t].(phase := s'.uploads[t].phase)]
    requires Superseded(s'.uploads[t].phase, s.row) && s'.lock == None && s'.objects == s.objects
    ensures Inv(start, s')
  {
    assert UploadInv(start, s, t);
    forall o | o in s'.uploads ensures UploadInv(start, s', o) {
      assert UploadInv(start, s, o);
    }
    forall i | 0 <= i < |s.log| ensures s.log[i] in s.uploads && s.log[i] != t {
      assert LogInv(start, s, i);
    }
    forall i | 0 <= i < |s'.log| ensures LogInv(start, s', i) {
      if i < |s.log| { assert LogInv(start, s, i); }
    }
  }

  /** Cleanup removes a key the row no longer has, and no other upload's. */
  lemma CleanKeeps(start: State, s: State, t: UploadId, outcome: Outcome)
    requires Inv(start, s) && t in s.uploads && s.uploads[t].phase.Committed?
    ensures Inv(start, Advance(s, t, outcome))
  {
    assert UploadInv(start, s, t);
    SupersededIsNotNeeded(start, s, t);
    PhaseKeeps(start, s, Advance(s, t, outcome), t);
  }

  lemma SupersededIsNotNeeded(start: State, s: State, t: UploadId)
    requires Inv(start, s) && t in s.uploads && s.uploads[t].phase.Committed?
    ensures var key := KeyOf(s.uploads[t].phase.superseded); key.Some? ==> !Needed(s, key.value)
  {
    assert UploadInv(start, s, t);
    var n := Position(s.log, t);
    assert LogInv(start, s, n);
    RowKeysDiffer(start, s, n, |s.log|);
    if n > 0 { assert LogInv(start, s, n - 1); }
    forall o | o in s.uploads && KeyOf(s.uploads[t].phase.superseded) == Some(s.uploads[o].key)
      ensures s.uploads[o].HasCommitted()
    {
      assert UploadInv(start, s, o);
    }
  }

  function Position(log: seq<UploadId>, t: UploadId): (n: nat)
    requires t in log
    ensures n < |log| && log[n] == t
  {
    if log[0] == t then 0 else 1 + Position(log[1..], t)
  }

  lemma BeginKeeps(start: State, s: State, t: UploadId, u: Upload)
    requires Inv(start, s) && t !in s.uploads && Fresh(start, s, u.key) && u.phase.Drawn?
    ensures Inv(start, s.(uploads := s.uploads[t := u]))
  {
    var s' := s.(uploads := s.uploads[t := u]);
    LogStays(start, s, s', t);
    forall o | o in s'.uploads ensures UploadInv(start, s', o) {
      if o != t { assert UploadInv(start, s, o); }
    }
  }

  lemma LogStays(start: State, s: State, s': State, t: UploadId)
    requires Inv(start, s) && t !in s.uploads && s'.log == s.log && s'.row == s.row && s'.objects == s.objects
    requires forall o :: o in s.uploads ==> o in s'.uploads && s'.uploads[o] == s.uploads[o]
    ensures t !in s.log && s.row == RowAt(start, s', |s.log|)
    ensures forall i :: 0 <= i < |s.log| ==> LogInv(start, s', i)
  {
    forall i | 0 <= i < |s.log| ensures LogInv(start, s', i) && s.log[i] != t {
      assert LogInv(start, s, i);
      if i > 0 { assert LogInv(start, s, i - 1); }
    }
    if s.log != [] { assert LogInv(start, s, |s.log| - 1); }
  }

  lemma ApplyKeeps(start: State, s: State, event: Event)
    requires Inv(start, s)
    ensures Inv(start, Apply(start, s, event))
  {
    match event
    case Begin(t, key, version, image) =>
      if t !in s.uploads && Fresh(start, s, key) { BeginKeeps(start, s, t, Upload(key, version, image, Drawn)); }
    case Step(t, outcome) =>
      if t in s.uploads && s.uploads[t].Active() && (outcome.Works? ==> !Waits(s, t)) {
        var phase := s.uploads[t].phase;
        if phase.Read? {
          CommitKeeps(start, s, t, outcome);
        } else if phase.Committed? {
          CleanKeeps(start, s, t, outcome);
        } else {
          MoveKeeps(start, s, t, outcome);
        }
      }
  }

  lemma {:induction false} RunKeeps(start: State, events: seq<Event>)
    requires Begins(start)
    ensures Inv(start, Run(start, events))
    decreases |events|
  {
    if events != [] {
      RunKeeps(start, events[..|events| - 1]);
      ApplyKeeps(start, Run(start, events[..|events| - 1]), events[|events| - 1]);
    }
  }

  // ---- the theorems --------------------------------------------------------------------

  /** Whatever interleaves and whatever fails, the row never points at a missing object, and it
      shows the image of the upload that committed last. */
  lemma RowIsAlwaysServed(start: State, events: seq<Event>)
    requires Begins(start)
    ensures var s := Run(start, events); var key := KeyOf(s.row);
      && (key.Some? ==> key.value in s.objects)
      && (s.log != [] ==>
            var last := s.log[|s.log| - 1];
            last in s.uploads && key == Some(s.uploads[last].key)
            && key.value in s.objects && s.objects[key.value] == s.uploads[last].image)
      && (s.log == [] ==> s.row == start.row)
  {
    RunKeeps(start, events);
    var s := Run(start, events);
    if s.log != [] {
      assert LogInv(start, s, |s.log| - 1);
      RowKeysDiffer(start, s, 0, |s.log|);
    }
  }

  /** Each key the row has left behind is the one to clean for exactly one upload. */
  lemma EachSupersededKeyHasOneCleaner(start: State, events: seq<Event>, i: nat)
    requires Begins(start) && i < |Run(start, events).log|
    ensures var s := Run(start, events);
      && s.log[i] in s.uploads && s.uploads[s.log[i]].HasCommitted()
      && s.uploads[s.log[i]].phase.superseded == RowAt(start, s, i)
      && (KeyOf(RowAt(start, s, i)).Some? ==>
            forall t :: t in s.uploads && s.uploads[t].HasCommitted()
                        && KeyOf(s.uploads[t].phase.superseded) == KeyOf(RowAt(start, s, i)) ==>
                          t == s.log[i])
  {
    RunKeeps(start, events);
    var s := Run(start, events);
    assert LogInv(start, s, i);
    forall t | t in s.uploads && s.uploads[t].HasCommitted()
               && KeyOf(s.uploads[t].phase.superseded) == KeyOf(RowAt(start, s, i))
      ensures t == s.log[i]
    {
      assert UploadInv(start, s, t);
      var n := Position(s.log, t);
      assert LogInv(start, s, n);
      if n < i { RowKeysDiffer(start, s, n, i); }
      if i < n { RowKeysDiffer(start, s, i, n); }
    }
  }

  // ---- nothing is forgotten ------------------------------------------------------------

  /** Every object was there at the start or put by an upload. */
  ghost predicate Sourced(start: State, s: State) {
    forall k :: k in s.objects && k !in start.objects ==> exists t :: WasPut(s, t, k)
  }

  predicate WasPut(s: State, t: UploadId, key: Key) {
    t in s.uploads && s.uploads[t].key == key && !s.uploads[t].phase.Drawn?
  }

  /** What a finished upload superseded is gone. */
  predicate Cleaned(s: State) {
    forall t :: t in s.uploads && s.uploads[t].phase.Finished? && KeyOf(s.uploads[t].phase.superseded).Some? ==>
      KeyOf(s.uploads[t].phase.superseded).value !in s.objects
  }

  ghost predicate Accounted(start: State, s: State) {
    Sourced(start, s) && Cleaned(s)
  }

  /** A key a row has pointed at is never put again. */
  lemma SupersededIsNotDrawn(start: State, s: State, t: UploadId, o: UploadId)
    requires Inv(start, s) && t in s.uploads && s.uploads[t].HasCommitted()
    requires o in s.uploads && s.uploads[o].phase.Drawn?
    ensures KeyOf(s.uploads[t].phase.superseded) != Some(s.uploads[o].key)
  {
    assert UploadInv(start, s, t) && UploadInv(start, s, o);
    var n := Position(s.log, t);
    assert LogInv(start, s, n);
    if n > 0 { assert LogInv(start, s, n - 1); }
  }

  lemma SourcedStep(start: State, s: State, t: UploadId, outcome: Outcome)
    requires t in s.uploads && s.uploads[t].Active() && (outcome.Works? ==> !Waits(s, t)) && Sourced(start, s)
    ensures Sourced(start, Advance(s, t, outcome))
  {
    var s' := Advance(s, t, outcome);
    forall k | k in s'.objects && k !in start.objects ensures exists o :: WasPut(s', o, k) {
      if k == s.uploads[t].key && s.uploads[t].phase.Drawn? {
        assert WasPut(s', t, k);
      } else {
        var o :| WasPut(s, o, k);
        assert WasPut(s', o, k);
      }
    }
  }

  lemma CleanedStep(start: State, s: State, t: UploadId, outcome: Outcome)
    requires Inv(start, s) && Cleaned(s)
    requires t in s.uploads && s.uploads[t].Active() && (outcome.Works? ==> !Waits(s, t))
    ensures Cleaned(Advance(s, t, outcome))
  {
    var s' := Advance(s, t, outcome);
    forall o | o in s'.uploads && s'.uploads[o].phase.Finished? && KeyOf(s'.uploads[o].phase.superseded).Some?
      ensures KeyOf(s'.uploads[o].phase.superseded).value !in s'.objects
    {
      if s.uploads[t].phase.Drawn? { SupersededIsNotDrawn(start, s, o, t); }
      if o == t { CleanedKey(start, s, t); }
    }
  }

  lemma AccountedStep(start: State, s: State, event: Event)
    requires Inv(start, s) && Accounted(start, s)
    ensures Accounted(start, Apply(start, s, event))
  {
    match event
    case Begin(t, key, version, image) =>
      var s' := Apply(start, s, event);
      forall k | k in s'.objects && k !in start.objects ensures exists o :: WasPut(s', o, k) {
        var o :| WasPut(s, o, k);
        assert WasPut(s', o, k);
      }
    case Step(t, outcome) =>
      if t in s.uploads && s.uploads[t].Active() && (outcome.Works? ==> !Waits(s, t)) {
        SourcedStep(start, s, t, outcome);
        CleanedStep(start, s, t, outcome);
      }
  }

  /** The guard against deleting one's own key never fires. */
  lemma CleanedKey(start: State, s: State, t: UploadId)
    requires Inv(start, s) && t in s.uploads && s.uploads[t].phase.Committed?
    ensures KeyOf(s.uploads[t].phase.superseded) != Some(s.uploads[t].key)
  {
    assert UploadInv(start, s, t);
    var n := Position(s.log, t);
    assert LogInv(start, s, n);
    RowKeysDiffer(start, s, n, n + 1);
  }

  lemma {:induction false} RunAccounted(start: State, events: seq<Event>)
    requires Begins(start)
    ensures Accounted(start, Run(start, events))
    decreases |events|
  {
    if events != [] {
      RunAccounted(start, events[..|events| - 1]);
      RunKeeps(start, events[..|events| - 1]);
      AccountedStep(start, Run(start, events[..|events| - 1]), events[|events| - 1]);
    }
  }

  /** An object the row does not show has a reason to be there: it was there before, its upload
      is in flight or died before its commit, or the upload that superseded it has not cleaned up. */
  lemma EveryObjectIsAccountedFor(start: State, events: seq<Event>, key: Key)
    requires Begins(start) && key in Run(start, events).objects
    ensures var s := Run(start, events);
      || KeyOf(s.row) == Some(key)
      || (key in start.objects && KeyOf(start.row) != Some(key))
      || (exists t :: t in s.uploads && s.uploads[t].key == key
                      && (s.uploads[t].phase.Put? || s.uploads[t].phase.Locked? || s.uploads[t].phase.Read?
                          || s.uploads[t].phase.Aborted?))
      || (exists t :: t in s.uploads && KeyOf(SupersededBy(s.uploads[t])) == Some(key)
                      && (s.uploads[t].phase.Committed? || s.uploads[t].phase.Abandoned?))
  {
    RunKeeps(start, events);
    RunAccounted(start, events);
    var s := Run(start, events);
    if key in start.objects {
      if KeyOf(start.row) == Some(key) { SupersedeReason(start, s, 0, key); }
    } else {
      var t :| WasPut(s, t, key);
      assert UploadInv(start, s, t);
      if s.uploads[t].HasCommitted() {
        var n := Position(s.log, t);
        assert LogInv(start, s, n);
        SupersedeReason(start, s, n + 1, key);
      }
    }
  }

  function SupersededBy(u: Upload): Option<Link> {
    if u.HasCommitted() then u.phase.superseded else None
  }

  lemma SupersedeReason(start: State, s: State, i: nat, key: Key)
    requires Inv(start, s) && Accounted(start, s) && i <= |s.log| && KeyOf(RowAt(start, s, i)) == Some(key)
    requires key in s.objects
    ensures i == |s.log| ==> KeyOf(s.row) == Some(key)
    ensures i < |s.log| ==>
      s.log[i] in s.uploads && KeyOf(SupersededBy(s.uploads[s.log[i]])) == Some(key)
      && (s.uploads[s.log[i]].phase.Committed? || s.uploads[s.log[i]].phase.Abandoned?)
  {
    if i < |s.log| { assert LogInv(start, s, i); }
  }

  /** When every upload has finished without a failure, only the current object remains. */
  lemma OnlyTheCurrentObjectRemains(start: State, events: seq<Event>)
    requires Begins(start)
    requires forall k :: k in start.objects ==> KeyOf(start.row) == Some(k)
    requires var s := Run(start, events); forall t :: t in s.uploads ==> s.uploads[t].phase.Finished?
    ensures var s := Run(start, events);
      s.objects.Keys == if KeyOf(s.row).Some? then {KeyOf(s.row).value} else {}
  {
    var s := Run(start, events);
    RowIsAlwaysServed(start, events);
    forall k | k in s.objects ensures KeyOf(s.row) == Some(k) {
      EveryObjectIsAccountedFor(start, events, k);
    }
  }
}
