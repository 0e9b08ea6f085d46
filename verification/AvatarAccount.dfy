/** One avatar request at a time: the upload as the protocol's steps run alone, and the delete,
    which empties the store before it clears the row. Every call to the store and the commit may
    fail, with or without having taken effect. */
module AvatarAccount {
  import opened Orders
  import opened Octets
  import opened AvatarStore

  // ---- upload --------------------------------------------------------------------------

  datatype Stored = Stored(row: Option<Link>, objects: map<Key, Bytes>)

  /** What an upload leaves, and whether it answers with success. */
  function UploadEffect(
      before: Stored, key: Key, version: string, image: Bytes, put: Outcome, commit: Outcome,
      cleanup: Outcome): (Stored, bool)
  {
    var objects := if put.Works? || put.tookEffect then before.objects[key := image] else before.objects;
    var previous := KeyOf(before.row);
    if put.Fails? || commit == Fails(false) then (Stored(before.row, objects), false)
    else if commit.Fails? || previous.None? || cleanup == Fails(false) then
      (Stored(Some(Ours(key, version)), objects), commit.Works?)
    else (Stored(Some(Ours(key, version)), objects - {previous.value}), true)
  }

  /** The step after `s`, if the upload is still going. */
  function Then(s: State, t: UploadId, outcome: Outcome): State {
    Apply(s, s, Step(t, outcome))
  }

  /** Put, lock, read, commit and clean up, with no one in between. */
  function UploadSteps(s: State, t: UploadId, put: Outcome, commit: Outcome, cleanup: Outcome): State {
    Then(Then(Then(Then(Then(s, t, put), t, Works), t, Works), t, commit), t, cleanup)
  }

  /** The protocol's steps, run alone, have the effect of the whole request. */
  lemma UploadAlone(s: State, t: UploadId, put: Outcome, commit: Outcome, cleanup: Outcome)
    requires t in s.uploads && s.uploads[t].phase.Drawn? && s.lock.None?
    requires s.uploads[t].key !in s.objects && KeyOf(s.row) != Some(s.uploads[t].key)
    ensures var u := s.uploads[t]; var s' := UploadSteps(s, t, put, commit, cleanup);
      Stored(s'.row, s'.objects)
      == UploadEffect(Stored(s.row, s.objects), u.key, u.version, u.image, put, commit, cleanup).0
    ensures var u := s.uploads[t]; var s' := UploadSteps(s, t, put, commit, cleanup);
      && t in s'.uploads && s'.lock.None? && !s'.uploads[t].Active()
      && (s'.uploads[t].phase.Finished? <==> put.Works? && commit.Works? && cleanup.Works?)
      && (s'.uploads[t].phase.Aborted? <==> put.Fails? || commit == Fails(false))
      && (UploadEffect(Stored(s.row, s.objects), u.key, u.version, u.image, put, commit, cleanup).1
          <==> put.Works? && commit.Works?)
  {
    var s1 := Then(s, t, put);
    if put.Works? {
      var s3 := Then(Then(s1, t, Works), t, Works);
      UploadLocks(s1, t);
      UploadEnds(s3, t, commit, cleanup);
    } else {
      assert !s1.uploads[t].Active();
    }
  }

  lemma UploadLocks(s: State, t: UploadId)
    requires t in s.uploads && s.uploads[t].phase.Put? && s.lock.None?
    ensures Then(Then(s, t, Works), t, Works)
         == s.(uploads := s.uploads[t := s.uploads[t].(phase := Read(s.row))], lock := Some(t))
  {
  }

  lemma UploadEnds(s: State, t: UploadId, commit: Outcome, cleanup: Outcome)
    requires t in s.uploads && s.uploads[t].phase == Read(s.row) && s.lock == Some(t)
    requires KeyOf(s.row) != Some(s.uploads[t].key)
    ensures var s' := Then(Then(s, t, commit), t, cleanup);
      var link := Some(Ours(s.uploads[t].key, s.uploads[t].version));
      && t in s'.uploads && !s'.uploads[t].Active() && s'.lock.None?
      && (s'.uploads[t].phase.Finished? <==> commit.Works? && cleanup.Works?)
      && (s'.uploads[t].phase.Aborted? <==> commit == Fails(false))
      && s'.row == (if commit == Fails(false) then s.row else link)
      && s'.objects == (if commit.Fails? || KeyOf(s.row).None? || cleanup == Fails(false) then s.objects
                        else s.objects - {KeyOf(s.row).value})
  {
  }

  /** Whichever step fails, the upload is over and its lock free. */
  lemma FailuresCount(start: State, s: State, t: UploadId, tookEffect: bool)
    requires t in s.uploads && s.uploads[t].Active()
    ensures var s' := Apply(start, s, Step(t, Fails(tookEffect)));
      && t in s'.uploads && !s'.uploads[t].Active() && !s'.uploads[t].phase.Finished? && s'.lock != Some(t)
      && (!tookEffect ==> s'.row == s.row && s'.objects == s.objects)
  {
  }

  // ---- delete --------------------------------------------------------------------------

  /** The keys of the first `n` pages. */
  function Listed(pages: seq<set<Key>>, n: nat): set<Key>
    decreases n
  {
    if n == 0 then {} else Listed(pages, n - 1) + if n <= |pages| then pages[n - 1] else {}
  }

  /** How emptying the store goes: its pages and how many of them can be read, the keys of the old
      form, the objects that cannot be deleted, and those whose deletion is only reported as failed. */
  datatype Emptying = Emptying(
      pages: seq<set<Key>>, readable: nat, legacy: set<Key>, stuck: set<Key>, unsure: set<Key>) {
    function Tried(): set<Key> {
      Listed(pages, readable) + legacy
    }

    function Removed(): set<Key> {
      Tried() - stuck
    }

    predicate Complete() {
      readable >= |pages| && Tried() * (stuck + unsure) == {}
    }

    /** The listing shows every object of the account. */
    predicate Covers(keys: set<Key>) {
      keys <= Listed(pages, |pages|) + legacy
    }
  }

  lemma {:induction false} ListedGrows(pages: seq<set<Key>>, n: nat, m: nat)
    requires n <= m
    ensures Listed(pages, n) <= Listed(pages, m)
    decreases m
  {
    if n < m { ListedGrows(pages, n, m - 1); }
  }

  /** When every call to the store works, every object goes. */
  lemma CompleteRemovesAll(how: Emptying, keys: set<Key>)
    requires how.Complete() && how.Covers(keys)
    ensures keys <= how.Removed()
  {
    ListedGrows(how.pages, |how.pages|, how.readable);
    forall key | key in keys ensures key !in how.stuck {
      assert key in how.stuck ==> key in how.Tried() * (how.stuck + how.unsure);
    }
  }

  lemma CompleteByParts(how: Emptying)
    ensures var failing := how.stuck + how.unsure;
      how.Complete() <==>
      how.readable >= |how.pages| && Listed(how.pages, how.readable) * failing == {} && how.legacy * failing == {}
  {
    var failing, listed := how.stuck + how.unsure, Listed(how.pages, how.readable);
    assert how.Tried() * failing == listed * failing + how.legacy * failing;
  }

  /** The keys in `done` have been tried. */
  predicate Progress(
      before: map<Key, Bytes>, objects: map<Key, Bytes>, done: set<Key>, stuck: set<Key>, unsure: set<Key>,
      failed: bool)
  {
    objects == before - (done - stuck) && (failed <==> done * (stuck + unsure) != {})
  }

  lemma ProgressStep(
      before: map<Key, Bytes>, objects: map<Key, Bytes>, done: set<Key>, stuck: set<Key>, unsure: set<Key>,
      failed: bool, key: Key)
    requires Progress(before, objects, done, stuck, unsure, failed)
    ensures Progress(before, if key in stuck then objects else objects - {key}, done + {key}, stuck, unsure,
                     failed || key in stuck || key in unsure)
  {
    var failing := stuck + unsure;
    assert done + {key} - stuck == if key in stuck then done - stuck else (done - stuck) + {key};
    assert (done + {key}) * failing == done * failing + if key in failing then {key} else {};
  }

  lemma LessToDo(keys: set<Key>, done: set<Key>, key: Key)
    requires key in keys - done
    ensures |keys - (done + {key})| < |keys - done|
  {
    assert keys - done == (keys - (done + {key})) + {key};
  }

  class Account {
    var row: Option<Link>
    var objects: map<Key, Bytes>

    /** The row never points at a missing object. */
    predicate Served()
      reads this
    {
      KeyOf(row).Some? ==> KeyOf(row).value in objects
    }

    constructor ()
      ensures Served() && row == None && objects == map[]
    {
      row, objects := None, map[];
    }

    /** The store first, then the row, then exactly the replaced object; a failed cleanup is not an
        error. Whatever fails, the row points at an object that is there. */
    method UploadAvatar(key: Key, version: string, image: Bytes, put: Outcome, commit: Outcome, cleanup: Outcome)
      returns (ok: bool)
      requires Served() && key !in objects && KeyOf(row) != Some(key)
      modifies this
      ensures Served()
      ensures (Stored(row, objects), ok)
           == UploadEffect(Stored(old(row), old(objects)), key, version, image, put, commit, cleanup)
      ensures ok <==> put.Works? && commit.Works?
      ensures row == old(row) ==> objects - {key} == old(objects)
      ensures row != old(row) ==> row == Some(Ours(key, version)) && key in objects && objects[key] == image
    {
      if put.Fails? {
        if put.tookEffect { objects := objects[key := image]; }
        assert objects - {key} == old(objects);
        return false;
      }
      objects := objects[key := image];
      assert objects - {key} == old(objects);
      if commit.Fails? {
        if commit.tookEffect { row := Some(Ours(key, version)); }
        return false;
      }
      var previous := KeyOf(row);
      row := Some(Ours(key, version));
      if previous.Some? && previous.value != key && (cleanup.Works? || cleanup.tookEffect) {
        objects := objects - {previous.value};
      }
      return true;
    }

    method DeleteObject(key: Key, stuck: set<Key>, unsure: set<Key>) returns (failed: bool)
      modifies this`objects
      ensures objects == if key in stuck then old(objects) else old(objects) - {key}
      ensures failed <==> key in stuck || key in unsure
    {
      if key !in stuck { objects := objects - {key}; }
      failed := key in stuck || key in unsure;
    }

    /** Delete the listed keys one by one; one that will not go does not stop the rest. */
    method DeleteKeys(keys: set<Key>, stuck: set<Key>, unsure: set<Key>) returns (failed: bool)
      modifies this`objects
      ensures objects == old(objects) - (keys - stuck)
      ensures failed <==> keys * (stuck + unsure) != {}
    {
      var done: set<Key> := {};
      failed := false;
      while done != keys
        invariant done <= keys && Progress(old(objects), objects, done, stuck, unsure, failed)
        decreases |keys - done|
      {
        var key :| key in keys - done;
        ProgressStep(old(objects), objects, done, stuck, unsure, failed, key);
        var broken := DeleteObject(key, stuck, unsure);
        failed := failed || broken;
        LessToDo(keys, done, key);
        done := done + {key};
      }
    }

    /** `delete_prefix`: page after page, until one cannot be listed. */
    method DeletePrefix(how: Emptying) returns (failed: bool)
      modifies this`objects
      ensures objects == old(objects) - (Listed(how.pages, how.readable) - how.stuck)
      ensures failed <==> how.readable < |how.pages| || Listed(how.pages, how.readable) * (how.stuck + how.unsure) != {}
    {
      failed := false;
      var i := 0;
      while i < |how.pages|
        invariant i <= |how.pages| && i <= how.readable
        invariant objects == old(objects) - (Listed(how.pages, i) - how.stuck)
        invariant failed <==> Listed(how.pages, i) * (how.stuck + how.unsure) != {}
      {
        if i >= how.readable {
          return true;
        }
        var broken := DeleteKeys(how.pages[i], how.stuck, how.unsure);
        failed := failed || broken;
        i := i + 1;
      }
      ListedStays(how.pages, how.readable);
    }

    /** The store is emptied first and the row cleared last. Over all failures: the avatar is
        intact, row and image, if and only if its object was not among those that went. */
    method DeleteAvatar(how: Emptying, commit: Outcome) returns (ok: bool)
      requires Served() && how.Covers(objects.Keys)
      modifies this
      ensures ok <==> how.Complete() && commit.Works?
      ensures objects == old(objects) - how.Removed()
      ensures row == if how.Complete() && commit != Fails(false) then None else old(row)
      ensures ok ==> row == None && objects == map[]
      ensures Served() <==> row != old(row) || KeyOf(row).None? || KeyOf(row).value !in how.Removed()
      ensures KeyOf(old(row)).Some? ==>
        (row == old(row) && Served() <==> KeyOf(old(row)).value !in how.Removed())
    {
      if how.Complete() { CompleteRemovesAll(how, objects.Keys); }
      var versioned := DeletePrefix(how);
      var legacy := DeleteKeys(how.legacy, how.stuck, how.unsure);
      assert objects == old(objects) - how.Removed();
      CompleteByParts(how);
      if versioned || legacy {
        return false;
      }
      if commit.Fails? {
        if commit.tookEffect { row := None; }
        return false;
      }
      row := None;
      return true;
    }
  }

  lemma {:induction false} ListedStays(pages: seq<set<Key>>, n: nat)
    requires n >= |pages|
    ensures Listed(pages, n) == Listed(pages, |pages|)
    decreases n
  {
    if n > |pages| { ListedStays(pages, n - 1); }
  }
}
