/** Sending, said of the committed rows and publications alone: when a message is accepted, what is
    stored of it, and how many there can be. */
module MessageRows {
  import opened Orders
  import opened Uuids
  import opened Octets
  import opened MessageForms
  import opened Messaging

  // ---- publications and counts ---------------------------------------------------------

  predicate HasPublished(directory: seq<Publication>, u: UserId) {
    exists i :: 0 <= i < |directory| && directory[i].user == u
  }

  /** The key of the user's last publication. */
  predicate IsCurrentKey(directory: seq<Publication>, u: UserId, key: Bytes) {
    exists i :: 0 <= i < |directory| && directory[i] == Publication(u, key)
                && forall j :: i < j < |directory| ==> directory[j].user != u
  }

  lemma {:induction false} KeyOnRows(directory: seq<Publication>, u: UserId)
    ensures KeyOf(directory, u).Some? <==> HasPublished(directory, u)
    ensures KeyOf(directory, u).Some? ==> IsCurrentKey(directory, u, KeyOf(directory, u).value)
    decreases |directory|
  {
    if directory != [] {
      var n := |directory| - 1;
      var init := directory[..n];
      KeyOnRows(init, u);
      if directory[n].user == u {
        assert directory[n] == Publication(u, directory[n].signingKey);
      } else if KeyOf(init, u).Some? {
        var i :| 0 <= i < |init| && init[i] == Publication(u, KeyOf(init, u).value)
                 && forall j :: i < j < |init| ==> init[j].user != u;
        assert directory[i] == init[i];
        assert forall j :: i < j < n ==> directory[j] == init[j];
      }
    }
  }

  /** A user has one current key. */
  lemma CurrentKeyIsOne(directory: seq<Publication>, u: UserId, key: Bytes)
    ensures IsCurrentKey(directory, u, key) <==> KeyOf(directory, u) == Some(key)
  {
    KeyOnRows(directory, u);
    if IsCurrentKey(directory, u, key) {
      var i :| 0 <= i < |directory| && directory[i] == Publication(u, key)
               && forall j :: i < j < |directory| ==> directory[j].user != u;
      var current := KeyOf(directory, u).value;
      var k :| 0 <= k < |directory| && directory[k] == Publication(u, current)
               && forall j :: k < j < |directory| ==> directory[j].user != u;
      assert i == k;
    }
  }

  function SentIn(rows: seq<Row>, u: UserId, from: Instant, to: Instant): set<nat> {
    set i: nat | i < |rows| && rows[i].sender == u && rows[i].createdAt >= from && rows[i].createdAt <= to
  }

  function SentFrom(rows: seq<Row>, u: UserId, from: Instant): set<nat> {
    set i: nat | i < |rows| && rows[i].sender == u && rows[i].createdAt >= from
  }

  function With(rows: seq<Row>, u: UserId): set<nat> {
    set i: nat | i < |rows| && (rows[i].recipient == u || rows[i].sender == u)
  }

  lemma {:induction false} SentInCounts(rows: seq<Row>, u: UserId, from: Instant, to: Instant)
    ensures SentWithin(rows, u, from, to) == |SentIn(rows, u, from, to)|
    decreases |rows|
  {
    if rows != [] {
      var n := |rows| - 1;
      var counts := rows[n].sender == u && from <= rows[n].createdAt <= to;
      var init := rows[..n];
      SentInCounts(init, u, from, to);
      assert forall i :: 0 <= i < n ==> init[i] == rows[i];
      if counts {
        assert SentIn(rows, u, from, to) == SentIn(init, u, from, to) + {n};
      } else {
        assert SentIn(rows, u, from, to) == SentIn(init, u, from, to);
      }
    }
  }

  lemma {:induction false} SentFromCounts(rows: seq<Row>, u: UserId, from: Instant)
    ensures SentSince(rows, u, from) == |SentFrom(rows, u, from)|
    decreases |rows|
  {
    if rows != [] {
      var n := |rows| - 1;
      var counts := rows[n].sender == u && from <= rows[n].createdAt;
      var init := rows[..n];
      SentFromCounts(init, u, from);
      assert forall i :: 0 <= i < n ==> init[i] == rows[i];
      if counts {
        assert SentFrom(rows, u, from) == SentFrom(init, u, from) + {n};
      } else {
        assert SentFrom(rows, u, from) == SentFrom(init, u, from);
      }
    }
  }

  lemma {:induction false} WithCounts(rows: seq<Row>, u: UserId)
    ensures Total(rows, u) == |With(rows, u)|
    decreases |rows|
  {
    if rows != [] {
      var n := |rows| - 1;
      var counts := rows[n].sender == u || rows[n].recipient == u;
      var init := rows[..n];
      WithCounts(init, u);
      assert forall i :: 0 <= i < n ==> init[i] == rows[i];
      if counts {
        assert With(rows, u) == With(init, u) + {n};
      } else {
        assert With(rows, u) == With(init, u);
      }
    }
  }

  // ---- when a send is accepted ---------------------------------------------------------

  /** A plain text passes unless both have published; an envelope needs a signature over its
      commitment and nonce that verifies under the sender's current key. */
  ghost predicate KeysAllow(verify: Verifier, directory: seq<Publication>, send: Send) {
    match send.content
    case Plain(_) => !(HasPublished(directory, send.sender) && HasPublished(directory, send.recipient))
    case Sealed(e) =>
      exists key :: IsCurrentKey(directory, send.sender, key) && |key| == 32
        && |e.frankingCommitment| == 32 && |e.frankingSignature| == 64
        && verify(e.frankingSignature, key, e.frankingCommitment, send.nonce)
  }

  predicate UnderNonce(rows: seq<Row>, send: Send, i: nat) {
    i < |rows| && rows[i].clientNonce == send.nonce && rows[i].sender == send.sender
  }

  /** A stored row answers a retry to the same recipient in the same form, with the same plain text. */
  predicate Answers(row: Row, send: Send) {
    && row.recipient == send.recipient
    && row.body == if send.content.Plain? then Some(send.content.body) else None
  }

  lemma KeysOnRows(verify: Verifier, directory: seq<Publication>, send: Send)
    ensures var key := KeyToRecord(verify, directory, send);
      && (key.Ok? <==> KeysAllow(verify, directory, send))
      && (key.Err? ==> key.error == BadRequest)
      && (key.Ok? && send.content.Plain? ==> key.value == None)
      && (key.Ok? && send.content.Sealed? ==>
            key.value.Some? && IsCurrentKey(directory, send.sender, key.value.value))
  {
    KeyOnRows(directory, send.sender);
    KeyOnRows(directory, send.recipient);
    if send.content.Sealed? {
      forall key: Bytes
        ensures IsCurrentKey(directory, send.sender, key) <==> KeyOf(directory, send.sender) == Some(key)
      {
        CurrentKeyIsOne(directory, send.sender, key);
      }
    }
  }

  /** How a send that holds its locks ends, in every case. */
  lemma SendDecided(verify: Verifier, directory: seq<Publication>, rows: seq<Row>, send: Send)
    ensures var end := Decide(verify, directory, rows, send);
      var late := |SentFrom(rows, send.sender, send.startedAt - 60_000_000)| >= 30
               || |SentFrom(rows, send.sender, send.startedAt - 86_400_000_000)| >= 500;
      var full := |With(rows, send.sender)| >= 100_000 || |With(rows, send.recipient)| >= 100_000;
      if !KeysAllow(verify, directory, send) then end == Refused(BadRequest)
      else if exists i: nat :: UnderNonce(rows, send, i) then
        exists i: nat :: UnderNonce(rows, send, i)
                    && end == if Answers(rows[i], send) then Replayed(i) else Refused(Conflict)
      else end == if late then Refused(TooManyRequests) else if full then Refused(Conflict) else Stored(|rows|)
  {
    KeysOnRows(verify, directory, send);
    SentFromCounts(rows, send.sender, send.startedAt - MINUTE);
    SentFromCounts(rows, send.sender, send.startedAt - DAY);
    WithCounts(rows, send.sender);
    WithCounts(rows, send.recipient);
    if NonceUsed(rows, send.sender, send.nonce) {
      assert UnderNonce(rows, send, FindNonce(rows, send.sender, send.nonce));
    }
  }

  // ---- every row of every run ----------------------------------------------------------

  /** The request a send began with. */
  predicate BeganWith(alphabet: Alphabet, event: Event, t: SendId, send: Send) {
    && event.Begin? && event.t == t
    && event.sender == send.sender && event.recipient == send.recipient && event.now == send.startedAt
    && event.request.clientNonce == send.nonce && Validate(alphabet, event.request) == Some(send.content)
  }

  /** The same request, perhaps further on. */
  predicate SameRequest(a: Send, b: Send) {
    b == a.(phase := b.phase, signingKey := b.signingKey, seen := b.seen)
  }

  lemma CheckKeysKeepsRequest(verify: Verifier, s: State, t: SendId)
    requires t in s.sends
    ensures var s' := CheckKeys(verify, s, t);
      t in s'.sends && SameRequest(s.sends[t], s'.sends[t]) && s'.sends == s.sends[t := s'.sends[t]]
  {
  }

  lemma StepKeepsRequest(verify: Verifier, s: State, t: SendId)
    requires t in s.sends && s.sends[t].Active() && !Waits(s, t)
    ensures var s' := Step(verify, s, t);
      t in s'.sends && SameRequest(s.sends[t], s'.sends[t]) && s'.sends == s.sends[t := s'.sends[t]]
  {
    if s.sends[t].phase.BothLocks? { CheckKeysKeepsRequest(verify, s, t); }
  }

  lemma SendKeepsItsRequest(
      alphabet: Alphabet, verify: Verifier, s: State, event: Event, t: SendId, begin: Event)
    requires t in s.sends && BeganWith(alphabet, begin, t, s.sends[t])
    ensures var s' := Apply(alphabet, verify, s, event);
      t in s'.sends && BeganWith(alphabet, begin, t, s'.sends[t])
  {
    if event.Advance? && event.t in s.sends && s.sends[event.t].Active() && !Waits(s, event.t) {
      StepKeepsRequest(verify, s, event.t);
    }
  }

  lemma {:induction false} EverySendBegan(alphabet: Alphabet, verify: Verifier, events: seq<Event>, t: SendId)
      returns (k: nat)
    requires t in Run(alphabet, verify, events).sends
    ensures k < |events| && BeganWith(alphabet, events[k], t, Run(alphabet, verify, events).sends[t])
    decreases |events|
  {
    var n := |events| - 1;
    var before := Run(alphabet, verify, events[..n]);
    if t in before.sends {
      k := EverySendBegan(alphabet, verify, events[..n], t);
      SendKeepsItsRequest(alphabet, verify, before, events[n], t, events[k]);
    } else {
      k := n;
    }
  }

  /** The row a request asks for, at the time it was made, with the key its signature verifies under. */
  ghost predicate StoredFor(
      alphabet: Alphabet, verify: Verifier, directory: seq<Publication>, begin: Event, t: SendId, r: Row) {
    && begin.Begin? && begin.t == t && Records(alphabet, begin.request, r)
    && r.sender == begin.sender && r.recipient == begin.recipient && r.createdAt == begin.now
    && exists n :: 0 <= n <= |directory| && KeyRecorded(verify, directory[..n], r)
  }

  /** A plain row records no key and is of a pair of which one had not published; an encrypted row
      records the sender's current key, and its signature verifies under it. */
  ghost predicate KeyRecorded(verify: Verifier, directory: seq<Publication>, r: Row) {
    if r.body.Some? then
      r.senderSigningKey.None? && !(HasPublished(directory, r.sender) && HasPublished(directory, r.recipient))
    else
      && r.senderSigningKey.Some? && IsCurrentKey(directory, r.sender, r.senderSigningKey.value)
      && r.frankingCommitment.Some? && r.frankingSignature.Some?
      && verify(r.frankingSignature.value, r.senderSigningKey.value, r.frankingCommitment.value, r.clientNonce)
  }

  /** Every row of every run is the row of the request its send began with. */
  lemma RowsAreRequests(alphabet: Alphabet, verify: Verifier, events: seq<Event>, i: nat)
    requires i < |Run(alphabet, verify, events).rows|
    ensures var s := Run(alphabet, verify, events);
      && |s.origins| == |s.rows|
      && exists k :: 0 <= k < |events| && StoredFor(alphabet, verify, s.directory, events[k], s.origins[i], s.rows[i])
  {
    RunKeeps(alphabet, verify, events);
    var s := Run(alphabet, verify, events);
    assert RowInv(s, i);
    var t := s.origins[i];
    var k := EverySendBegan(alphabet, verify, events, t);
    var send := s.sends[t];
    AcceptedRequestsAreRecorded(alphabet, events[k].request, send.sender, send.recipient, send.signingKey,
        send.startedAt);
    StoredKey(verify, s, i);
  }

  lemma StoredKey(verify: Verifier, s: State, i: nat)
    requires Inv(verify, s) && i < |s.rows|
    ensures exists n :: 0 <= n <= |s.directory| && KeyRecorded(verify, s.directory[..n], s.rows[i])
  {
    assert RowInv(s, i);
    var send := s.sends[s.origins[i]];
    assert SendInv(verify, s, s.origins[i]);
    KeyOnRows(s.directory[..send.seen], send.sender);
    KeyOnRows(s.directory[..send.seen], send.recipient);
    assert KeyRecorded(verify, s.directory[..send.seen], s.rows[i]);
  }

  /** A publication becomes the user's current key, whatever else is under way, and no one else's. */
  lemma PublicationsCount(
      alphabet: Alphabet, verify: Verifier, events: seq<Event>, u: UserId, key: Bytes, v: UserId, other: Bytes)
    requires |key| == 32
    ensures var s, s' := Run(alphabet, verify, events), Run(alphabet, verify, events + [Publish(u, key)]);
      && IsCurrentKey(s'.directory, u, key)
      && (v != u ==> (IsCurrentKey(s'.directory, v, other) <==> IsCurrentKey(s.directory, v, other)))
      && s'.rows == s.rows && s'.sends == s.sends
  {
    var s := Run(alphabet, verify, events);
    var after := s.directory + [Publication(u, key)];
    assert (events + [Publish(u, key)])[..|events|] == events;
    assert after[..|s.directory|] == s.directory;
    CurrentKeyIsOne(after, u, key);
    CurrentKeyIsOne(after, v, other);
    CurrentKeyIsOne(s.directory, v, other);
  }

  /** Any send may fail at any point of any run: it ends with the error, holds no lock and has stored
      nothing. */
  lemma FailuresCount(alphabet: Alphabet, verify: Verifier, events: seq<Event>, t: SendId, error: Error)
    requires var s := Run(alphabet, verify, events); t in s.sends && s.sends[t].Active()
    ensures var s, s' := Run(alphabet, verify, events), Run(alphabet, verify, events + [Abandon(t, error)]);
      && s'.sends == s.sends[t := s.sends[t].(phase := Refused(error))] && s'.rows == s.rows
      && forall u :: u in s'.locks <==> u in s.locks && s.locks[u] != t
  {
    assert (events + [Abandon(t, error)])[..|events|] == events;
  }

  /** In every run a sender has one row under a nonce, at most 30 rows created in any closed minute and
      500 in any closed day, and no user is in more than 100,000. */
  lemma LimitsOnRows(
      alphabet: Alphabet, verify: Verifier, events: seq<Event>, u: UserId, from: Instant, to: Instant)
    ensures var rows := Run(alphabet, verify, events).rows;
      && (forall i, j :: 0 <= i < j < |rows| && rows[i].sender == rows[j].sender ==>
            rows[i].clientNonce != rows[j].clientNonce)
      && (to - from <= 60_000_000 ==> |SentIn(rows, u, from, to)| <= 30)
      && (to - from <= 86_400_000_000 ==> |SentIn(rows, u, from, to)| <= 500)
      && |With(rows, u)| <= 100_000
  {
    var rows := Run(alphabet, verify, events).rows;
    EveryRunIsWithinLimits(alphabet, verify, events, u, from, to);
    SentInCounts(rows, u, from, to);
    WithCounts(rows, u);
  }
}
