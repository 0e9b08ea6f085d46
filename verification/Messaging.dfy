/** Direct messages: any number of sends, key publications and failures, interleaved step by
    step. A send takes the social locks of its two participants in id order and holds them to
    its end; a row's `createdAt` is the start of its transaction, so rows may be committed out of
    time order. */
module Messaging {
  import opened Orders
  import opened Uuids
  import opened Octets
  import opened MessageForms

  type UserId = Uuid
  type SendId = nat
  type Instant = int // microseconds

  const MAX_MESSAGES_PER_MINUTE := 30
  const MAX_MESSAGES_PER_DAY := 500
  const MAX_DIRECT_MESSAGES_PER_USER := 100_000
  const MINUTE := 60_000_000
  const DAY := 86_400_000_000

  datatype Error = BadRequest | NotFound | Forbidden | Conflict | TooManyRequests | Internal

  /** Signature, key, commitment and client nonce; deterministic. */
  type Verifier = (Bytes, Bytes, Bytes, Uuid) -> bool

  predicate VerifySignature(verify: Verifier, commitment: Bytes, signature: Bytes, key: Bytes, nonce: Uuid) {
    |commitment| == 32 && |signature| == 64 && |key| == 32 && verify(signature, key, commitment, nonce)
  }

  /** The committed publications, oldest first; a later one replaces the earlier. */
  datatype Publication = Publication(user: UserId, signingKey: Bytes)

  function KeyOf(directory: seq<Publication>, u: UserId): Option<Bytes> {
    if directory == [] then None
    else if directory[|directory| - 1].user == u then Some(directory[|directory| - 1].signingKey)
    else KeyOf(directory[..|directory| - 1], u)
  }

  predicate BothPublished(directory: seq<Publication>, a: UserId, b: UserId) {
    KeyOf(directory, a).Some? && KeyOf(directory, b).Some?
  }

  datatype Phase =
    | Opening | OneLock | BothLocks | KeyChecked | NonceFresh | Counted
    | Stored(at: nat) | Replayed(at: nat) | Refused(error: Error)

  /** `seen` is how many publications had been committed when the keys were checked. */
  datatype Send = Send(
    sender: UserId, recipient: UserId, nonce: Uuid, content: Content, startedAt: Instant,
    phase: Phase, signingKey: Option<Bytes>, seen: nat) {

    function Low(): UserId { if sender <= recipient then sender else recipient }

    function High(): UserId { if sender <= recipient then recipient else sender }

    predicate Active() {
      !phase.Stored? && !phase.Replayed? && !phase.Refused?
    }

    predicate Holds(u: UserId) {
      Active() && ((u == Low() && !phase.Opening?) || (u == High() && !phase.Opening? && !phase.OneLock?))
    }

    function RowToStore(): Row {
      NewRow(sender, recipient, nonce, content, signingKey, startedAt)
    }
  }

  /** `origins[i]` is the send that stored `rows[i]`. */
  datatype State = State(
    directory: seq<Publication>, rows: seq<Row>, origins: seq<SendId>, sends: map<SendId, Send>,
    locks: map<UserId, SendId>)

  datatype Event =
    | Publish(user: UserId, signingKey: Bytes)
    | Begin(t: SendId, sender: UserId, recipient: UserId, request: SendRequest, now: Instant)
    | Advance(t: SendId)
    | Abandon(t: SendId, error: Error)

  // ---- queries -------------------------------------------------------------------------

  /** Rows of `sender` created in a closed span. */
  function SentWithin(rows: seq<Row>, sender: UserId, from: Instant, to: Instant): nat {
    if rows == [] then 0
    else
      var r := rows[|rows| - 1];
      SentWithin(rows[..|rows| - 1], sender, from, to)
      + if r.sender == sender && from <= r.createdAt <= to then 1 else 0
  }

  /** The query has no upper bound: rows of later starts that committed first count too. */
  function SentSince(rows: seq<Row>, sender: UserId, from: Instant): nat {
    if rows == [] then 0
    else
      var r := rows[|rows| - 1];
      SentSince(rows[..|rows| - 1], sender, from) + if r.sender == sender && from <= r.createdAt then 1 else 0
  }

  function Total(rows: seq<Row>, u: UserId): nat {
    if rows == [] then 0
    else
      var r := rows[|rows| - 1];
      Total(rows[..|rows| - 1], u) + if r.sender == u || r.recipient == u then 1 else 0
  }

  predicate NonceUsed(rows: seq<Row>, sender: UserId, nonce: Uuid) {
    exists i :: 0 <= i < |rows| && rows[i].sender == sender && rows[i].clientNonce == nonce
  }

  function FindNonce(rows: seq<Row>, sender: UserId, nonce: Uuid): (i: nat)
    requires NonceUsed(rows, sender, nonce)
    ensures i < |rows| && rows[i].sender == sender && rows[i].clientNonce == nonce
  {
    var last := |rows| - 1;
    if rows[last].sender == sender && rows[last].clientNonce == nonce then last
    else FindNonce(rows[..last], sender, nonce)
  }

  /** The two forms match, and plain bodies are equal; ciphertexts cannot be compared. */
  predicate SameContent(stored: Row, content: Content) {
    match content
    case Plain(body) => stored.body == Some(body)
    case Sealed(_) => stored.body.None?
  }

  predicate WithinLimits(rows: seq<Row>, send: Send) {
    && SentSince(rows, send.sender, send.startedAt - MINUTE) < MAX_MESSAGES_PER_MINUTE
    && SentSince(rows, send.sender, send.startedAt - DAY) < MAX_MESSAGES_PER_DAY
  }

  predicate HasRoom(rows: seq<Row>, send: Send) {
    && Total(rows, send.sender) + 1 <= MAX_DIRECT_MESSAGES_PER_USER
    && Total(rows, send.recipient) + 1 <= MAX_DIRECT_MESSAGES_PER_USER
  }

  // ---- the protocol --------------------------------------------------------------------

  predicate Waits(s: State, t: SendId)
    requires t in s.sends
  {
    var send := s.sends[t];
    || (send.phase.Opening? && send.Low() in s.locks)
    || (send.phase.OneLock? && send.High() in s.locks)
  }

  /** End a send and release its locks. */
  function End(s: State, t: SendId, phase: Phase): State
    requires t in s.sends
  {
    s.(sends := s.sends[t := s.sends[t].(phase := phase)],
       locks := map u | u in s.locks && s.locks[u] != t :: s.locks[u])
  }

  function Lock(s: State, t: SendId, u: UserId, phase: Phase): State
    requires t in s.sends
  {
    s.(sends := s.sends[t := s.sends[t].(phase := phase)], locks := s.locks[u := t])
  }

  function CheckKeys(verify: Verifier, s: State, t: SendId): State
    requires t in s.sends
  {
    var send := s.sends[t];
    match send.content
    case Plain(_) =>
      if BothPublished(s.directory, send.sender, send.recipient) then End(s, t, Refused(BadRequest))
      else s.(sends := s.sends[t := send.(phase := KeyChecked, signingKey := None, seen := |s.directory|)])
    case Sealed(e) =>
      match KeyOf(s.directory, send.sender)
      case None => End(s, t, Refused(BadRequest))
      case Some(key) =>
        if !VerifySignature(verify, e.frankingCommitment, e.frankingSignature, key, send.nonce) then
          End(s, t, Refused(BadRequest))
        else s.(sends := s.sends[t := send.(phase := KeyChecked, signingKey := Some(key), seen := |s.directory|)])
  }

  function CheckNonce(s: State, t: SendId): State
    requires t in s.sends
  {
    var send := s.sends[t];
    if !NonceUsed(s.rows, send.sender, send.nonce) then s.(sends := s.sends[t := send.(phase := NonceFresh)])
    else
      var i := FindNonce(s.rows, send.sender, send.nonce);
      if s.rows[i].recipient != send.recipient || !SameContent(s.rows[i], send.content) then
        End(s, t, Refused(Conflict))
      else End(s, t, Replayed(i))
  }

  function CheckLimits(s: State, t: SendId): State
    requires t in s.sends
  {
    var send := s.sends[t];
    if !WithinLimits(s.rows, send) then End(s, t, Refused(TooManyRequests))
    else if !HasRoom(s.rows, send) then End(s, t, Refused(Conflict))
    else s.(sends := s.sends[t := send.(phase := Counted)])
  }

  function Store(s: State, t: SendId): State
    requires t in s.sends
  {
    End(s, t, Stored(|s.rows|)).(rows := s.rows + [s.sends[t].RowToStore()], origins := s.origins + [t])
  }

  function Step(verify: Verifier, s: State, t: SendId): State
    requires t in s.sends && s.sends[t].Active() && !Waits(s, t)
  {
    match s.sends[t].phase
    case Opening => Lock(s, t, s.sends[t].Low(), OneLock)
    case OneLock => Lock(s, t, s.sends[t].High(), BothLocks)
    case BothLocks => CheckKeys(verify, s, t)
    case KeyChecked => CheckNonce(s, t)
    case NonceFresh => CheckLimits(s, t)
    case _ => Store(s, t)
  }

  function Apply(alphabet: Alphabet, verify: Verifier, s: State, event: Event): State {
    match event
    case Publish(user, key) =>
      if |key| == 32 then s.(directory := s.directory + [Publication(user, key)]) else s
    case Begin(t, sender, recipient, request, now) =>
      if t in s.sends || Validate(alphabet, request).None? || sender == recipient then s
      else
        s.(sends := s.sends[t :=
          Send(sender, recipient, request.clientNonce, Validate(alphabet, request).value, now, Opening, None, 0)])
    case Advance(t) =>
      if t in s.sends && s.sends[t].Active() && !Waits(s, t) then Step(verify, s, t) else s
    case Abandon(t, error) =>
      if t in s.sends && s.sends[t].Active() then End(s, t, Refused(error)) else s
  }

  function Run(alphabet: Alphabet, verify: Verifier, events: seq<Event>): State {
    if events == [] then State([], [], [], map[], map[])
    else Apply(alphabet, verify, Run(alphabet, verify, events[..|events| - 1]), events[|events| - 1])
  }

  // ---- the invariant -------------------------------------------------------------------

  predicate LockInv(s: State, t: SendId)
    requires t in s.sends
  {
    forall u :: s.sends[t].Holds(u) <==> u in s.locks && s.locks[u] == t
  }

  predicate Fits(content: Content) {
    match content
    case Plain(body) => 1 <= |body| <= 2000
    case Sealed(e) =>
      && 16 <= |e.ciphertext| <= 16384 && |e.nonce| == 12 && |e.senderEphemeralKey| == 32
      && |e.senderCopy| == 48 && |e.frankingCommitment| == 32 && |e.frankingSignature| == 64
  }

  /** What the key check established, at the time it ran. */
  predicate KeysChecked(verify: Verifier, directory: seq<Publication>, send: Send) {
    && send.seen <= |directory|
    && match send.content
       case Plain(_) => send.signingKey.None? && !BothPublished(directory[..send.seen], send.sender, send.recipient)
       case Sealed(e) =>
         && send.signingKey.Some?
         && send.signingKey == KeyOf(directory[..send.seen], send.sender)
         && VerifySignature(verify, e.frankingCommitment, e.frankingSignature, send.signingKey.value, send.nonce)
  }

  predicate SendInv(verify: Verifier, s: State, t: SendId)
    requires t in s.sends
  {
    var send := s.sends[t];
    && send.sender != send.recipient && Fits(send.content)
    && (send.phase.KeyChecked? || send.phase.NonceFresh? || send.phase.Counted? || send.phase.Stored? ==>
          KeysChecked(verify, s.directory, send))
    && (send.phase.NonceFresh? || send.phase.Counted? ==> !NonceUsed(s.rows, send.sender, send.nonce))
    && (send.phase.Counted? ==> WithinLimits(s.rows, send) && HasRoom(s.rows, send))
    && (send.phase.Stored? ==>
          send.phase.at < |s.rows| == |s.origins| && s.rows[send.phase.at] == send.RowToStore()
          && s.origins[send.phase.at] == t)
  }

  predicate RowInv(s: State, i: nat)
    requires i < |s.rows| == |s.origins|
  {
    s.origins[i] in s.sends && s.sends[s.origins[i]].phase == Stored(i)
    && s.rows[i] == s.sends[s.origins[i]].RowToStore()
  }

  predicate UniqueNonces(rows: seq<Row>) {
    forall i, j :: 0 <= i < j < |rows| ==>
        rows[i].sender != rows[j].sender || rows[i].clientNonce != rows[j].clientNonce
  }

  ghost predicate WithinWindows(rows: seq<Row>, u: UserId) {
    && (forall from: Instant, to: Instant :: to <= from + MINUTE ==>
        SentWithin(rows, u, from, to) <= MAX_MESSAGES_PER_MINUTE)
    && (forall from: Instant, to: Instant :: to <= from + DAY ==> SentWithin(rows, u, from, to) <= MAX_MESSAGES_PER_DAY)
  }

  predicate WithinCap(rows: seq<Row>, u: UserId) {
    Total(rows, u) <= MAX_DIRECT_MESSAGES_PER_USER
  }

  predicate Inv(verify: Verifier, s: State) {
    && |s.origins| == |s.rows|
    && (forall u :: u in s.locks ==> s.locks[u] in s.sends)
    && (forall t :: t in s.sends ==> LockInv(s, t))
    && (forall t :: t in s.sends ==> SendInv(verify, s, t))
    && (forall i :: 0 <= i < |s.rows| ==> RowInv(s, i))
    && UniqueNonces(s.rows)
  }

  ghost predicate Limited(rows: seq<Row>) {
    forall u: UserId :: WithinWindows(rows, u) && WithinCap(rows, u)
  }

  // ---- counting ------------------------------------------------------------------------

  lemma {:induction false} WithinAtMostSince(rows: seq<Row>, u: UserId, from: Instant, to: Instant, since: Instant)
    requires since <= from
    ensures SentWithin(rows, u, from, to) <= SentSince(rows, u, since)
    decreases |rows|
  {
    if rows != [] { WithinAtMostSince(rows[..|rows| - 1], u, from, to, since); }
  }

  lemma CountsAfter(rows: seq<Row>, r: Row)
    ensures forall u: UserId, from: Instant, to: Instant ::
      (SentWithin(rows + [r], u, from, to)
       == SentWithin(rows, u, from, to) + if r.sender == u && from <= r.createdAt <= to then 1 else 0)
    ensures forall u: UserId, from: Instant ::
      (SentSince(rows + [r], u, from)
       == SentSince(rows, u, from) + (if r.sender == u && from <= r.createdAt then 1 else 0))
    ensures forall u: UserId ::
      (Total(rows + [r], u) == Total(rows, u) + if r.sender == u || r.recipient == u then 1 else 0)
  {
    assert (rows + [r])[..|rows|] == rows;
  }

  /** The row committed last into a window met every other row of that window when it counted:
      out-of-order starts cannot slip an extra message in. */
  lemma StoreKeepsLimits(rows: seq<Row>, send: Send)
    requires Limited(rows) && WithinLimits(rows, send) && HasRoom(rows, send)
    ensures Limited(rows + [send.RowToStore()])
  {
    var r := send.RowToStore();
    var rows' := rows + [r];
    CountsAfter(rows, r);
    forall u: UserId ensures WithinWindows(rows', u) && WithinCap(rows', u) {
      assert WithinWindows(rows, u) && WithinCap(rows, u);
      forall from: Instant, to: Instant | to <= from + MINUTE
        ensures SentWithin(rows', u, from, to) <= MAX_MESSAGES_PER_MINUTE
      {
        if u == r.sender && from <= r.createdAt <= to {
          WithinAtMostSince(rows, u, from, to, send.startedAt - MINUTE);
        }
      }
      forall from: Instant, to: Instant | to <= from + DAY
        ensures SentWithin(rows', u, from, to) <= MAX_MESSAGES_PER_DAY
      {
        if u == r.sender && from <= r.createdAt <= to {
          WithinAtMostSince(rows, u, from, to, send.startedAt - DAY);
        }
      }
    }
  }

  // ---- every event keeps the invariant -------------------------------------------------

  /** A step that touches only send `t`, short of storing, leaves the others' facts alone. */
  lemma PhaseKeeps(verify: Verifier, s: State, s': State, t: SendId)
    requires Inv(verify, s) && t in s.sends && s.sends[t].Active()
    requires s'.directory == s.directory && s'.rows == s.rows && s'.origins == s.origins
    requires t in s'.sends && s'.sends == s.sends[t := s'.sends[t]] && !s'.sends[t].phase.Stored?
    requires LockInv(s', t) && SendInv(verify, s', t)
    requires forall u :: u in s'.locks && s'.locks[u] != t <==> u in s.locks && s.locks[u] != t
    requires forall u :: u in s.locks && s.locks[u] != t ==> s'.locks[u] == s.locks[u]
    ensures Inv(verify, s')
  {
    forall o | o in s'.sends ensures LockInv(s', o) && SendInv(verify, s', o) {
      if o != t { assert LockInv(s, o) && SendInv(verify, s, o); }
    }
    forall i | 0 <= i < |s'.rows| ensures RowInv(s', i) {
      assert RowInv(s, i);
    }
  }

  lemma EndKeeps(verify: Verifier, s: State, t: SendId, phase: Phase)
    requires Inv(verify, s) && t in s.sends && s.sends[t].Active()
    requires phase.Replayed? || phase.Refused?
    ensures Inv(verify, End(s, t, phase))
  {
    assert SendInv(verify, s, t);
    PhaseKeeps(verify, s, End(s, t, phase), t);
  }

  lemma LockKeeps(verify: Verifier, s: State, t: SendId)
    requires Inv(verify, s) && t in s.sends && !Waits(s, t) && (s.sends[t].phase.Opening? || s.sends[t].phase.OneLock?)
    ensures Inv(verify, Step(verify, s, t))
  {
    var s' := Step(verify, s, t);
    assert LockInv(s, t) && SendInv(verify, s, t);
    PhaseKeeps(verify, s, s', t);
  }

  lemma CheckKeysKeeps(verify: Verifier, s: State, t: SendId)
    requires Inv(verify, s) && t in s.sends && s.sends[t].phase.BothLocks?
    ensures Inv(verify, CheckKeys(verify, s, t))
  {
    var s' := CheckKeys(verify, s, t);
    assert LockInv(s, t) && SendInv(verify, s, t);
    if s'.sends[t].phase.Refused? {
      EndKeeps(verify, s, t, s'.sends[t].phase);
    } else {
      assert s.directory[..|s.directory|] == s.directory;
      PhaseKeeps(verify, s, s', t);
    }
  }

  lemma CheckNonceKeeps(verify: Verifier, s: State, t: SendId)
    requires Inv(verify, s) && t in s.sends && s.sends[t].phase.KeyChecked?
    ensures Inv(verify, CheckNonce(s, t))
  {
    var s' := CheckNonce(s, t);
    assert LockInv(s, t) && SendInv(verify, s, t);
    if s'.sends[t].phase.NonceFresh? {
      PhaseKeeps(verify, s, s', t);
    } else {
      EndKeeps(verify, s, t, s'.sends[t].phase);
    }
  }

  lemma CheckLimitsKeeps(verify: Verifier, s: State, t: SendId)
    requires Inv(verify, s) && t in s.sends && s.sends[t].phase.NonceFresh?
    ensures Inv(verify, CheckLimits(s, t))
  {
    if !WithinLimits(s.rows, s.sends[t]) {
      EndKeeps(verify, s, t, Refused(TooManyRequests));
    } else if !HasRoom(s.rows, s.sends[t]) {
      EndKeeps(verify, s, t, Refused(Conflict));
    } else {
      CountedKeeps(verify, s, t);
    }
  }

  lemma CountedKeeps(verify: Verifier, s: State, t: SendId)
    requires Inv(verify, s) && t in s.sends && s.sends[t].phase.NonceFresh?
    requires WithinLimits(s.rows, s.sends[t]) && HasRoom(s.rows, s.sends[t])
    ensures Inv(verify, s.(sends := s.sends[t := s.sends[t].(phase := Counted)]))
  {
    assert LockInv(s, t) && SendInv(verify, s, t);
    PhaseKeeps(verify, s, s.(sends := s.sends[t := s.sends[t].(phase := Counted)]), t);
  }

  /** Two sends that hold their locks share no participant. */
  lemma HoldersAreApart(verify: Verifier, s: State, t: SendId, o: SendId)
    requires Inv(verify, s) && t in s.sends && o in s.sends && t != o
    requires s.sends[t].Active() && !s.sends[t].phase.Opening? && !s.sends[t].phase.OneLock?
    requires s.sends[o].Active() && !s.sends[o].phase.Opening? && !s.sends[o].phase.OneLock?
    ensures {s.sends[t].sender, s.sends[t].recipient} !! {s.sends[o].sender, s.sends[o].recipient}
  {
    assert LockInv(s, t) && LockInv(s, o);
    var a, b := s.sends[t], s.sends[o];
    assert a.Holds(a.sender) && a.Holds(a.recipient) && b.Holds(b.sender) && b.Holds(b.recipient);
  }

  /** What a send has counted under its locks is still true after another stores. */
  lemma StoreKeepsOther(verify: Verifier, s: State, t: SendId, o: SendId)
    requires Inv(verify, s) && t in s.sends && o in s.sends && t != o && s.sends[t].phase.Counted?
    ensures SendInv(verify, Store(s, t), o)
  {
    assert SendInv(verify, s, o);
    var send, other := s.sends[t], s.sends[o];
    if other.phase.NonceFresh? || other.phase.Counted? {
      HoldersAreApart(verify, s, t, o);
      CountsAfter(s.rows, send.RowToStore());
    }
  }

  lemma StoreKeeps(verify: Verifier, s: State, t: SendId)
    requires Inv(verify, s) && t in s.sends && s.sends[t].phase.Counted?
    ensures Inv(verify, Store(s, t))
  {
    var s' := Store(s, t);
    assert LockInv(s, t) && SendInv(verify, s, t);
    forall o | o in s'.sends ensures LockInv(s', o) && SendInv(verify, s', o) {
      assert LockInv(s, o);
      if o != t { StoreKeepsOther(verify, s, t, o); }
    }
    forall i | 0 <= i < |s'.rows| ensures RowInv(s', i) {
      if i < |s.rows| { assert RowInv(s, i); }
    }
  }

  lemma PublishKeeps(verify: Verifier, s: State, p: Publication)
    requires Inv(verify, s)
    ensures Inv(verify, s.(directory := s.directory + [p]))
  {
    var s' := s.(directory := s.directory + [p]);
    forall t | t in s'.sends ensures LockInv(s', t) && SendInv(verify, s', t) {
      assert LockInv(s, t) && SendInv(verify, s, t);
      var n := s.sends[t].seen;
      assert n <= |s.directory| ==> s'.directory[..n] == s.directory[..n];
    }
    forall i | 0 <= i < |s'.rows| ensures RowInv(s', i) {
      assert RowInv(s, i);
    }
  }

  lemma BeginKeeps(alphabet: Alphabet, verify: Verifier, s: State, event: Event)
    requires Inv(verify, s) && event.Begin?
    ensures Inv(verify, Apply(alphabet, verify, s, event))
  {
    var s' := Apply(alphabet, verify, s, event);
    forall t | t in s'.sends ensures LockInv(s', t) && SendInv(verify, s', t) {
      if t in s.sends { assert LockInv(s, t) && SendInv(verify, s, t); }
    }
    forall i | 0 <= i < |s'.rows| ensures RowInv(s', i) {
      assert RowInv(s, i);
    }
  }

  lemma ApplyKeeps(alphabet: Alphabet, verify: Verifier, s: State, event: Event)
    requires Inv(verify, s)
    ensures Inv(verify, Apply(alphabet, verify, s, event))
  {
    match event
    case Publish(user, key) => PublishKeeps(verify, s, Publication(user, key));
    case Begin(_, _, _, _, _) => BeginKeeps(alphabet, verify, s, event);
    case Abandon(t, error) => if t in s.sends && s.sends[t].Active() { EndKeeps(verify, s, t, Refused(error)); }
    case Advance(t) =>
      if t in s.sends && s.sends[t].Active() && !Waits(s, t) { StepKeeps(verify, s, t); }
  }

  lemma StepKeeps(verify: Verifier, s: State, t: SendId)
    requires Inv(verify, s) && t in s.sends && s.sends[t].Active() && !Waits(s, t)
    ensures Inv(verify, Step(verify, s, t))
  {
    match s.sends[t].phase
    case BothLocks => CheckKeysKeeps(verify, s, t);
    case KeyChecked => CheckNonceKeeps(verify, s, t);
    case NonceFresh => CheckLimitsKeeps(verify, s, t);
    case Counted => StoreKeeps(verify, s, t);
    case _ => LockKeeps(verify, s, t);
  }

  /** Rows are only ever appended, and only after their limits were checked. */
  lemma RowsStep(alphabet: Alphabet, verify: Verifier, s: State, event: Event)
    requires Inv(verify, s) && Limited(s.rows)
    ensures Limited(Apply(alphabet, verify, s, event).rows)
  {
    if event.Advance? && event.t in s.sends && s.sends[event.t].phase.Counted? {
      assert SendInv(verify, s, event.t);
      StoreKeepsLimits(s.rows, s.sends[event.t]);
      assert Apply(alphabet, verify, s, event) == Store(s, event.t);
    } else {
      assert Apply(alphabet, verify, s, event).rows == s.rows;
    }
  }

  lemma {:induction false} RunKeeps(alphabet: Alphabet, verify: Verifier, events: seq<Event>)
    ensures Inv(verify, Run(alphabet, verify, events)) && Limited(Run(alphabet, verify, events).rows)
    decreases |events|
  {
    if events != [] {
      var before := events[..|events| - 1];
      RunKeeps(alphabet, verify, before);
      ApplyKeeps(alphabet, verify, Run(alphabet, verify, before), events[|events| - 1]);
      RowsStep(alphabet, verify, Run(alphabet, verify, before), events[|events| - 1]);
    }
  }

  // ---- the theorems --------------------------------------------------------------------

  /** In every run, every stored row has exactly one form; an encrypted row's signature verifies
      under the key recorded in it, which was the sender's own when it was checked, however often
      the sender has rotated since; and no plain row's key check came after both had published. */
  lemma EveryStoredMessage(alphabet: Alphabet, verify: Verifier, events: seq<Event>, i: nat)
    requires i < |Run(alphabet, verify, events).rows|
    ensures var s := Run(alphabet, verify, events); var r := s.rows[i];
      && |s.origins| == |s.rows| && s.origins[i] in s.sends
      && var checked := s.sends[s.origins[i]].seen;
      && checked <= |s.directory|
      && ExactlyOneForm(r)
      && (r.body.None? ==>
            r.senderSigningKey.Some?
            && VerifySignature(verify, r.frankingCommitment.value, r.frankingSignature.value, r.senderSigningKey.value,
                r.clientNonce)
            && KeyOf(s.directory[..checked], r.sender) == r.senderSigningKey)
      && (r.body.Some? ==> r.senderSigningKey.None? && !BothPublished(s.directory[..checked], r.sender, r.recipient))
  {
    RunKeeps(alphabet, verify, events);
    var s := Run(alphabet, verify, events);
    assert RowInv(s, i);
    assert SendInv(verify, s, s.origins[i]);
  }

  /** Every stored row meets the table's constraints. */
  lemma StoredRowsFitTheTable(alphabet: Alphabet, verify: Verifier, events: seq<Event>, i: nat)
    requires i < |Run(alphabet, verify, events).rows|
    ensures Constraints(Run(alphabet, verify, events).rows[i])
  {
    RunKeeps(alphabet, verify, events);
    var s := Run(alphabet, verify, events);
    assert RowInv(s, i);
    assert SendInv(verify, s, s.origins[i]);
  }

  /** At most one row per sender and client nonce, and every limit holds in every window, whatever
      order the sends started and committed in. */
  lemma EveryRunIsWithinLimits(
      alphabet: Alphabet, verify: Verifier, events: seq<Event>, u: UserId, from: Instant, to: Instant)
    ensures var rows := Run(alphabet, verify, events).rows;
      && UniqueNonces(rows)
      && (to <= from + MINUTE ==> SentWithin(rows, u, from, to) <= MAX_MESSAGES_PER_MINUTE)
      && (to <= from + DAY ==> SentWithin(rows, u, from, to) <= MAX_MESSAGES_PER_DAY)
      && Total(rows, u) <= MAX_DIRECT_MESSAGES_PER_USER
  {
    RunKeeps(alphabet, verify, events);
    var rows := Run(alphabet, verify, events).rows;
    assert WithinWindows(rows, u) && WithinCap(rows, u);
  }

  /** A retry of a stored message is answered with that message, and a different message under
      the same nonce is refused; neither stores anything. */
  lemma RetriesStoreNothing(alphabet: Alphabet, verify: Verifier, events: seq<Event>, t: SendId, retry: SendId)
    requires var s := Run(alphabet, verify, events);
      && t in s.sends && retry in s.sends && s.sends[t].phase.Stored? && s.sends[retry].phase.KeyChecked?
      && s.sends[retry].sender == s.sends[t].sender && s.sends[retry].nonce == s.sends[t].nonce
    ensures var s := Run(alphabet, verify, events);
      var s' := Apply(alphabet, verify, s, Advance(retry));
      var sent, again := s.sends[t], s.sends[retry];
      && s'.rows == s.rows
      && s'.sends[retry].phase ==
           (if again.recipient == sent.recipient
               && (again.content == sent.content || (again.content.Sealed? && sent.content.Sealed?))
            then Replayed(sent.phase.at) else Refused(Conflict))
  {
    RunKeeps(alphabet, verify, events);
    var s := Run(alphabet, verify, events);
    RetryFinds(verify, s, t, retry);
    assert Apply(alphabet, verify, s, Advance(retry)) == CheckNonce(s, retry);
  }

  lemma RetryFinds(verify: Verifier, s: State, t: SendId, retry: SendId)
    requires Inv(verify, s) && t in s.sends && retry in s.sends
    requires s.sends[t].phase.Stored? && s.sends[retry].phase.KeyChecked?
    requires s.sends[retry].sender == s.sends[t].sender && s.sends[retry].nonce == s.sends[t].nonce
    ensures var s' := CheckNonce(s, retry); var sent, again := s.sends[t], s.sends[retry];
      && s'.rows == s.rows
      && s'.sends[retry].phase ==
           (if again.recipient == sent.recipient
               && (again.content == sent.content || (again.content.Sealed? && sent.content.Sealed?))
            then Replayed(sent.phase.at) else Refused(Conflict))
  {
    assert SendInv(verify, s, t);
    var again, i := s.sends[retry], s.sends[t].phase.at;
    assert NonceUsed(s.rows, again.sender, again.nonce);
    assert FindNonce(s.rows, again.sender, again.nonce) == i;
  }

  /** Follow a waiting send to the owner of its lock: the lock it wants in turn is higher. */
  lemma {:induction false} FollowOwners(verify: Verifier, s: State, t: SendId) returns (free: SendId)
    requires Inv(verify, s) && t in s.sends && s.sends[t].Active()
    ensures free in s.sends && s.sends[free].Active() && !Waits(s, free)
    decreases if !Waits(s, t) then 0
              else 0x1_0000_0000_0000_0000_0000_0000_0000_0000
                   - (if s.sends[t].phase.Opening? then s.sends[t].Low() else s.sends[t].High())
  {
    free := t;
    if Waits(s, t) {
      var o := s.locks[if s.sends[t].phase.Opening? then s.sends[t].Low() else s.sends[t].High()];
      assert LockInv(s, o) && SendInv(verify, s, o);
      free := FollowOwners(verify, s, o);
    }
  }

  /** Taking the two locks in id order leaves some send free to go on in every reachable state. */
  lemma SendsNeverDeadlock(alphabet: Alphabet, verify: Verifier, events: seq<Event>, t: SendId) returns (free: SendId)
    requires var s := Run(alphabet, verify, events); t in s.sends && s.sends[t].Active()
    ensures var s := Run(alphabet, verify, events); free in s.sends && s.sends[free].Active() && !Waits(s, free)
  {
    RunKeeps(alphabet, verify, events);
    free := FollowOwners(verify, Run(alphabet, verify, events), t);
  }

  // ---- one send at a time --------------------------------------------------------------

  /** The key the row will record; a plain send records none. */
  function KeyToRecord(verify: Verifier, directory: seq<Publication>, send: Send): Result<Option<Bytes>, Error> {
    match send.content
    case Plain(_) => if BothPublished(directory, send.sender, send.recipient) then Err(BadRequest) else Ok(None)
    case Sealed(e) =>
      match KeyOf(directory, send.sender)
      case None => Err(BadRequest)
      case Some(key) =>
        if VerifySignature(verify, e.frankingCommitment, e.frankingSignature, key, send.nonce) then
          Ok(Some(key))
        else Err(BadRequest)
  }

  /** How a send that holds its locks ends when no key is published meanwhile. */
  function Decide(verify: Verifier, directory: seq<Publication>, rows: seq<Row>, send: Send): Phase {
    match KeyToRecord(verify, directory, send)
    case Err(error) => Refused(error)
    case Ok(_) => DecideRow(rows, send)
  }

  function DecideRow(rows: seq<Row>, send: Send): Phase {
    if NonceUsed(rows, send.sender, send.nonce) then
      var i := FindNonce(rows, send.sender, send.nonce);
      if rows[i].recipient == send.recipient && SameContent(rows[i], send.content) then Replayed(i)
      else Refused(Conflict)
    else if !WithinLimits(rows, send) then Refused(TooManyRequests)
    else if !HasRoom(rows, send) then Refused(Conflict)
    else Stored(|rows|)
  }

  /** The steps of a send that holds its locks, without interruption. */
  function Settle(verify: Verifier, s: State, t: SendId): State
    requires t in s.sends
  {
    var s1 := CheckKeys(verify, s, t);
    if !s1.sends[t].Active() then s1 else SettleRow(s1, t)
  }

  function SettleRow(s: State, t: SendId): State
    requires t in s.sends
  {
    var s1 := CheckNonce(s, t);
    if !s1.sends[t].Active() then s1
    else
      var s2 := CheckLimits(s1, t);
      if !s2.sends[t].Active() then s2 else Store(s2, t)
  }

  /** The interleaved steps, run alone, end as decided and store what was decided. */
  lemma SendAlone(verify: Verifier, s: State, t: SendId)
    requires t in s.sends && s.sends[t].phase.BothLocks?
    ensures var s' := Settle(verify, s, t); var send := s.sends[t];
      && t in s'.sends && s'.sends[t].phase == Decide(verify, s.directory, s.rows, send)
      && s'.rows == (if Decide(verify, s.directory, s.rows, send).Stored?
                     then s.rows + [NewRow(send.sender, send.recipient, send.nonce, send.content,
                                           KeyToRecord(verify, s.directory, send).value, send.startedAt)]
                     else s.rows)
  {
    KeysDecide(verify, s, t);
    SettleRowDecides(CheckKeys(verify, s, t), t);
  }

  lemma KeysDecide(verify: Verifier, s: State, t: SendId)
    requires t in s.sends && s.sends[t].phase.BothLocks?
    ensures var s1 := CheckKeys(verify, s, t); var send := s.sends[t];
      var key := KeyToRecord(verify, s.directory, send);
      && t in s1.sends && s1.rows == s.rows
      && s1.sends[t] == if key.Err? then send.(phase := Refused(key.error))
                        else send.(phase := KeyChecked, signingKey := key.value, seen := |s.directory|)
  {
  }

  lemma SettleRowDecides(s: State, t: SendId)
    requires t in s.sends
    ensures var s' := SettleRow(s, t); var send := s.sends[t];
      && t in s'.sends && s'.sends[t].phase == DecideRow(s.rows, send)
      && s'.rows == if s'.sends[t].phase.Stored? then s.rows + [send.RowToStore()] else s.rows
  {
  }

  /** The next `n` steps of a send. */
  function Advances(alphabet: Alphabet, verify: Verifier, s: State, t: SendId, n: nat): State {
    if n == 0 then s else Apply(alphabet, verify, Advances(alphabet, verify, s, t, n - 1), Advance(t))
  }

  lemma LocksTaken(alphabet: Alphabet, verify: Verifier, s: State, t: SendId, n: nat)
    requires t in s.sends && s.sends[t].phase.Opening? && s.sends[t].sender != s.sends[t].recipient
    requires s.sends[t].sender !in s.locks && s.sends[t].recipient !in s.locks && n == 2
    ensures var s2 := Advances(alphabet, verify, s, t, n);
      && s2.directory == s.directory && s2.rows == s.rows && t in s2.sends
      && s2.sends[t] == s.sends[t].(phase := BothLocks)
  {
    assert Advances(alphabet, verify, s, t, n - 2) == s;
    assert Advances(alphabet, verify, s, t, n - 1) == Lock(s, t, s.sends[t].Low(), OneLock);
  }

  /** Once a send has both locks, four more steps settle it; the last of them find nothing to do if
      it has ended before. */
  lemma StepsSettle(alphabet: Alphabet, verify: Verifier, s: State, t: SendId, n: nat)
    requires t in s.sends && s.sends[t].phase.BothLocks? && n == 4
    ensures Advances(alphabet, verify, s, t, n) == Settle(verify, s, t)
  {
    assert Advances(alphabet, verify, s, t, n - 4) == s;
    var s1 := CheckKeys(verify, s, t);
    assert Advances(alphabet, verify, s, t, n - 3) == s1;
    KeysDecide(verify, s, t);
    if s1.sends[t].Active() {
      assert s1.sends[t].phase.KeyChecked?;
      var s2 := CheckNonce(s1, t);
      assert Advances(alphabet, verify, s, t, n - 2) == s2;
      if s2.sends[t].Active() {
        assert Advances(alphabet, verify, s, t, n - 1) == CheckLimits(s2, t);
      }
    }
  }

  lemma AdvancesAdd(alphabet: Alphabet, verify: Verifier, s: State, t: SendId, m: nat, n: nat)
    ensures Advances(alphabet, verify, s, t, m + n)
         == Advances(alphabet, verify, Advances(alphabet, verify, s, t, m), t, n)
  {
    if n > 0 { AdvancesAdd(alphabet, verify, s, t, m, n - 1); }
  }

  /** A send that has ended stays as it is. */
  lemma {:induction false} EndedStays(alphabet: Alphabet, verify: Verifier, s: State, t: SendId, n: nat)
    requires t in s.sends && !s.sends[t].Active()
    ensures Advances(alphabet, verify, s, t, n) == s
    decreases n
  {
    if n > 0 { EndedStays(alphabet, verify, s, t, n - 1); }
  }

  lemma SixStepsSettle(
      alphabet: Alphabet, verify: Verifier, s: State, t: SendId, locking: nat, settling: nat, idle: nat)
      returns (s2: State)
    requires t in s.sends && s.sends[t].phase.Opening? && s.sends[t].sender != s.sends[t].recipient
    requires s.sends[t].sender !in s.locks && s.sends[t].recipient !in s.locks && locking == 2 && settling == 4
    ensures s2.directory == s.directory && s2.rows == s.rows && t in s2.sends
    ensures s2.sends[t] == s.sends[t].(phase := BothLocks)
    ensures Advances(alphabet, verify, s, t, locking + settling + idle) == Settle(verify, s2, t)
  {
    s2 := Advances(alphabet, verify, s, t, locking);
    LocksTaken(alphabet, verify, s, t, locking);
    StepsSettle(alphabet, verify, s2, t, settling);
    AdvancesAdd(alphabet, verify, s, t, locking, settling);
    AdvancesAdd(alphabet, verify, s, t, locking + settling, idle);
    SettledHasEnded(verify, s2, t);
    EndedStays(alphabet, verify, Settle(verify, s2, t), t, idle);
  }

  lemma SettledHasEnded(verify: Verifier, s: State, t: SendId)
    requires t in s.sends && s.sends[t].phase.BothLocks?
    ensures var s' := Settle(verify, s, t); t in s'.sends && !s'.sends[t].Active()
  {
    SendAlone(verify, s, t);
  }

  /** The send has ended as decided and stored what was decided, and nothing more. */
  predicate EndsAsDecided(
      verify: Verifier, directory: seq<Publication>, rows: seq<Row>, send: Send, after: State, t: SendId)
  {
    var end := Decide(verify, directory, rows, send);
    && t in after.sends && after.sends[t].phase == end
    && after.rows == (if end.Stored?
                      then rows + [NewRow(send.sender, send.recipient, send.nonce, send.content,
                                          KeyToRecord(verify, directory, send).value, send.startedAt)]
                      else rows)
  }

  /** A send that no one holds up, from its first lock to its end: within six steps it ends as decided
      and has stored what was decided. */
  lemma SendRunsAlone(alphabet: Alphabet, verify: Verifier, s: State, t: SendId, n: nat)
    requires t in s.sends && s.sends[t].phase.Opening? && s.sends[t].sender != s.sends[t].recipient
    requires s.sends[t].sender !in s.locks && s.sends[t].recipient !in s.locks && n >= 6
    ensures EndsAsDecided(verify, s.directory, s.rows, s.sends[t], Advances(alphabet, verify, s, t, n), t)
  {
    EndsAfterSix(alphabet, verify, s, t, 2, 4, n - 6, n);
  }

  lemma EndsAfterSix(
      alphabet: Alphabet, verify: Verifier, s: State, t: SendId, locking: nat, settling: nat, idle: nat, n: nat)
    requires t in s.sends && s.sends[t].phase.Opening? && s.sends[t].sender != s.sends[t].recipient
    requires s.sends[t].sender !in s.locks && s.sends[t].recipient !in s.locks
    requires locking == 2 && settling == 4 && n == locking + settling + idle
    ensures EndsAsDecided(verify, s.directory, s.rows, s.sends[t], Advances(alphabet, verify, s, t, n), t)
  {
    var s2 := SixStepsSettle(alphabet, verify, s, t, locking, settling, idle);
    SettlesAsBefore(verify, s2, t, s.directory, s.rows, s.sends[t]);
  }

  lemma SettlesAsBefore(
      verify: Verifier, s: State, t: SendId, directory: seq<Publication>, rows: seq<Row>, send: Send)
    requires t in s.sends && s.sends[t] == send.(phase := BothLocks) && s.directory == directory && s.rows == rows
    ensures EndsAsDecided(verify, directory, rows, send, Settle(verify, s, t), t)
  {
    SendAlone(verify, s, t);
    DecideForgets(verify, directory, rows, send);
  }

  /** How a send ends does not depend on how far it has come. */
  lemma DecideForgets(verify: Verifier, directory: seq<Publication>, rows: seq<Row>, send: Send)
    ensures var later := send.(phase := BothLocks);
      && Decide(verify, directory, rows, later) == Decide(verify, directory, rows, send)
      && KeyToRecord(verify, directory, later) == KeyToRecord(verify, directory, send)
  {
  }

  /** The table of messages, as `send_message` updates it when it has the participants' locks. */
  class Mailbox {
    var directory: seq<Publication>
    var rows: seq<Row>

    ghost predicate Valid()
      reads this
    {
      UniqueNonces(rows) && Limited(rows)
    }

    constructor ()
      ensures Valid() && rows == [] && directory == []
    {
      directory, rows := [], [];
    }

    /** `blocked` and `mutual` are the answers of the social checks. */
    method SendMessage(
        alphabet: Alphabet, verify: Verifier, sender: UserId, recipient: UserId, request: SendRequest, now: Instant,
        blocked: bool, mutual: bool) returns (result: Result<Row, Error>)
      requires Valid()
      modifies this`rows
      ensures Valid()
      ensures result.Err? ==> rows == old(rows)
      ensures result.Ok? ==> result.value in rows && result.value.clientNonce == request.clientNonce
                             && result.value.sender == sender && result.value.recipient == recipient
      ensures rows != old(rows) ==>
        && result.Ok? && rows == old(rows) + [result.value]
        && Records(alphabet, request, result.value) && result.value.createdAt == now
        && (request.Plaintext? ==> result.value.senderSigningKey.None?)
        && (request.Encrypted? ==>
              result.value.senderSigningKey.Some? && result.value.senderSigningKey == KeyOf(directory, sender))
      ensures if Validate(alphabet, request).None? || sender == recipient then result == Err(BadRequest)
              else if blocked then result == Err(NotFound)
              else if !mutual then result == Err(Forbidden)
              else
                var send := Send(sender, recipient, request.clientNonce, Validate(alphabet, request).value, now,
                    BothLocks, None, 0);
                match Decide(verify, directory, old(rows), send)
                case Stored(_) =>
                  && KeyToRecord(verify, directory, send).Ok?
                  && result == Ok(NewRow(sender, recipient, request.clientNonce, send.content,
                                         KeyToRecord(verify, directory, send).value, now))
                  && rows == old(rows) + [result.value]
                case Replayed(i) => i < |old(rows)| && result == Ok(old(rows)[i]) && rows == old(rows)
                case Refused(error) => result == Err(error)
                case _ => false
    {
      var content := Validate(alphabet, request);
      if content.None? {
        return Err(BadRequest);
      }
      if sender == recipient {
        return Err(BadRequest);
      }
      if blocked {
        return Err(NotFound);
      }
      if !mutual {
        return Err(Forbidden);
      }
      var send := Send(sender, recipient, request.clientNonce, content.value, now, BothLocks, None, 0);
      var key := KeyToRecord(verify, directory, send);
      if key.Err? {
        return Err(key.error);
      }
      if NonceUsed(rows, sender, request.clientNonce) {
        var i := FindNonce(rows, sender, request.clientNonce);
        if rows[i].recipient != recipient || !SameContent(rows[i], content.value) {
          return Err(Conflict);
        }
        return Ok(rows[i]);
      }
      if !WithinLimits(rows, send) {
        return Err(TooManyRequests);
      }
      if !HasRoom(rows, send) {
        return Err(Conflict);
      }
      var recorded := send.(signingKey := key.value);
      AcceptedRequestsAreRecorded(alphabet, request, sender, recipient, key.value, now);
      StoreKeepsLimits(rows, recorded);
      rows := rows + [recorded.RowToStore()];
      return Ok(recorded.RowToStore());
    }
  }
}
