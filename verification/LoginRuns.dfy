/**
 Runs of any number of sessions with one peer: they share the stored configuration and hand
 passwords to each other in connection tokens. The question is whether a password that came
 from a shared address book, or is the built-in default, can end up in the stored
 configuration or be offered to the personal address book.
 */
module LoginRuns {
  import opened Wrappers
  import opened LoginSpec

  datatype Token = Token(token: ConnToken, origin: Origin)

  /** salted holds the sessions that got a hash message since they were last opened. */
  datatype World = World(handlers: map<nat, Handler>, disk: Stored, tokens: set<Token>, offered: seq<Stored>,
                         salted: set<nat>)

  datatype Op =
    | Open(i: nat, token: Option<Token>, switchUuid: Option<string>, shared: Option<Bytes>,
           terminal: bool, admin: bool, random: nat)
    | HashMessage(i: nat, preset: Bytes, hash: Hash, uuidParses: bool, personal: Bytes, builtin: Bytes)
    | Refusal(i: nat, error: LoginError)
    | FromUi(i: nat, typed: Bytes, remember: bool)
    | PeerInfo(i: nat)
    | HandOver(i: nat)

  predicate Enabled(w: World, op: Op) {
    if op.Open? then op.token.Some? ==> op.token.value in w.tokens else op.i in w.handlers
  }

  function SaltedAfter(salted: set<nat>, op: Op): set<nat> {
    if op.Open? then salted - {op.i} else if op.HashMessage? then salted + {op.i} else salted
  }

  function Step(sha: Sha, w: World, op: Op): World
    requires Enabled(w, op)
  {
    var w0 := w.(salted := SaltedAfter(w.salted, op));
    match op
    case Open(i, token, switchUuid, shared, terminal, admin, random) =>
      var h := if i in w.handlers then w.handlers[i] else NEW_HANDLER;
      var token0 := if token.Some? then Some(token.value.token) else None;
      var origin := if token.Some? then token.value.origin else Own;
      w0.(handlers := w.handlers[i := Initialized(h, w.disk, token0, origin, switchUuid, shared,
                                                  terminal, admin, random)])
    case HashMessage(i, preset, hash, uuidParses, personal, builtin) =>
      w0.(handlers := w.handlers[i := Hashed(sha, w.handlers[i], preset, hash, uuidParses, personal, builtin)])
    case Refusal(i, error) =>
      var (h, disk) := Refused(w.handlers[i], w.disk, error);
      w0.(handlers := w.handlers[i := h], disk := disk)
    case FromUi(i, typed, remember) =>
      w0.(handlers := w.handlers[i := LoggedInFromUi(sha, w.handlers[i], typed, remember)])
    case PeerInfo(i) =>
      var h := w.handlers[i];
      var written := Accepted(sha, h, w.disk);
      w0.(handlers := w.handlers[i := h.(stored := written)], disk := written,
          offered := if OffersToPersonalAb(sha, h, written) then w.offered + [written] else w.offered)
    case HandOver(i) =>
      var h := w.handlers[i];
      if h.password == [] then w0 else w0.(tokens := w.tokens + {Token(TokenOf(h).value, h.origin)})
  }

  // ---- the invariant ----

  ghost predicate Clean(s: Stored) {
    s.config.password != [] ==> s.origin == Own
  }

  predicate HoldsShared(h: Handler) {
    h.password != [] && h.origin == Shared
  }

  /** The source tag recognises the password, given the salt the handler has. */
  predicate Recognised(sha: Sha, h: Handler, salt: Bytes) {
    h.source.SharedAb? && Digest(sha, h.source.password, salt) == h.password
  }

  /** A shared password is tagged as such; once salted, the tag recognises it. */
  ghost predicate HandlerOk(sha: Sha, h: Handler, salted: bool) {
    && Clean(h.stored)
    && (HoldsShared(h) ==> h.source.SharedAb? && (salted ==> Recognised(sha, h, h.hash.salt)))
  }

  ghost predicate HandlersOk(sha: Sha, hs: map<nat, Handler>, salted: set<nat>) {
    forall i :: i in hs ==> HandlerOk(sha, hs[i], i in salted)
  }

  ghost predicate TokensOk(tokens: set<Token>) {
    forall t :: t in tokens && t.token.password != [] && t.origin == Shared ==> t.token.source.SharedAb?
  }

  /** Nothing shared is stored, and nothing shared was offered to the personal address book. */
  ghost predicate Kept(w: World) {
    Clean(w.disk) && forall s :: s in w.offered ==> Clean(s)
  }

  ghost predicate Inv(sha: Sha, w: World) {
    HandlersOk(sha, w.handlers, w.salted) && TokensOk(w.tokens) && Kept(w)
  }

  /**
   The ways to lose the tag, each while a shared password is remembered: switching sides, a
   salt that makes another digest of the tag's password, and a peer that accepts although the
   tag does not recognise the password about to be stored.
   */
  predicate Safe(sha: Sha, w: World, op: Op)
    requires Enabled(w, op)
  {
    match op
    case HashMessage(i, _, hash, uuidParses, _, _) =>
      var h := w.handlers[i];
      HoldsShared(h) ==>
        if SwitchFires(h, uuidParses) then false
        else (h.sharedPassword.Some? && h.sharedPassword.value != []) || Recognised(sha, h, hash.salt)
    case PeerInfo(i) =>
      var h := w.handlers[i];
      !(HoldsShared(h) && h.remember && h.password != w.disk.config.password
        && !h.source.IsSharedAb(sha, h.password, h.hash))
    case _ => true
  }

  lemma OthersOk(sha: Sha, hs: map<nat, Handler>, salted: set<nat>, i: nat, h: Handler, salted': set<nat>)
    requires HandlersOk(sha, hs, salted)
    requires forall j :: j != i ==> (j in salted <==> j in salted')
    ensures HandlersOk(sha, hs[i := h], salted') <==> HandlerOk(sha, h, i in salted')
  {
    assert i in hs[i := h];
  }

  lemma OpenKeepsInv(sha: Sha, w: World, op: Op)
    requires op.Open? && Enabled(w, op) && Inv(sha, w)
    ensures Inv(sha, Step(sha, w, op))
  {
    var w' := Step(sha, w, op);
    OthersOk(sha, w.handlers, w.salted, op.i, w'.handlers[op.i], w'.salted);
  }

  lemma RefusalKeepsInv(sha: Sha, w: World, op: Op)
    requires op.Refusal? && Enabled(w, op) && Inv(sha, w)
    ensures Inv(sha, Step(sha, w, op))
  {
    OthersOk(sha, w.handlers, w.salted, op.i, Step(sha, w, op).handlers[op.i], w.salted);
  }

  lemma FromUiKeepsInv(sha: Sha, w: World, op: Op)
    requires op.FromUi? && Enabled(w, op) && Inv(sha, w)
    ensures Inv(sha, Step(sha, w, op))
  {
    OthersOk(sha, w.handlers, w.salted, op.i, Step(sha, w, op).handlers[op.i], w.salted);
  }

  lemma HandOverKeepsInv(sha: Sha, w: World, op: Op)
    requires op.HandOver? && Enabled(w, op) && Inv(sha, w)
    ensures Inv(sha, Step(sha, w, op))
  {
  }

  lemma PeerInfoKeepsInvIffSafe(sha: Sha, w: World, op: Op)
    requires op.PeerInfo? && Enabled(w, op) && Inv(sha, w)
    ensures Inv(sha, Step(sha, w, op)) <==> Safe(sha, w, op)
  {
    OthersOk(sha, w.handlers, w.salted, op.i, Step(sha, w, op).handlers[op.i], w.salted);
  }

  lemma HashKeepsInvIffSafe(sha: Sha, w: World, op: Op)
    requires IsDigest(sha) && op.HashMessage? && Enabled(w, op) && Inv(sha, w)
    ensures Inv(sha, Step(sha, w, op)) <==> Safe(sha, w, op)
  {
    var w' := Step(sha, w, op);
    OthersOk(sha, w.handlers, w.salted, op.i, w'.handlers[op.i], w'.salted);
    if !SwitchFires(w.handlers[op.i], op.uuidParses) {
      ChosenOkIff(sha, w.handlers[op.i], op.preset, op.hash.salt, op.personal, op.builtin);
    }
  }

  /** Only a remembered password can be chosen with a tag that does not recognise it. */
  lemma ChosenOkIff(sha: Sha, h: Handler, preset: Bytes, salt: Bytes, personal: Bytes, builtin: Bytes)
    requires IsDigest(sha) && Clean(h.stored) && (HoldsShared(h) ==> h.source.SharedAb?)
    ensures var c := Chosen(sha, h, preset, salt, personal, builtin);
            (c.password != [] && c.origin == Shared ==>
               c.source.SharedAb? && Digest(sha, c.source.password, salt) == c.password)
            <==> (HoldsShared(h) ==>
                    (h.sharedPassword.Some? && h.sharedPassword.value != []) || Recognised(sha, h, salt))
  {
    var cs, default := Candidates(sha, h, preset, salt, personal, builtin), Candidate([], h.source, h.origin);
    if h.sharedPassword.Some? && h.sharedPassword.value != [] {
      FirstIs(cs, default, 0);
    } else if h.password != [] {
      FirstIs(cs, default, 1);
    } else {
      FirstOf(cs, default);
    }
  }

  /** The chosen candidate is the default or one of those with a password. */
  lemma {:induction false} FirstOf(cs: seq<Candidate>, default: Candidate)
    ensures var c := FirstWithPassword(cs, default); c == default || (c in cs && c.password != [])
  {
    if cs == [] {
    } else {
      FirstOf(cs[1..], default);
    }
  }

  /** One step keeps the invariant exactly if it is safe. */
  lemma StepKeepsInvIffSafe(sha: Sha, w: World, op: Op)
    requires IsDigest(sha) && Inv(sha, w) && Enabled(w, op)
    ensures Inv(sha, Step(sha, w, op)) <==> Safe(sha, w, op)
  {
    match op
    case Open(_, _, _, _, _, _, _) => OpenKeepsInv(sha, w, op);
    case HashMessage(_, _, _, _, _, _) => HashKeepsInvIffSafe(sha, w, op);
    case Refusal(_, _) => RefusalKeepsInv(sha, w, op);
    case FromUi(_, _, _) => FromUiKeepsInv(sha, w, op);
    case PeerInfo(_) => PeerInfoKeepsInvIffSafe(sha, w, op);
    case HandOver(_) => HandOverKeepsInv(sha, w, op);
  }

  // ---- runs ----

  /** The world after a run, if every step of it can happen. */
  function Exec(sha: Sha, w: World, ops: seq<Op>): Option<World>
    decreases |ops|
  {
    if ops == [] then Some(w)
    else if !Enabled(w, ops[0]) then None
    else Exec(sha, Step(sha, w, ops[0]), ops[1..])
  }

  ghost predicate AllSafe(sha: Sha, w: World, ops: seq<Op>)
    decreases |ops|
  {
    ops != [] ==> Enabled(w, ops[0]) && Safe(sha, w, ops[0]) && AllSafe(sha, Step(sha, w, ops[0]), ops[1..])
  }

  /** Over every safe run a shared password is never stored and never offered to the address book. */
  lemma {:induction false} SharedPasswordNeverStored(sha: Sha, w: World, ops: seq<Op>)
    requires IsDigest(sha) && Inv(sha, w) && AllSafe(sha, w, ops)
    ensures var r := Exec(sha, w, ops); r.Some? && Inv(sha, r.value) && Kept(r.value)
    decreases |ops|
  {
    if ops == [] {
    } else {
      StepKeepsInvIffSafe(sha, w, ops[0]);
      SharedPasswordNeverStored(sha, Step(sha, w, ops[0]), ops[1..]);
    }
  }

  /** After a hash message, the peer's accepting the login is always safe. */
  lemma SafeOnceSalted(sha: Sha, w: World, i: nat)
    requires Inv(sha, w) && i in w.handlers && i in w.salted
    ensures Safe(sha, w, PeerInfo(i))
  {
  }

  // ---- what callers can do ----

  /**
   What a caller can see to: the peer keeps its salt, a peer accepts only after it sent a hash
   message in that session, and a session that switches sides is a new one and not handed a
   password tagged as shared.
   */
  predicate CarefulOp(op: Op, salt: Bytes, used: set<nat>, salted: set<nat>) {
    match op
    case Open(i, token, switchUuid, _, _, _, _) =>
      switchUuid.Some? ==> i !in used && (token.None? || !token.value.token.source.SharedAb?)
    case HashMessage(_, _, hash, _, _, _) => hash.salt == salt
    case PeerInfo(i) => i in salted
    case _ => true
  }

  function UsedAfter(used: set<nat>, op: Op): set<nat> {
    if op.Open? then used + {op.i} else used
  }

  predicate Careful(ops: seq<Op>, salt: Bytes, used: set<nat>, salted: set<nat>)
    decreases |ops|
  {
    ops != [] ==>
      && CarefulOp(ops[0], salt, used, salted)
      && Careful(ops[1..], salt, UsedAfter(used, ops[0]), SaltedAfter(salted, ops[0]))
  }

  /** With one salt the tag recognises a shared password at any time, and none waits for a switch. */
  ghost predicate SaltKept(sha: Sha, h: Handler, salt: Bytes) {
    HoldsShared(h) ==> Recognised(sha, h, salt) && h.switchUuid.None?
  }

  ghost predicate CarefulInv(sha: Sha, w: World, salt: Bytes) {
    && (forall i :: i in w.handlers ==> SaltKept(sha, w.handlers[i], salt))
    && (forall t :: t in w.tokens && t.token.password != [] && t.origin == Shared ==>
          t.token.source.SharedAb? && Digest(sha, t.token.source.password, salt) == t.token.password)
  }

  lemma CarefulOpIsSafe(sha: Sha, w: World, op: Op, salt: Bytes)
    requires Inv(sha, w) && CarefulInv(sha, w, salt) && Enabled(w, op) && CarefulOp(op, salt, w.handlers.Keys, w.salted)
    ensures Safe(sha, w, op)
  {
    if op.PeerInfo? {
      SafeOnceSalted(sha, w, op.i);
    }
  }

  lemma OpenKeepsCareful(sha: Sha, w: World, op: Op, salt: Bytes)
    requires op.Open? && Enabled(w, op) && CarefulInv(sha, w, salt) && CarefulOp(op, salt, w.handlers.Keys, w.salted)
    ensures CarefulInv(sha, Step(sha, w, op), salt)
  {
    assert SaltKept(sha, Step(sha, w, op).handlers[op.i], salt);
  }

  lemma HashKeepsCareful(sha: Sha, w: World, op: Op, salt: Bytes)
    requires IsDigest(sha) && op.HashMessage? && Enabled(w, op) && Inv(sha, w) && CarefulInv(sha, w, salt)
    requires op.hash.salt == salt
    ensures CarefulInv(sha, Step(sha, w, op), salt)
  {
    ChosenOkIff(sha, w.handlers[op.i], op.preset, salt, op.personal, op.builtin);
    assert SaltKept(sha, Step(sha, w, op).handlers[op.i], salt);
  }

  lemma FromUiKeepsCareful(sha: Sha, w: World, op: Op, salt: Bytes)
    requires op.FromUi? && Enabled(w, op) && Inv(sha, w) && CarefulInv(sha, w, salt)
    ensures CarefulInv(sha, Step(sha, w, op), salt)
  {
    assert HandlerOk(sha, w.handlers[op.i], op.i in w.salted);
    assert SaltKept(sha, Step(sha, w, op).handlers[op.i], salt);
  }

  lemma OtherKeepsCareful(sha: Sha, w: World, op: Op, salt: Bytes)
    requires op.Refusal? || op.PeerInfo? || op.HandOver?
    requires Enabled(w, op) && CarefulInv(sha, w, salt)
    ensures CarefulInv(sha, Step(sha, w, op), salt)
  {
    assert SaltKept(sha, Step(sha, w, op).handlers[op.i], salt);
  }

  lemma {:induction false} CarefulRun(sha: Sha, w: World, ops: seq<Op>, salt: Bytes)
    requires IsDigest(sha) && Inv(sha, w) && CarefulInv(sha, w, salt)
    requires Exec(sha, w, ops).Some? && Careful(ops, salt, w.handlers.Keys, w.salted)
    ensures AllSafe(sha, w, ops)
    decreases |ops|
  {
    if ops == [] {
    } else {
      var op := ops[0];
      CarefulOpIsSafe(sha, w, op, salt);
      StepKeepsInvIffSafe(sha, w, op);
      match op {
        case Open(_, _, _, _, _, _, _) => OpenKeepsCareful(sha, w, op, salt);
        case HashMessage(_, _, _, _, _, _) => HashKeepsCareful(sha, w, op, salt);
        case FromUi(_, _, _) => FromUiKeepsCareful(sha, w, op, salt);
        case _ => OtherKeepsCareful(sha, w, op, salt);
      }
      assert Step(sha, w, op).handlers.Keys == UsedAfter(w.handlers.Keys, op);
      CarefulRun(sha, Step(sha, w, op), ops[1..], salt);
    }
  }

  /** No session yet. */
  function NoSessions(stored: Stored): World {
    World(map[], stored, {}, [], {})
  }

  /** From a clean start, no run of careful calls ever stores or offers a shared password. */
  lemma CarefulCallersLeakNothing(sha: Sha, stored: Stored, ops: seq<Op>, salt: Bytes)
    requires IsDigest(sha) && Clean(stored) && Careful(ops, salt, {}, {})
    requires Exec(sha, NoSessions(stored), ops).Some?
    ensures Kept(Exec(sha, NoSessions(stored), ops).value)
  {
    assert NoSessions(stored).handlers.Keys == {};
    CarefulRun(sha, NoSessions(stored), ops, salt);
    SharedPasswordNeverStored(sha, NoSessions(stored), ops);
  }

  // ---- what happens to careless ones ----

  lemma ExecStep(sha: Sha, w: World, op: Op, ops: seq<Op>)
    requires Enabled(w, op)
    ensures Exec(sha, w, [op] + ops) == Exec(sha, Step(sha, w, op), ops)
  {
  }

  function OpenShared(secret: Bytes): Op {
    Open(0, None, None, Some(secret), false, false, 1)
  }

  function Salting(i: nat, hash: Hash, uuidParses: bool): Op {
    HashMessage(i, [], hash, uuidParses, [], [])
  }

  /** A session opened with a shared password, after its hash message. */
  ghost predicate SharedSession(sha: Sha, secret: Bytes, hash: Hash, w: World, w': World) {
    && w'.disk == w.disk && w'.offered == w.offered && w'.tokens == w.tokens && w'.handlers.Keys == {0}
    && var h := w'.handlers[0];
       && h.password == Digest(sha, secret, hash.salt) && h.source == SharedAb(secret) && h.origin == Shared
       && h.remember == (w.disk.config.password != []) && h.stored == w.disk && h.hash == hash
       && h.switchUuid == None && h.sharedPassword == None && h.sessionId == 1
  }

  lemma SharedSessionOpened(sha: Sha, secret: Bytes, hash: Hash, w: World)
    requires IsDigest(sha) && secret != [] && w.handlers == map[]
    ensures SharedSession(sha, secret, hash, w, Step(sha, Step(sha, w, OpenShared(secret)), Salting(0, hash, false)))
  {
    var h := Step(sha, w, OpenShared(secret)).handlers[0];
    FirstIs(Candidates(sha, h, [], hash.salt, [], []), Candidate([], h.source, h.origin), 0);
  }

  function IssueToken(secret: Bytes, hash: Hash): seq<Op> {
    [OpenShared(secret)] + ([Salting(0, hash, false)] + ([HandOver(0)] + []))
  }

  function SharedToken(sha: Sha, secret: Bytes, hash: Hash): Token {
    Token(ConnToken(Digest(sha, secret, hash.salt), SharedAb(secret), 1), Shared)
  }

  function SwitchSides(t: Token, hash: Hash): seq<Op> {
    [Open(1, Some(t), Some("uuid"), None, false, false, 2)] + ([Salting(1, hash, true)] + ([PeerInfo(1)] + []))
  }

  /** A session opened with a shared password can issue a token for it. */
  lemma SharedTokenIssued(sha: Sha, secret: Bytes, hash: Hash, w: World)
    requires IsDigest(sha) && secret != [] && w.handlers == map[]
    ensures var w' := Exec(sha, w, IssueToken(secret, hash));
            && w'.Some? && w'.value.disk == w.disk && w'.value.handlers.Keys == {0}
            && SharedToken(sha, secret, hash) in w'.value.tokens
  {
    var w1 := Step(sha, w, OpenShared(secret));
    var w2 := Step(sha, w1, Salting(0, hash, false));
    SharedSessionOpened(sha, secret, hash, w);
    ExecStep(sha, w, OpenShared(secret), [Salting(0, hash, false)] + ([HandOver(0)] + []));
    ExecStep(sha, w1, Salting(0, hash, false), [HandOver(0)] + []);
    ExecStep(sha, w2, HandOver(0), []);
  }

  /** With such a token, switching sides makes the peer's acceptance store the shared password. */
  lemma SwitchSidesStores(sha: Sha, hash: Hash, w: World, t: Token)
    requires t in w.tokens && t.token.password != [] && t.origin == Shared
    requires 1 !in w.handlers
    requires w.disk.config.password != [] && w.disk.config.password != t.token.password
    ensures var w' := Exec(sha, w, SwitchSides(t, hash));
            && w'.Some?
            && w'.value.disk == Stored(w.disk.config.(password := t.token.password), Shared)
            && w'.value.offered == w.offered + [w'.value.disk]
  {
    var open := Open(1, Some(t), Some("uuid"), None, false, false, 2);
    var w1 := Step(sha, w, open);
    var w2 := Step(sha, w1, Salting(1, hash, true));
    var w3 := Step(sha, w2, PeerInfo(1));
    ExecStep(sha, w, open, [Salting(1, hash, true)] + ([PeerInfo(1)] + []));
    ExecStep(sha, w1, Salting(1, hash, true), [PeerInfo(1)] + []);
    ExecStep(sha, w2, PeerInfo(1), []);
    assert w3.disk == Stored(w.disk.config.(password := t.token.password), Shared);
  }

  /**
   So from a clean start, with the salt unchanged, a run that switches sides replaces the
   stored password by the shared one and offers it to the personal address book.
   */
  lemma SwitchSidesLeaks(sha: Sha, secret: Bytes, hash: Hash, stored: Stored)
    requires IsDigest(sha) && secret != [] && Clean(stored)
    requires stored.config.password != [] && stored.config.password != Digest(sha, secret, hash.salt)
    ensures Inv(sha, NoSessions(stored))
    ensures var w1 := Exec(sha, NoSessions(stored), IssueToken(secret, hash));
            && w1.Some?
            && var w2 := Exec(sha, w1.value, SwitchSides(SharedToken(sha, secret, hash), hash));
            && w2.Some?
            && w2.value.disk == Stored(stored.config.(password := Digest(sha, secret, hash.salt)), Shared)
            && w2.value.disk in w2.value.offered
  {
    SharedTokenIssued(sha, secret, hash, NoSessions(stored));
    var w1 := Exec(sha, NoSessions(stored), IssueToken(secret, hash)).value;
    SwitchSidesStores(sha, hash, w1, SharedToken(sha, secret, hash));
  }

  function ChangeSalt(secret: Bytes, hash: Hash, hash': Hash): seq<Op> {
    [OpenShared(secret)] + ([Salting(0, hash, false)] + ([Salting(0, hash', false)] + ([PeerInfo(0)] + [])))
  }

  lemma SecondSalt(sha: Sha, secret: Bytes, hash: Hash, hash': Hash, w: World, w1: World)
    requires IsDigest(sha) && SharedSession(sha, secret, hash, w, w1) && w.disk.config.password != []
    ensures var password, w2 := Digest(sha, secret, hash.salt), Step(sha, w1, Salting(0, hash', false));
            && Enabled(w2, PeerInfo(0))
            && Step(sha, w2, PeerInfo(0)).disk ==
               (if password != w.disk.config.password && Digest(sha, secret, hash'.salt) != password
                then Stored(w.disk.config.(password := password), Shared) else w.disk)
  {
    var h := w1.handlers[0];
    FirstIs(Candidates(sha, h, [], hash'.salt, [], []), Candidate([], h.source, h.origin), 1);
  }

  /**
   The salt has to stay. From a clean start with another password stored, two hash messages in
   one session end with the shared password stored exactly if they give it different digests.
   */
  lemma ChangedSaltLeaks(sha: Sha, secret: Bytes, hash: Hash, hash': Hash, stored: Stored)
    requires IsDigest(sha) && secret != [] && Clean(stored)
    requires stored.config.password != [] && stored.config.password != Digest(sha, secret, hash.salt)
    ensures Inv(sha, NoSessions(stored))
    ensures var r := Exec(sha, NoSessions(stored), ChangeSalt(secret, hash, hash'));
            && r.Some?
            && (r.value.disk == Stored(stored.config.(password := Digest(sha, secret, hash.salt)), Shared)
                <==> Digest(sha, secret, hash.salt) != Digest(sha, secret, hash'.salt))
            && (r.value.disk == stored <==> Digest(sha, secret, hash.salt) == Digest(sha, secret, hash'.salt))
  {
    var w := NoSessions(stored);
    var w1 := Step(sha, w, OpenShared(secret));
    var w2 := Step(sha, w1, Salting(0, hash, false));
    var w3 := Step(sha, w2, Salting(0, hash', false));
    SharedSessionOpened(sha, secret, hash, w);
    SecondSalt(sha, secret, hash, hash', w, w2);
    ExecStep(sha, w, OpenShared(secret),
             [Salting(0, hash, false)] + ([Salting(0, hash', false)] + ([PeerInfo(0)] + [])));
    ExecStep(sha, w1, Salting(0, hash, false), [Salting(0, hash', false)] + ([PeerInfo(0)] + []));
    ExecStep(sha, w2, Salting(0, hash', false), [PeerInfo(0)] + []);
    ExecStep(sha, w3, PeerInfo(0), []);
  }

  function AcceptUnsalted(t: Token): seq<Op> {
    [Open(1, Some(t), None, None, false, false, 2)] + ([PeerInfo(1)] + [])
  }

  /**
   The hash message has to come first: a peer that accepts a session handed a shared password
   without one makes it stored exactly if the empty salt gives another digest.
   */
  lemma UnsaltedAcceptanceLeaks(sha: Sha, secret: Bytes, hash: Hash, stored: Stored)
    requires IsDigest(sha) && secret != [] && Clean(stored)
    requires stored.config.password != [] && stored.config.password != Digest(sha, secret, hash.salt)
    ensures var w1 := Exec(sha, NoSessions(stored), IssueToken(secret, hash));
            && w1.Some?
            && var w2 := Exec(sha, w1.value, AcceptUnsalted(SharedToken(sha, secret, hash)));
            && w2.Some?
            && (w2.value.disk.origin == Shared <==> Digest(sha, secret, hash.salt) != Digest(sha, secret, []))
            && w2.value.disk.config.password ==
               (if w2.value.disk.origin == Shared then Digest(sha, secret, hash.salt) else stored.config.password)
  {
    SharedTokenIssued(sha, secret, hash, NoSessions(stored));
    var w1 := Exec(sha, NoSessions(stored), IssueToken(secret, hash)).value;
    var open := Open(1, Some(SharedToken(sha, secret, hash)), None, None, false, false, 2);
    var w2 := Step(sha, w1, open);
    ExecStep(sha, w1, open, [PeerInfo(1)] + []);
    ExecStep(sha, w2, PeerInfo(1), []);
  }
}
