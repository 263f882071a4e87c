/**
 What a login comes to, in terms of the hash function alone: what a session proves to the peer,
 and what is stored and offered once the peer accepts.
 */
module LoginLaws {
  import opened Wrappers
  import opened LoginSpec
  import opened LoginRuns

  // ---- opening a session ----

  /** Whether the password is to be remembered is whether one is stored; a token is taken over. */
  lemma OpenTakesOver(h: Handler, disk: Stored, token: Option<ConnToken>, origin: Origin, uuid: Option<string>,
                      shared: Option<Bytes>, terminal: bool, admin: bool, random: nat)
    ensures var h' := Initialized(h, disk, token, origin, uuid, shared, terminal, admin, random);
            && (h'.remember <==> disk.config.password != []) && h'.stored == disk && h'.hash == h.hash
            && h'.switchUuid == uuid && h'.sharedPassword == shared
            && h'.isTerminal == terminal && h'.isTerminalAdmin == (terminal && admin)
            && (h'.password, h'.source, h'.origin) ==
               (if token.Some? then (token.value.password, token.value.source, origin)
                else (h.password, h.source, h.origin))
            && h'.sessionId > 0
            && (h'.sessionId == if token.Some? && token.value.sessionId > 0 then token.value.sessionId
                                else if random > 0 then random else 1)
  {
  }

  /** A session opened with the token another one hands over has its password, source and id. */
  lemma TokenRoundTrip(h: Handler, g: Handler, disk: Stored, uuid: Option<string>, shared: Option<Bytes>, random: nat)
    requires h.password != [] && h.sessionId > 0
    ensures TokenOf(h).Some?
    ensures var g' := Initialized(g, disk, TokenOf(h), h.origin, uuid, shared, false, false, random);
            (g'.password, g'.source, g'.origin, g'.sessionId) == (h.password, h.source, h.origin, h.sessionId)
  {
  }

  /** A session without a password hands over nothing. */
  lemma NoPasswordNoToken(h: Handler)
    ensures TokenOf(h).None? <==> h.password == []
  {
  }

  // ---- answering the hash message ----

  /** What a handler holds after a hash message that leads to a login. */
  ghost predicate Holds(h: Handler, password: Bytes, source: PasswordSource, origin: Origin) {
    h.password == password && h.source == source && h.origin == origin
  }

  ghost predicate Unused(bytes: Option<Bytes>) {
    bytes.Some? ==> bytes.value == []
  }

  /** The first candidate that has a password, with the hashes written out. */
  lemma FirstCandidate(sha: Sha, h: Handler, preset: Bytes, salt: Bytes, personal: Bytes, builtin: Bytes)
    requires IsDigest(sha)
    ensures Chosen(sha, h, preset, salt, personal, builtin) ==
            if !Unused(h.sharedPassword) then
              Candidate(sha(h.sharedPassword.value + salt), SharedAb(h.sharedPassword.value), Shared)
            else if h.password != [] then Candidate(h.password, h.source, h.origin)
            else if preset != [] then Candidate(sha(preset + salt), Undefined, Own)
            else if h.stored.config.password != [] then Candidate(h.stored.config.password, Undefined, h.stored.origin)
            else if personal != [] then Candidate(personal, PersonalAb(personal), Own)
            else if builtin != [] then Candidate(sha(builtin + salt), SharedAb(builtin), Shared)
            else Candidate([], h.source, h.origin)
  {
    var cs, default := Candidates(sha, h, preset, salt, personal, builtin), Candidate([], h.source, h.origin);
    var k := if !Unused(h.sharedPassword) then 0
             else if h.password != [] then 1
             else if preset != [] then 2
             else if h.stored.config.password != [] then 3
             else if personal != [] then 4
             else if builtin != [] then 5
             else 6;
    FirstIs(cs, default, k);
  }

  /**
   The password used, from the first source that has one: shared, last, preset, stored, personal
   address book, built-in. Shared, preset and built-in ones are hashed with the salt.
   */
  lemma PasswordUsed(sha: Sha, h: Handler, preset: Bytes, hash: Hash, uuidParses: bool, personal: Bytes, builtin: Bytes)
    requires IsDigest(sha) && !(h.switchUuid.Some? && uuidParses)
    ensures var h' := Hashed(sha, h, preset, hash, uuidParses, personal, builtin);
            && h' == h.(password := h'.password, source := h'.source, origin := h'.origin,
                        hash := hash, switchUuid := None, sharedPassword := None)
            && (if !Unused(h.sharedPassword) then
                  Holds(h', sha(h.sharedPassword.value + hash.salt), SharedAb(h.sharedPassword.value), Shared)
                else if h.password != [] then Holds(h', h.password, h.source, h.origin)
                else if preset != [] then Holds(h', sha(preset + hash.salt), Undefined, Own)
                else if h.stored.config.password != [] then
                  Holds(h', h.stored.config.password, Undefined, h.stored.origin)
                else if personal != [] then Holds(h', personal, PersonalAb(personal), Own)
                else if builtin != [] then Holds(h', sha(builtin + hash.salt), SharedAb(builtin), Shared)
                else Holds(h', [], h.source, h.origin))
  {
    FirstCandidate(sha, h, preset, hash.salt, personal, builtin);
  }

  /** A switch is answered exactly when the uuid parses; the password stays and its source is dropped. */
  lemma SwitchAnswered(sha: Sha, h: Handler, preset: Bytes, hash: Hash, uuidParses: bool,
                       personal: Bytes, builtin: Bytes)
    ensures var h' := Hashed(sha, h, preset, hash, uuidParses, personal, builtin);
            && (HashReply(sha, h, h', uuidParses).SwitchResponse? <==> h.switchUuid.Some? && uuidParses)
            && (h.switchUuid.Some? && uuidParses ==> h' == h.(hash := hash, switchUuid := None, source := Undefined))
  {
  }

  /** The answer: a prompt for an administrator's terminal, or the proof of the password held. */
  lemma ProofSent(sha: Sha, h: Handler, preset: Bytes, hash: Hash, uuidParses: bool, personal: Bytes, builtin: Bytes)
    requires IsDigest(sha) && !(h.switchUuid.Some? && uuidParses)
    ensures var h' := Hashed(sha, h, preset, hash, uuidParses, personal, builtin);
            var reply := HashReply(sha, h, h', uuidParses);
            && (reply.AskTerminalAdmin? <==> h.isTerminal && h.isTerminalAdmin)
            && (reply.AskTerminalAdmin? ==> (reply.withPassword <==> h'.password != []))
            && (!reply.AskTerminalAdmin? ==>
                  reply == if h'.password == [] then Login([], true)
                           else Login(sha(h'.password + hash.challenge), false))
  {
    PasswordUsed(sha, h, preset, hash, uuidParses, personal, builtin);
  }

  /** A peer with this password lets in who proves it, for the salt and challenge it sent. */
  predicate LetsIn(sha: Sha, password: Bytes, hash: Hash, reply: Reply) {
    reply == Login(sha(sha(password + hash.salt) + hash.challenge), false)
  }

  /** A session that knows the peer's password, whichever way it has it. */
  ghost predicate Knows(sha: Sha, h: Handler, preset: Bytes, personal: Bytes, builtin: Bytes,
                        password: Bytes, salt: Bytes)
  {
    if !Unused(h.sharedPassword) then h.sharedPassword.value == password
    else if h.password != [] then h.password == sha(password + salt)
    else if preset != [] then preset == password
    else if h.stored.config.password != [] then h.stored.config.password == sha(password + salt)
    else if personal != [] then personal == sha(password + salt)
    else builtin == password
  }

  /** The login law: a session that knows the password is let in, unless it asks or switches. */
  lemma KnownPasswordLetsIn(sha: Sha, h: Handler, preset: Bytes, hash: Hash, uuidParses: bool, personal: Bytes,
                            builtin: Bytes, password: Bytes)
    requires IsDigest(sha) && password != [] && Knows(sha, h, preset, personal, builtin, password, hash.salt)
    requires !(h.switchUuid.Some? && uuidParses) && !(h.isTerminal && h.isTerminalAdmin)
    ensures var h' := Hashed(sha, h, preset, hash, uuidParses, personal, builtin);
            LetsIn(sha, password, hash, HashReply(sha, h, h', uuidParses))
  {
    PasswordUsed(sha, h, preset, hash, uuidParses, personal, builtin);
    ProofSent(sha, h, preset, hash, uuidParses, personal, builtin);
  }

  // ---- logging in by hand ----

  /** A typed password is hashed and replaces the last one; without one the last or stored is used. */
  lemma TypedPassword(sha: Sha, h: Handler, typed: Bytes, remember: bool)
    ensures LoggedInFromUi(sha, h, typed, remember) ==
            if typed != [] then
              h.(password := sha(typed + h.hash.salt), source := Undefined, origin := Own, remember := remember)
            else if h.password == [] && h.stored.config.password != [] then
              h.(password := h.stored.config.password, source := Undefined, origin := h.stored.origin)
            else h
  {
  }

  /** A wrong or missing password is forgotten, a failed second factor withdraws trust, the rest is kept. */
  lemma RefusalKeepsRest(h: Handler, disk: Stored, error: LoginError)
    ensures var (h', disk') := Refused(h, disk, error);
            var key := "trust-this-device";
            if error.PasswordEmpty? || error.PasswordWrong? then h' == h.(password := []) && disk' == disk
            else if error.TwoFactor? && key in h.stored.config.options && h.stored.config.options[key] == "Y" then
              disk' == Stored(Config(disk.config.password, disk.config.options[key := ""]), disk.origin)
              && h' == h.(stored := disk')
            else h' == h && disk' == disk
  {
  }

  // ---- the peer accepts ----

  /** The tag recognises the password as a shared one, or as the personal address book's. */
  predicate FromShared(sha: Sha, h: Handler) {
    h.password != [] && h.source.SharedAb? && sha(h.source.password + h.hash.salt) == h.password
  }

  predicate FromPersonal(h: Handler) {
    h.password != [] && h.source.PersonalAb? && h.source.hash == h.password
  }

  /** The password stored after an acceptance. */
  function StoredPassword(sha: Sha, h: Handler, before: Bytes): Bytes {
    if h.remember then (if h.password != [] && !FromShared(sha, h) then h.password else before)
    else if FromPersonal(h) then h.password
    else []
  }

  /**
   With remember, the password used is stored, unless the tag recognises it as shared; without,
   only one from the personal address book is, and any other stored one is erased. It is offered
   to the personal address book if it came from neither address book.
   */
  lemma AcceptanceStores(sha: Sha, w: World, i: nat)
    requires i in w.handlers
    ensures var h, w' := w.handlers[i], Step(sha, w, PeerInfo(i));
            && w'.disk.config == w.disk.config.(password := StoredPassword(sha, h, w.disk.config.password))
            && w'.handlers == w.handlers[i := h.(stored := w'.disk)] && w'.tokens == w.tokens
            && w'.offered == w.offered +
                 if w'.disk.config.password != [] && !FromShared(sha, h) && !FromPersonal(h) then [w'.disk] else []
  {
    var h := w.handlers[i];
    assert h.source.IsSharedAb(sha, h.password, h.hash) <==> FromShared(sha, h);
    assert h.source.IsPersonalAb(h.password) <==> FromPersonal(h);
    assert w.disk.config == w.disk.config.(password := w.disk.config.password);
    assert w.offered + [] == w.offered;
  }

  /** The stored password keeps its provenance; a replaced one has that of the session's. */
  lemma AcceptanceProvenance(sha: Sha, w: World, i: nat)
    requires i in w.handlers
    ensures var h, disk := w.handlers[i], Step(sha, w, PeerInfo(i)).disk;
            if disk.config.password == [] && !h.remember then disk.origin == Own
            else if h.remember && disk.config.password == w.disk.config.password then disk.origin == w.disk.origin
            else disk.origin == h.origin
  {
    AcceptanceStores(sha, w, i);
  }

  function TypeAndAccept(i: nat, typed: Bytes, remember: bool): seq<Op> {
    [FromUi(i, typed, remember)] + ([PeerInfo(i)] + [])
  }

  lemma RunTypeAndAccept(sha: Sha, w: World, i: nat, typed: Bytes, remember: bool)
    requires i in w.handlers
    ensures Exec(sha, w, TypeAndAccept(i, typed, remember)) ==
            Some(Step(sha, Step(sha, w, FromUi(i, typed, remember)), PeerInfo(i)))
  {
    ExecStep(sha, w, FromUi(i, typed, remember), [PeerInfo(i)] + []);
    ExecStep(sha, Step(sha, w, FromUi(i, typed, remember)), PeerInfo(i), []);
  }

  /** A password typed without remember: whatever was stored is erased, and nothing is offered. */
  lemma NotRememberedIsErased(sha: Sha, w: World, i: nat, typed: Bytes)
    requires IsDigest(sha) && i in w.handlers && typed != []
    ensures var w' := Exec(sha, w, TypeAndAccept(i, typed, false));
            && w'.Some? && w'.value.disk.config.password == [] && w'.value.offered == w.offered
  {
    RunTypeAndAccept(sha, w, i, typed, false);
    AcceptanceStores(sha, Step(sha, w, FromUi(i, typed, false)), i);
    assert w.offered + [] == w.offered;
  }

  /** A password typed with remember: its hash is stored as one's own, and offered. */
  lemma RememberedIsStored(sha: Sha, w: World, i: nat, typed: Bytes)
    requires IsDigest(sha) && i in w.handlers && typed != []
    requires w.disk.config.password != [] ==> w.disk.origin == Own
    ensures var w' := Exec(sha, w, TypeAndAccept(i, typed, true));
            var stored := Stored(w.disk.config.(password := sha(typed + w.handlers[i].hash.salt)), Own);
            w'.Some? && w'.value.disk == stored && w'.value.offered == w.offered + [stored]
  {
    RunTypeAndAccept(sha, w, i, typed, true);
    var w1 := Step(sha, w, FromUi(i, typed, true));
    AcceptanceStores(sha, w1, i);
    AcceptanceProvenance(sha, w1, i);
  }

  /** A password of the personal address book is stored even without remember, and never offered. */
  lemma PersonalIsKept(sha: Sha, w: World, i: nat)
    requires i in w.handlers && FromPersonal(w.handlers[i])
    ensures var w' := Step(sha, w, PeerInfo(i));
            w'.disk.config.password == w.handlers[i].password && w'.offered == w.offered
  {
    AcceptanceStores(sha, w, i);
    assert w.offered + [] == w.offered;
  }

  // ---- the sessions together ----

  /** A step is about one session and leaves the others; only acceptances and refusals touch the store. */
  lemma OthersUntouched(sha: Sha, w: World, op: Op)
    requires Enabled(w, op)
    ensures var w' := Step(sha, w, op);
            && w'.handlers.Keys == w.handlers.Keys + {op.i}
            && (forall j :: j in w.handlers && j != op.i ==> w'.handlers[j] == w.handlers[j])
            && (!op.PeerInfo? && !op.Refusal? ==> w'.disk == w.disk)
            && (!op.PeerInfo? ==> w'.offered == w.offered)
            && (!op.HandOver? ==> w'.tokens == w.tokens)
            && (op.HandOver? ==> w'.handlers[op.i] == w.handlers[op.i])
  {
  }

  /** What is handed over is the session's password, source and id, with the password's provenance. */
  lemma HandedOver(sha: Sha, w: World, i: nat)
    requires i in w.handlers
    ensures var h := w.handlers[i];
            Step(sha, w, HandOver(i)).tokens == w.tokens +
              if h.password == [] then {} else {Token(ConnToken(h.password, h.source, h.sessionId), h.origin)}
  {
  }

  /** What the step of a session is, for each operation on it. */
  lemma OwnSession(sha: Sha, w: World, op: Op)
    requires Enabled(w, op) && op.i in w.handlers
    ensures var h, h' := w.handlers[op.i], Step(sha, w, op).handlers[op.i];
            match op
            case HashMessage(_, preset, hash, uuidParses, personal, builtin) =>
              h' == Hashed(sha, h, preset, hash, uuidParses, personal, builtin)
            case Refusal(_, error) => (h', Step(sha, w, op).disk) == Refused(h, w.disk, error)
            case FromUi(_, typed, remember) => h' == LoggedInFromUi(sha, h, typed, remember)
            case _ => true
  {
  }

  /** A session opened again keeps its last password and hash, unless a token replaces the password. */
  lemma OpenedAgain(sha: Sha, w: World, op: Op)
    requires op.Open? && Enabled(w, op)
    ensures var h' := Step(sha, w, op).handlers[op.i];
            && (op.i in w.handlers ==> h'.hash == w.handlers[op.i].hash)
            && (op.i !in w.handlers ==> h'.hash == Hash([], []))
            && (op.token.Some? ==> h'.password == op.token.value.token.password && h'.origin == op.token.value.origin)
            && (op.token.None? && op.i in w.handlers ==>
                  h'.password == w.handlers[op.i].password && h'.source == w.handlers[op.i].source
                  && h'.origin == w.handlers[op.i].origin)
            && (op.token.None? && op.i !in w.handlers ==> h'.password == [])
  {
  }

  /** The rules are those three: they ask nothing of anything else. */
  lemma OnlyThreeRules(op: Op, salt: Bytes, used: set<nat>, salted: set<nat>)
    ensures CarefulOp(op, salt, used, salted) <==>
            && (op.HashMessage? ==> op.hash.salt == salt)
            && (op.PeerInfo? ==> op.i in salted)
            && (op.Open? && op.switchUuid.Some? ==>
                  op.i !in used && (op.token.Some? ==> !op.token.value.token.source.SharedAb?))
    ensures forall j :: j in UsedAfter(used, op) <==> j in used || (op.Open? && j == op.i)
    ensures forall j :: j in SaltedAfter(salted, op) <==>
              (j in salted && !(op.Open? && j == op.i)) || (op.HashMessage? && j == op.i)
  {
  }
}
