/**
 The password part of a session's login state, step by step. Each password carries the
 provenance it entered with, which the program itself does not store: the program only has
 the source tag, and the question is whether the tag keeps up with the provenance.
 */
module LoginSpec {
  import opened Wrappers

  /** SHA-256 over a byte string; only that a digest is not empty is used. */
  type Sha = Bytes -> Bytes

  ghost predicate IsDigest(sha: Sha) {
    forall b :: sha(b) != []
  }

  function Digest(sha: Sha, secret: Bytes, salt: Bytes): Bytes {
    sha(secret + salt)
  }

  datatype Hash = Hash(salt: Bytes, challenge: Bytes)

  /** Where a password came from: a shared address book or the built-in default, or elsewhere. */
  datatype Origin = Shared | Own

  datatype PasswordSource = PersonalAb(hash: Bytes) | SharedAb(password: Bytes) | Undefined {
    predicate IsPersonalAb(connected: Bytes) {
      connected != [] && PersonalAb? && hash == connected
    }

    predicate IsSharedAb(sha: Sha, connected: Bytes, peer: Hash) {
      connected != [] && SharedAb? && Digest(sha, password, peer.salt) == connected
    }
  }

  const TRUST_THIS_DEVICE := "trust-this-device"

  datatype Config = Config(password: Bytes, options: map<string, string>) {
    function Get(key: string): string {
      if key in options then options[key] else ""
    }
  }

  /** A peer configuration with the provenance of the password in it. */
  datatype Stored = Stored(config: Config, origin: Origin)

  datatype Handler = Handler(
    password: Bytes, source: PasswordSource, origin: Origin, remember: bool, hash: Hash,
    stored: Stored, switchUuid: Option<string>, sharedPassword: Option<Bytes>,
    isTerminal: bool, isTerminalAdmin: bool, sessionId: nat)

  datatype ConnToken = ConnToken(password: Bytes, source: PasswordSource, sessionId: nat)

  datatype LoginError = PasswordEmpty | PasswordWrong | TwoFactor | Listed(tryAgain: bool) | Unlisted

  /** What a handler sends or shows in answer to a hash message. */
  datatype Reply =
    | SwitchResponse
    | AskTerminalAdmin(withPassword: bool)
    | Login(proof: Bytes, askPassword: bool)

  // ---- which password is used ----

  datatype Candidate = Candidate(password: Bytes, source: PasswordSource, origin: Origin)

  function Salted(sha: Sha, secret: Bytes, salt: Bytes): Bytes {
    if secret == [] then [] else Digest(sha, secret, salt)
  }

  /** Everything a password could come from, the most preferred first. */
  function Candidates(sha: Sha, h: Handler, preset: Bytes, salt: Bytes, personal: Bytes, builtin: Bytes)
    : (cs: seq<Candidate>)
  {
    var shared := if h.sharedPassword.Some? then h.sharedPassword.value else [];
    [ Candidate(Salted(sha, shared, salt), SharedAb(shared), Shared),
      Candidate(h.password, h.source, h.origin),
      Candidate(Salted(sha, preset, salt), Undefined, Own),
      Candidate(h.stored.config.password, Undefined, h.stored.origin),
      Candidate(personal, PersonalAb(personal), Own),
      Candidate(Salted(sha, builtin, salt), SharedAb(builtin), Shared) ]
  }

  /** The first candidate with a password, or the default. */
  function FirstWithPassword(cs: seq<Candidate>, default: Candidate): Candidate {
    if cs == [] then default
    else if cs[0].password != [] then cs[0]
    else FirstWithPassword(cs[1..], default)
  }

  lemma {:induction false} FirstIs(cs: seq<Candidate>, default: Candidate, k: nat)
    requires k <= |cs| && forall j :: 0 <= j < k ==> cs[j].password == []
    requires k < |cs| ==> cs[k].password != []
    ensures FirstWithPassword(cs, default) == if k < |cs| then cs[k] else default
  {
    if k == 0 {
    } else {
      FirstIs(cs[1..], default, k - 1);
    }
  }

  function Chosen(sha: Sha, h: Handler, preset: Bytes, salt: Bytes, personal: Bytes, builtin: Bytes): Candidate {
    FirstWithPassword(Candidates(sha, h, preset, salt, personal, builtin), Candidate([], h.source, h.origin))
  }

  // ---- the steps of one handler ----

  const NEW_HANDLER := Handler([], Undefined, Own, false, Hash([], []), Stored(Config([], map[]), Own),
                              None, None, false, false, 0)

  function Initialized(h: Handler, disk: Stored, token: Option<ConnToken>, tokenOrigin: Origin,
                       switchUuid: Option<string>, sharedPassword: Option<Bytes>,
                       isTerminal: bool, isTerminalAdmin: bool, freshId: nat): Handler
  {
    var h1 := h.(remember := disk.config.password != [], stored := disk, switchUuid := switchUuid,
                 sharedPassword := sharedPassword, isTerminal := isTerminal,
                 isTerminalAdmin := isTerminal && isTerminalAdmin,
                 sessionId := if token.Some? && token.value.sessionId != 0 then token.value.sessionId
                              else if freshId == 0 then 1 else freshId);
    if token.None? then h1
    else h1.(password := token.value.password, source := token.value.source, origin := tokenOrigin)
  }

  predicate SwitchFires(h: Handler, uuidParses: bool) {
    h.switchUuid.Some? && uuidParses
  }

  function Hashed(sha: Sha, h: Handler, preset: Bytes, hash: Hash, uuidParses: bool,
                  personal: Bytes, builtin: Bytes): Handler
  {
    if SwitchFires(h, uuidParses) then
      h.(hash := hash, switchUuid := None, source := Undefined)
    else
      var c := Chosen(sha, h, preset, hash.salt, personal, builtin);
      h.(hash := hash, switchUuid := None, sharedPassword := None,
         password := c.password, source := c.source, origin := c.origin)
  }

  function HashReply(sha: Sha, before: Handler, after: Handler, uuidParses: bool): Reply {
    if SwitchFires(before, uuidParses) then SwitchResponse
    else if before.isTerminal && before.isTerminalAdmin then AskTerminalAdmin(after.password != [])
    else if after.password == [] then Login([], true)
    else Login(Digest(sha, after.password, after.hash.challenge), false)
  }

  function LoggedInFromUi(sha: Sha, h: Handler, typed: Bytes, remember: bool): Handler {
    if typed != [] then
      h.(password := Digest(sha, typed, h.hash.salt), source := Undefined, origin := Own, remember := remember)
    else if h.password == [] && h.stored.config.password != [] then
      h.(password := h.stored.config.password, source := Undefined, origin := h.stored.origin)
    else h
  }

  function ForgetTrust(h: Handler, disk: Stored): Stored {
    if h.stored.config.Get(TRUST_THIS_DEVICE) == "Y"
    then disk.(config := disk.config.(options := disk.config.options[TRUST_THIS_DEVICE := ""]))
    else disk
  }

  function Refused(h: Handler, disk: Stored, error: LoginError): (Handler, Stored) {
    match error
    case PasswordEmpty => (h.(password := []), disk)
    case PasswordWrong => (h.(password := []), disk)
    case TwoFactor =>
      if h.stored.config.Get(TRUST_THIS_DEVICE) == "Y"
      then (h.(stored := ForgetTrust(h, disk)), ForgetTrust(h, disk))
      else (h, disk)
    case _ => (h, disk)
  }

  /** The configuration written when the peer accepts: whether to keep, replace or drop the password. */
  function Accepted(sha: Sha, h: Handler, disk: Stored): Stored {
    if h.remember then
      if h.password != [] && h.password != disk.config.password && !h.source.IsSharedAb(sha, h.password, h.hash)
      then Stored(disk.config.(password := h.password), h.origin)
      else disk
    else if h.source.IsPersonalAb(h.password) then
      Stored(disk.config.(password := h.password), h.origin)
    else
      Stored(disk.config.(password := []), Own)
  }

  /** Whether the password just stored is also offered to the personal address book. */
  predicate OffersToPersonalAb(sha: Sha, h: Handler, written: Stored) {
    && written.config.password != []
    && !h.source.IsSharedAb(sha, h.password, h.hash)
    && !h.source.IsPersonalAb(h.password)
  }

  function TokenOf(h: Handler): Option<ConnToken> {
    if h.password == [] then None else Some(ConnToken(h.password, h.source, h.sessionId))
  }
}
