/**
 The login handler object. Provenance is ghost state: nothing the handler decides reads it.
 */
module LoginHandler {
  import opened Wrappers
  import opened LoginSpec

  /** The stored configuration of one peer, shared by every session with that peer. */
  class PeerStore {
    var config: Config
    ghost var origin: Origin

    constructor (config: Config, ghost origin: Origin)
      ensures View() == Stored(config, origin)
    {
      this.config, this.origin := config, origin;
    }

    ghost function View(): Stored
      reads this
    {
      Stored(config, origin)
    }
  }

  class LoginConfigHandler {
    const sha: Sha
    const disk: PeerStore
    var password: Bytes
    var source: PasswordSource
    ghost var origin: Origin
    var remember: bool
    var hash: Hash
    var config: Config
    ghost var configOrigin: Origin
    var switchUuid: Option<string>
    var sharedPassword: Option<Bytes>
    var isTerminal: bool
    var isTerminalAdmin: bool
    var sessionId: nat

    ghost function View(): Handler
      reads this
    {
      Handler(password, source, origin, remember, hash, Stored(config, configOrigin), switchUuid,
              sharedPassword, isTerminal, isTerminalAdmin, sessionId)
    }

    constructor (sha: Sha, disk: PeerStore)
      ensures this.sha == sha && this.disk == disk
      ensures View() == NEW_HANDLER
    {
      this.sha, this.disk := sha, disk;
      password, source, origin := [], Undefined, Own;
      remember, hash := false, Hash([], []);
      config, configOrigin := Config([], map[]), Own;
      switchUuid, sharedPassword := None, None;
      isTerminal, isTerminalAdmin, sessionId := false, false, 0;
    }

    method LoadConfig() returns (loaded: Config)
      ensures loaded == disk.config
    {
      loaded := disk.config;
    }

    method SaveConfig(c: Config, ghost from: Origin)
      modifies this`config, this`configOrigin, disk
      ensures config == disk.config == c && configOrigin == disk.origin == from
    {
      disk.config, disk.origin := c, from;
      config, configOrigin := c, from;
    }

    /** Load the stored configuration; a stored password means it is to be remembered. */
    method OpenConfig()
      modifies this`remember, this`config, this`configOrigin, disk
      ensures disk.View() == old(disk.View())
      ensures View() == old(View()).(remember := disk.config.password != [], stored := disk.View())
    {
      var loaded := LoadConfig();
      SaveConfig(loaded, disk.origin);
      remember := loaded.password != [];
    }

    /** Use the handed-over password as the last one; the session id is handed over too. */
    method UseToken(token: Option<ConnToken>, ghost from: Origin, random: nat) returns (sid: nat)
      modifies this`password, this`source, this`origin
      ensures View() == if token.None? then old(View())
                        else old(View()).(password := token.value.password, source := token.value.source,
                                          origin := from)
      ensures sid == if token.Some? && token.value.sessionId != 0 then token.value.sessionId
                     else if random == 0 then 1 else random
    {
      sid := 0;
      if token.Some? {
        sid := token.value.sessionId;
        password, source, origin := token.value.password, token.value.source, from;
      }
      if sid == 0 {
        sid := random;
        if sid == 0 {
          sid := 1;
        }
      }
    }

    method Initialize(token: Option<ConnToken>, ghost tokenOrigin: Origin, switchUuid: Option<string>,
                      sharedPassword: Option<Bytes>, terminal: bool, adminRequested: bool, random: nat)
      modifies this, disk
      ensures View() == Initialized(old(View()), old(disk.View()), token, tokenOrigin, switchUuid,
                                    sharedPassword, terminal, adminRequested, random)
      ensures disk.View() == old(disk.View())
    {
      OpenConfig();
      var sid := UseToken(token, tokenOrigin, random);
      ResetSession(sid, switchUuid, sharedPassword, terminal, terminal && adminRequested);
    }

    method ResetSession(sid: nat, uuid: Option<string>, shared: Option<Bytes>, terminal: bool, admin: bool)
      modifies this`sessionId, this`switchUuid, this`sharedPassword, this`isTerminal, this`isTerminalAdmin
      ensures View() == old(View()).(sessionId := sid, switchUuid := uuid, sharedPassword := shared,
                                     isTerminal := terminal, isTerminalAdmin := admin)
    {
      sessionId, switchUuid, sharedPassword := sid, uuid, shared;
      isTerminal, isTerminalAdmin := terminal, admin;
    }

    /** Take the first password there is, in order of preference. */
    method ChoosePassword(preset: Bytes, personal: Bytes, builtin: Bytes)
      requires IsDigest(sha)
      modifies this`password, this`source, this`origin, this`sharedPassword
      ensures var c := Chosen(sha, old(View()), preset, hash.salt, personal, builtin);
              password == c.password && source == c.source && origin == c.origin
      ensures sharedPassword == None
    {
      ChosenIsFirst(sha, View(), preset, hash.salt, personal, builtin);
      // last password
      var chosen := password;
      // preset password
      if chosen == [] && preset != [] {
        chosen := Digest(sha, preset, hash.salt);
        source, origin := Undefined, Own;
      }
      // shared password
      var shared := sharedPassword;
      sharedPassword := None;
      if shared.Some? && shared.value != [] {
        chosen := Digest(sha, shared.value, hash.salt);
        source, origin := SharedAb(shared.value), Shared;
      }
      // stored password
      if chosen == [] {
        chosen := config.password;
        if chosen != [] {
          source, origin := Undefined, configOrigin;
        }
      }
      // personal address book
      if chosen == [] && personal != [] {
        chosen := personal;
        source, origin := PersonalAb(personal), Own;
      }
      // built-in default
      if chosen == [] && builtin != [] {
        chosen := Digest(sha, builtin, hash.salt);
        source, origin := SharedAb(builtin), Shared;
      }
      password := chosen;
    }

    /** Answer the peer's hash message with a proof of the chosen password. */
    method HandleHash(preset: Bytes, peerHash: Hash, uuidParses: bool, personal: Bytes, builtin: Bytes)
      returns (reply: Reply)
      requires IsDigest(sha)
      modifies this
      ensures View() == Hashed(sha, old(View()), preset, peerHash, uuidParses, personal, builtin)
      ensures reply == HashReply(sha, old(View()), View(), uuidParses)
    {
      hash := peerHash;
      var uuid := switchUuid;
      switchUuid := None;
      if uuid.Some? && uuidParses {
        source := Undefined;
        return SwitchResponse;
      }
      ChoosePassword(preset, personal, builtin);
      assert View() == Hashed(sha, old(View()), preset, peerHash, uuidParses, personal, builtin);
      if isTerminal && isTerminalAdmin {
        return AskTerminalAdmin(password != []);
      }
      if password == [] {
        reply := Login([], true);
      } else {
        reply := Login(Digest(sha, password, peerHash.challenge), false);
      }
    }

    method HandleLoginFromUi(typed: Bytes, rememberIt: bool) returns (proof: Bytes)
      modifies this
      ensures View() == LoggedInFromUi(sha, old(View()), typed, rememberIt)
      ensures proof == Digest(sha, password, hash.challenge)
    {
      var chosen: Bytes;
      if typed == [] {
        chosen := password;
        if chosen == [] {
          chosen := config.password;
          if chosen != [] {
            source := Undefined;
            origin := configOrigin;
          }
        }
      } else {
        source := Undefined;
        chosen := Digest(sha, typed, hash.salt);
        origin := Own;
        remember := rememberIt;
      }
      password := chosen;
      proof := Digest(sha, chosen, hash.challenge);
    }

    /** Whether the user may try again. */
    method HandleLoginError(error: LoginError) returns (again: bool)
      modifies this, disk
      ensures (View(), disk.View()) == Refused(old(View()), old(disk.View()), error)
      ensures again <==> !error.Unlisted? && (error.Listed? ==> error.tryAgain)
    {
      match error
      case PasswordEmpty =>
        password := [];
        again := true;
      case PasswordWrong =>
        password := [];
        again := true;
      case TwoFactor =>
        if config.Get(TRUST_THIS_DEVICE) == "Y" {
          SetOption(TRUST_THIS_DEVICE, "");
        }
        again := true;
      case Listed(tryAgain) => again := tryAgain;
      case Unlisted => again := false;
    }

    method SetOption(key: string, value: string)
      modifies this`config, this`configOrigin, disk
      ensures if value == old(config).Get(key) then View() == old(View()) && disk.View() == old(disk.View())
              else disk.View() == Stored(old(disk.config).(options := old(disk.config).options[key := value]),
                                         old(disk.origin))
                   && View() == old(View()).(stored := disk.View())
    {
      var loaded := LoadConfig();
      if value == config.Get(key) {
        return;
      }
      SaveConfig(loaded.(options := loaded.options[key := value]), disk.origin);
    }

    /** The peer accepted: decide what to store, and what to offer to the personal address book. */
    method HandlePeerInfo() returns (offered: Option<Bytes>)
      modifies this, disk
      ensures disk.View() == Accepted(sha, old(View()), old(disk.View()))
      ensures View() == old(View()).(stored := disk.View())
      ensures offered == if OffersToPersonalAb(sha, View(), disk.View()) then Some(disk.config.password) else None
    {
      var c := LoadConfig();
      ghost var from := disk.origin;
      var password0 := c.password;
      if remember {
        if password != [] && password != password0 && !source.IsSharedAb(sha, password, hash) {
          c := c.(password := password);
          from := origin;
        }
      } else {
        if source.IsPersonalAb(password) {
          c := c.(password := password);
          from := origin;
        } else {
          if password0 != [] {
            c := c.(password := []);
          }
          from := Own;
        }
      }
      offered := None;
      if c.password != [] && !source.IsSharedAb(sha, password, hash) && !source.IsPersonalAb(password) {
        offered := Some(c.password);
      }
      SaveConfig(c, from);
    }

    method GetConnToken() returns (token: Option<ConnToken>)
      ensures token == TokenOf(View())
    {
      if password == [] {
        return None;
      }
      token := Some(ConnToken(password, source, sessionId));
    }
  }

  /** Which candidate is first, spelled out. */
  lemma ChosenIsFirst(sha: Sha, h: Handler, preset: Bytes, salt: Bytes, personal: Bytes, builtin: Bytes)
    requires IsDigest(sha)
    ensures var cs := Candidates(sha, h, preset, salt, personal, builtin);
            Chosen(sha, h, preset, salt, personal, builtin) ==
            if h.sharedPassword.Some? && h.sharedPassword.value != [] then cs[0]
            else if h.password != [] then cs[1]
            else if preset != [] then cs[2]
            else if h.stored.config.password != [] then cs[3]
            else if personal != [] then cs[4]
            else if builtin != [] then cs[5]
            else Candidate([], h.source, h.origin)
  {
    var cs := Candidates(sha, h, preset, salt, personal, builtin);
    var k := if h.sharedPassword.Some? && h.sharedPassword.value != [] then 0
             else if h.password != [] then 1
             else if preset != [] then 2
             else if h.stored.config.password != [] then 3
             else if personal != [] then 4
             else if builtin != [] then 5
             else 6;
    FirstIs(cs, Candidate([], h.source, h.origin), k);
  }
}
