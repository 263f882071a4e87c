/**
 The on/off options of a session: what the handler stores, what it tells the peer when it logs
 in and at each toggle, and what the peer then holds.
 */
module SessionOptions {
  import opened Wrappers

  datatype ConnType = DefaultConn | ViewCamera | Terminal | FileTransfer | PortForward | Rdp

  datatype OptionName =
    | ShowRemoteCursor | FollowRemoteCursor | FollowRemoteWindow | DisableAudio | DisableClipboard
    | LockAfterSessionEnd | TerminalPersistent | PrivacyMode | EnableFileCopyPaste | BlockInput
    | UnblockInput | ShowQualityMonitor | AllowSwapKey | ViewOnly | ShowMyCursor | Other(name: string)

  /** The part of a stored configuration that toggling touches: the flags that are on, and the rest by name. */
  datatype Toggles = Toggles(on: set<OptionName>, options: map<string, string>)

  function Flip(c: Toggles, flag: OptionName): Toggles {
    c.(on := if flag in c.on then c.on - {flag} else c.on + {flag})
  }

  /** The fields of an option message. */
  datatype Field =
    | FRemoteCursor | FFollowCursor | FFollowWindow | FNoAudio | FNoClipboard | FLockAtEnd
    | FTerminalPersistent | FPrivacy | FFileTransfer | FBlockInput | FNoKeyboard | FMyCursor

  /** The fields that are set, each to yes or no. */
  type OptionMessage = map<Field, bool>

  /** The fields that are on at the peer; a message leaves alone what it does not set. */
  type PeerOptions = set<Field>

  function Received(p: PeerOptions, m: OptionMessage): (r: PeerOptions)
    ensures forall f :: f in r <==> if f in m then m[f] else f in p
  {
    (set f | f in p && f !in m) + (set f | f in m && m[f])
  }

  function ReceivedIfAny(p: PeerOptions, m: Option<OptionMessage>): PeerOptions {
    if m.Some? then Received(p, m.value) else p
  }

  // ---- what is stored and what is sent ----

  predicate IsDesktop(conn: ConnType) {
    conn.DefaultConn? || conn.ViewCamera?
  }

  /** Whether a desktop session with these flags has the field on; view-only overrides some. */
  predicate Shows(on: set<OptionName>, f: Field) {
    var viewOnly := ViewOnly in on;
    match f
    case FRemoteCursor => viewOnly || ShowRemoteCursor in on
    case FFollowCursor => FollowRemoteCursor in on
    case FFollowWindow => FollowRemoteWindow in on
    case FNoAudio => DisableAudio in on
    case FNoClipboard => viewOnly || DisableClipboard in on
    case FLockAtEnd => !viewOnly && LockAfterSessionEnd in on
    case FFileTransfer => !viewOnly && EnableFileCopyPaste in on
    case FNoKeyboard => viewOnly
    case FMyCursor => viewOnly && ShowMyCursor in on
    case _ => false
  }

  /** The fields a desktop login may set. */
  predicate AtLogin(f: Field) {
    !f.FTerminalPersistent? && !f.FPrivacy? && !f.FBlockInput?
  }

  const ALL_FIELDS: set<Field> :=
    {FRemoteCursor, FFollowCursor, FFollowWindow, FNoAudio, FNoClipboard, FLockAtEnd,
     FTerminalPersistent, FPrivacy, FFileTransfer, FBlockInput, FNoKeyboard, FMyCursor}

  /** The options sent with the login request: only what is on. */
  function LoginOptions(c: Toggles, conn: ConnType): Option<OptionMessage> {
    if IsDesktop(conn) then Some(map f | f in ALL_FIELDS && Shows(c.on, f) :: true)
    else if conn.Terminal? && TerminalPersistent in c.on then Some(map[FTerminalPersistent := true])
    else None
  }

  function Toggled(c: Toggles, name: OptionName): Toggles {
    match name
    case Other(n) =>
      if n in c.options && c.options[n] != "" then c.(options := c.options - {n})
      else c.(options := c.options[n := "Y"])
    case PrivacyMode => c
    case BlockInput => c
    case UnblockInput => c
    case ViewOnly => if ViewOnly in c.on then c.(on := c.on - {ViewOnly, ShowMyCursor}) else c.(on := c.on + {ViewOnly})
    case _ => Flip(c, name)
  }

  /** The field that reports a flag. */
  function FieldOf(name: OptionName): Option<Field> {
    match name
    case ShowRemoteCursor => Some(FRemoteCursor)
    case FollowRemoteCursor => Some(FFollowCursor)
    case FollowRemoteWindow => Some(FFollowWindow)
    case DisableAudio => Some(FNoAudio)
    case DisableClipboard => Some(FNoClipboard)
    case LockAfterSessionEnd => Some(FLockAtEnd)
    case TerminalPersistent => Some(FTerminalPersistent)
    case PrivacyMode => Some(FPrivacy)
    case EnableFileCopyPaste => Some(FFileTransfer)
    case ShowMyCursor => Some(FMyCursor)
    case _ => None
  }

  /** What a toggle tells the peer; the values that leaving view-only restores are the session's own. */
  function ToggleMessage(mine: set<OptionName>, on: set<OptionName>, name: OptionName): Option<OptionMessage> {
    match name
    case Other(_) => None
    case BlockInput => Some(map[FBlockInput := true])
    case UnblockInput => Some(map[FBlockInput := false])
    case ViewOnly =>
      if ViewOnly !in on then
        Some(map[FNoKeyboard := true, FNoClipboard := true, FRemoteCursor := true,
                 FFileTransfer := false, FLockAtEnd := false])
      else
        var m := map[FNoKeyboard := false, FNoClipboard := DisableClipboard in mine,
                     FRemoteCursor := ShowRemoteCursor in mine,
                     FFileTransfer := EnableFileCopyPaste in mine, FLockAtEnd := LockAfterSessionEnd in mine];
        Some(if ShowMyCursor in on then m[FMyCursor := false] else m)
    case _ =>
      Some(if FieldOf(name).Some? then map[FieldOf(name).value := name !in on] else map[])
  }

  /** Options that are stored by name, or sent without being stored, touch no flag. */
  predicate TouchesFlags(name: OptionName) {
    !name.Other? && !name.BlockInput? && !name.UnblockInput?
  }

  /** Toggling a flag changes that flag only; leaving view-only also ends the own cursor. */
  lemma ToggleChangesOwnFlag(c: Toggles, name: OptionName, other: OptionName)
    requires TouchesFlags(name) && !name.PrivacyMode?
    ensures var on := Toggled(c, name).on;
            && (name in on <==> name !in c.on)
            && (other != name && !(name.ViewOnly? && ViewOnly in c.on && other.ShowMyCursor?) ==>
                  (other in on <==> other in c.on))
            && (name.ViewOnly? && ViewOnly in c.on ==> ShowMyCursor !in on)
            && Toggled(c, name).options == c.options
  {
  }

  /** Privacy mode is only asked for, and input only blocked or not: nothing is stored. */
  lemma AskedNotStored(mine: set<OptionName>, c: Toggles)
    ensures Toggled(c, PrivacyMode) == Toggled(c, BlockInput) == Toggled(c, UnblockInput) == c
    ensures ToggleMessage(mine, c.on, PrivacyMode) == Some(map[FPrivacy := PrivacyMode !in c.on])
    ensures ToggleMessage(mine, c.on, BlockInput) == Some(map[FBlockInput := true])
    ensures ToggleMessage(mine, c.on, UnblockInput) == Some(map[FBlockInput := false])
  {
  }

  /** Any other option is stored by name, as set or not at all, and nothing is sent. */
  lemma OtherIsStored(mine: set<OptionName>, c: Toggles, key: string)
    ensures var isSet, c' := key in c.options && c.options[key] != "", Toggled(c, Other(key));
            && ToggleMessage(mine, c.on, Other(key)).None? && c'.on == c.on
            && (key in c'.options <==> !isSet) && (!isSet ==> c'.options[key] == "Y")
            && forall k :: k != key ==>
                 (k in c'.options <==> k in c.options) && (k in c.options ==> c'.options[k] == c.options[k])
  {
  }

  /** The field of each flag that has one. */
  predicate FieldReports(name: OptionName, f: Field) {
    || (name.ShowRemoteCursor? && f.FRemoteCursor?) || (name.FollowRemoteCursor? && f.FFollowCursor?)
    || (name.FollowRemoteWindow? && f.FFollowWindow?) || (name.DisableAudio? && f.FNoAudio?)
    || (name.DisableClipboard? && f.FNoClipboard?) || (name.LockAfterSessionEnd? && f.FLockAtEnd?)
    || (name.TerminalPersistent? && f.FTerminalPersistent?) || (name.EnableFileCopyPaste? && f.FFileTransfer?)
    || (name.ShowMyCursor? && f.FMyCursor?)
  }

  /** A flag's new value is sent in its own field and in no other; two flags are not sent at all. */
  lemma FlagIsSent(mine: set<OptionName>, on: set<OptionName>, name: OptionName)
    requires TouchesFlags(name) && !name.PrivacyMode? && !name.ViewOnly?
    ensures var m := ToggleMessage(mine, on, name);
            && m.Some? && (forall f :: f in m.value <==> FieldReports(name, f))
            && (forall f :: f in m.value ==> (m.value[f] <==> name !in on))
  {
    if FieldOf(name).Some? {
      assert ToggleMessage(mine, on, name) == Some(map[FieldOf(name).value := name !in on]);
    }
  }

  /**
   Entering view-only sends five values; leaving it sends the same five, from the session's own
   flags, and ends the own cursor if that was on.
   */
  lemma ViewOnlyIsSent(mine: set<OptionName>, on: set<OptionName>)
    ensures var m := ToggleMessage(mine, on, ViewOnly);
            && m.Some?
            && (forall f :: f in m.value <==>
                  f.FNoKeyboard? || f.FNoClipboard? || f.FRemoteCursor? || f.FFileTransfer? || f.FLockAtEnd?
                  || (f.FMyCursor? && ViewOnly in on && ShowMyCursor in on))
            && (FMyCursor in m.value ==> !m.value[FMyCursor])
            && m.value[FNoKeyboard] == (ViewOnly !in on)
            && m.value[FNoClipboard] == (ViewOnly in on ==> DisableClipboard in mine)
            && m.value[FRemoteCursor] == (ViewOnly in on ==> ShowRemoteCursor in mine)
            && m.value[FFileTransfer] == (ViewOnly in on && EnableFileCopyPaste in mine)
            && m.value[FLockAtEnd] == (ViewOnly in on && LockAfterSessionEnd in mine)
  {
  }

  /** Only desktop and terminal sessions say anything at login, a terminal only that it persists. */
  lemma OthersSayNothing(c: Toggles, conn: ConnType)
    ensures LoginOptions(c, conn).Some? <==>
            conn.DefaultConn? || conn.ViewCamera? || (conn.Terminal? && TerminalPersistent in c.on)
    ensures conn.Terminal? && TerminalPersistent in c.on ==>
              LoginOptions(c, conn) == Some(map[FTerminalPersistent := true])
    ensures conn.DefaultConn? || conn.ViewCamera? ==>
              var m := LoginOptions(c, conn).value;
              && FTerminalPersistent !in m && FPrivacy !in m && FBlockInput !in m
              && forall f :: f in m ==> m[f]
  {
  }

  // ---- agreement ----

  /** What a fresh peer holds after a login with this configuration. */
  function Derived(c: Toggles, conn: ConnType): PeerOptions {
    ReceivedIfAny({}, LoginOptions(c, conn))
  }

  /** The peer holds what a fresh login would give it, on the fields a login of this kind sets. */
  ghost predicate Agrees(p: PeerOptions, c: Toggles, conn: ConnType) {
    if IsDesktop(conn) then forall f :: AtLogin(f) ==> (f in p <==> f in Derived(c, conn))
    else conn.Terminal? ==> (FTerminalPersistent in p <==> FTerminalPersistent in Derived(c, conn))
  }

  lemma DesktopDerived(c: Toggles, conn: ConnType, f: Field)
    requires IsDesktop(conn)
    ensures f in Derived(c, conn) <==> Shows(c.on, f)
  {
  }

  predicate CursorNeedsViewOnly(c: Toggles) {
    ShowMyCursor in c.on ==> ViewOnly in c.on
  }

  /**
   The toggles that keep the two sides in step: what view-only overrides may only be toggled
   to the value view-only forces, and the own cursor only within view-only.
   */
  predicate InStep(c: Toggles, conn: ConnType, name: OptionName) {
    IsDesktop(conn) ==>
      match name
      case ShowRemoteCursor => ViewOnly in c.on ==> name !in c.on
      case DisableClipboard => ViewOnly in c.on ==> name !in c.on
      case EnableFileCopyPaste => ViewOnly in c.on ==> name in c.on
      case LockAfterSessionEnd => ViewOnly in c.on ==> name in c.on
      case ShowMyCursor => ViewOnly in c.on
      case _ => true
  }

  /** The flag a field is restored from when view-only ends. */
  function RestoredFlag(f: Field): Option<OptionName> {
    match f
    case FNoClipboard => Some(DisableClipboard)
    case FRemoteCursor => Some(ShowRemoteCursor)
    case FFileTransfer => Some(EnableFileCopyPaste)
    case FLockAtEnd => Some(LockAfterSessionEnd)
    case _ => None
  }

  /**
   What the session's own flags and the stored ones have to have in common for a field that the
   toggle is not about: the flag it is restored from, or what it shows if nothing is sent for it.
   */
  predicate Kept(mine: set<OptionName>, c: Toggles, name: OptionName, f: Field)
    requires TouchesFlags(name)
  {
    if name.ViewOnly? && ViewOnly in c.on && RestoredFlag(f).Some? then
      RestoredFlag(f).value in mine <==> RestoredFlag(f).value in c.on
    else
      f in ToggleMessage(mine, c.on, name).value || (Shows(mine, f) <==> Shows(Toggled(c, name).on, f))
  }

  /** One field after a toggle: right, unless the toggle is out of step or the two copies differ there. */
  lemma FieldAfterToggle(p: PeerOptions, mine: set<OptionName>, c: Toggles, conn: ConnType, name: OptionName, f: Field)
    requires CursorNeedsViewOnly(c) && IsDesktop(conn) && AtLogin(f) && TouchesFlags(name)
    requires f in p <==> Shows(mine, f)
    ensures var p' := ReceivedIfAny(p, ToggleMessage(mine, c.on, name));
            (f in p' <==> Shows(Toggled(c, name).on, f))
            <==> if FieldOf(name) == Some(f) then InStep(c, conn, name) else Kept(mine, c, name, f)
  {
    if name.ViewOnly? {
      FieldAfterViewOnly(p, mine, c, f);
    } else if FieldOf(name) == Some(f) {
      FlipMessage(mine, c.on, name);
      OwnFieldAfterFlip(c, conn, name);
    } else {
      OtherFieldKept(p, mine, c, name, f);
    }
  }

  lemma OtherFieldKept(p: PeerOptions, mine: set<OptionName>, c: Toggles, name: OptionName, f: Field)
    requires TouchesFlags(name) && !name.ViewOnly? && FieldOf(name) != Some(f)
    requires f in p <==> Shows(mine, f)
    ensures (f in ReceivedIfAny(p, ToggleMessage(mine, c.on, name)) <==> Shows(Toggled(c, name).on, f))
            <==> Kept(mine, c, name, f)
  {
    if FieldOf(name).Some? {
      FlipMessage(mine, c.on, name);
    }
    assert f !in ToggleMessage(mine, c.on, name).value;
  }

  lemma FlipMessage(mine: set<OptionName>, on: set<OptionName>, name: OptionName)
    requires FieldOf(name).Some?
    ensures ToggleMessage(mine, on, name) == Some(map[FieldOf(name).value := name !in on])
  {
  }

  lemma OwnFieldAfterFlip(c: Toggles, conn: ConnType, name: OptionName)
    requires CursorNeedsViewOnly(c) && IsDesktop(conn) && FieldOf(name).Some? && AtLogin(FieldOf(name).value)
    ensures (name !in c.on <==> Shows(Toggled(c, name).on, FieldOf(name).value)) <==> InStep(c, conn, name)
  {
  }

  lemma FieldEnteringViewOnly(p: PeerOptions, mine: set<OptionName>, c: Toggles, f: Field)
    requires AtLogin(f) && ViewOnly !in c.on
    requires f in p <==> Shows(mine, f)
    ensures (f in ReceivedIfAny(p, ToggleMessage(mine, c.on, ViewOnly)) <==> Shows(c.on + {ViewOnly}, f))
            <==> Kept(mine, c, ViewOnly, f)
  {
  }

  lemma FieldLeavingViewOnly(p: PeerOptions, mine: set<OptionName>, c: Toggles, f: Field)
    requires AtLogin(f) && ViewOnly in c.on
    requires f in p <==> Shows(mine, f)
    ensures (f in ReceivedIfAny(p, ToggleMessage(mine, c.on, ViewOnly)) <==> Shows(c.on - {ViewOnly, ShowMyCursor}, f))
            <==> Kept(mine, c, ViewOnly, f)
  {
  }

  lemma FieldAfterViewOnly(p: PeerOptions, mine: set<OptionName>, c: Toggles, f: Field)
    requires AtLogin(f)
    requires f in p <==> Shows(mine, f)
    ensures (f in ReceivedIfAny(p, ToggleMessage(mine, c.on, ViewOnly)) <==> Shows(Toggled(c, ViewOnly).on, f))
            <==> Kept(mine, c, ViewOnly, f)
  {
    if ViewOnly in c.on {
      FieldLeavingViewOnly(p, mine, c, f);
    } else {
      FieldEnteringViewOnly(p, mine, c, f);
    }
  }

  /** With one copy of the flags every other field is kept. */
  lemma OneCopyKept(c: Toggles, name: OptionName, f: Field)
    requires CursorNeedsViewOnly(c) && AtLogin(f) && TouchesFlags(name) && FieldOf(name) != Some(f)
    ensures Kept(c.on, c, name, f)
  {
  }

  // ---- sessions ----

  /** A session's own copy of the configuration, the stored one, and the peer. */
  datatype Session = Session(mine: Toggles, stored: Toggles, peer: PeerOptions)

  /** Toggling in this session, or another session with the peer storing something else. */
  datatype Event = Toggle(name: OptionName) | Elsewhere(stored: Toggles)

  function After(s: Session, e: Event): Session {
    match e
    case Elsewhere(stored) => s.(stored := stored)
    case Toggle(name) =>
      var peer := ReceivedIfAny(s.peer, ToggleMessage(s.mine.on, s.stored.on, name));
      if name.BlockInput? || name.UnblockInput? then s.(peer := peer)
      else
        var c := Toggled(if name.Other? then s.mine else s.stored, name);
        Session(c, c, peer)
  }

  predicate CursorsNeedViewOnly(s: Session) {
    CursorNeedsViewOnly(s.mine) && CursorNeedsViewOnly(s.stored)
  }

  /** The toggle is in step with the stored flags, and those are the session's own as far as it matters. */
  predicate StaysInStep(s: Session, conn: ConnType, name: OptionName) {
    TouchesFlags(name) ==>
      if IsDesktop(conn) then
        && InStep(s.stored, conn, name)
        && forall f :: f in ALL_FIELDS && AtLogin(f) && FieldOf(name) != Some(f) ==> Kept(s.mine.on, s.stored, name, f)
      else
        conn.Terminal? && !name.TerminalPersistent? ==>
          (TerminalPersistent in s.mine.on <==> TerminalPersistent in s.stored.on)
  }

  /** Untouched flags leave the peer agreeing. */
  lemma OtherToggleAgrees(s: Session, conn: ConnType, name: OptionName)
    requires Agrees(s.peer, s.mine, conn) && !TouchesFlags(name)
    ensures Agrees(After(s, Toggle(name)).peer, After(s, Toggle(name)).mine, conn)
  {
    var s' := After(s, Toggle(name));
    assert s'.mine.on == s.mine.on;
    if IsDesktop(conn) {
      forall f | AtLogin(f)
        ensures f in s'.peer <==> f in Derived(s'.mine, conn)
      {
        DesktopDerived(s.mine, conn, f);
        DesktopDerived(s'.mine, conn, f);
      }
    }
  }

  lemma DesktopToggleAgreesIff(s: Session, conn: ConnType, name: OptionName)
    requires IsDesktop(conn) && TouchesFlags(name) && CursorNeedsViewOnly(s.stored) && Agrees(s.peer, s.mine, conn)
    ensures Agrees(After(s, Toggle(name)).peer, After(s, Toggle(name)).mine, conn) <==> StaysInStep(s, conn, name)
  {
    var s' := After(s, Toggle(name));
    forall f | AtLogin(f)
      ensures (f in s'.peer <==> f in Derived(s'.mine, conn))
              <==> if FieldOf(name) == Some(f) then InStep(s.stored, conn, name) else Kept(s.mine.on, s.stored, name, f)
    {
      DesktopDerived(s.mine, conn, f);
      DesktopDerived(s'.mine, conn, f);
      FieldAfterToggle(s.peer, s.mine.on, s.stored, conn, name, f);
    }
    if !InStep(s.stored, conn, name) {
      assert AtLogin(FieldOf(name).value);
    }
  }

  /** After a toggle the peer still agrees exactly if the toggle stays in step. */
  lemma ToggleAgreesIffInStep(s: Session, conn: ConnType, name: OptionName)
    requires Agrees(s.peer, s.mine, conn) && (IsDesktop(conn) ==> CursorNeedsViewOnly(s.stored))
    ensures Agrees(After(s, Toggle(name)).peer, After(s, Toggle(name)).mine, conn) <==> StaysInStep(s, conn, name)
  {
    if !TouchesFlags(name) {
      OtherToggleAgrees(s, conn, name);
    } else if IsDesktop(conn) {
      DesktopToggleAgreesIff(s, conn, name);
    }
  }

  lemma ToggleKeepsCursors(s: Session, conn: ConnType, name: OptionName)
    requires IsDesktop(conn) && CursorsNeedViewOnly(s) && StaysInStep(s, conn, name)
    ensures CursorsNeedViewOnly(After(s, Toggle(name)))
  {
  }

  /** While nobody else stores anything, staying in step is a matter of the toggle alone. */
  lemma OneCopyStaysInStepIff(s: Session, conn: ConnType, name: OptionName)
    requires s.mine == s.stored && CursorNeedsViewOnly(s.stored)
    ensures StaysInStep(s, conn, name) <==> TouchesFlags(name) ==> InStep(s.stored, conn, name)
  {
    if TouchesFlags(name) && IsDesktop(conn) {
      forall f | f in ALL_FIELDS && AtLogin(f) && FieldOf(name) != Some(f)
        ensures Kept(s.mine.on, s.stored, name, f)
      {
        OneCopyKept(s.stored, name, f);
      }
    }
  }

  function AfterAll(s: Session, events: seq<Event>): Session
    decreases |events|
  {
    if events == [] then s else AfterAll(After(s, events[0]), events[1..])
  }

  /** A run goes event by event. */
  lemma {:induction false} OneMoreEvent(s: Session, events: seq<Event>, e: Event)
    ensures AfterAll(s, []) == s
    ensures AfterAll(s, events + [e]) == After(AfterAll(s, events), e)
    decreases |events|
  {
    if events == [] {
      assert (events + [e])[1..] == [];
    } else {
      assert (events + [e])[1..] == events[1..] + [e];
      OneMoreEvent(After(s, events[0]), events[1..], e);
    }
  }

  predicate AllInStep(s: Session, conn: ConnType, events: seq<Event>)
    decreases |events|
  {
    events != [] ==>
      && (match events[0]
          case Toggle(name) => StaysInStep(s, conn, name)
          case Elsewhere(stored) => IsDesktop(conn) ==> CursorNeedsViewOnly(stored))
      && AllInStep(After(s, events[0]), conn, events[1..])
  }

  /** Login, then any toggles in step: the peer always holds what the session's configuration says. */
  lemma PeerFollowsConfig(c: Toggles, conn: ConnType, events: seq<Event>)
    requires IsDesktop(conn) || conn.Terminal?
    requires IsDesktop(conn) ==> CursorNeedsViewOnly(c)
    requires AllInStep(Session(c, c, Derived(c, conn)), conn, events)
    ensures var s := AfterAll(Session(c, c, Derived(c, conn)), events);
            Agrees(s.peer, s.mine, conn) && (IsDesktop(conn) ==> CursorsNeedViewOnly(s))
  {
    if IsDesktop(conn) {
      DesktopAgrees(Session(c, c, Derived(c, conn)), conn, events);
    } else {
      TerminalAgrees(Session(c, c, Derived(c, conn)), events);
    }
  }

  lemma {:induction false} DesktopAgrees(s: Session, conn: ConnType, events: seq<Event>)
    requires CursorsNeedViewOnly(s) && Agrees(s.peer, s.mine, conn) && IsDesktop(conn)
    requires AllInStep(s, conn, events)
    ensures var s' := AfterAll(s, events);
            Agrees(s'.peer, s'.mine, conn) && CursorsNeedViewOnly(s')
    decreases |events|
  {
    if events == [] {
    } else {
      if events[0].Toggle? {
        ToggleAgreesIffInStep(s, conn, events[0].name);
        ToggleKeepsCursors(s, conn, events[0].name);
      }
      DesktopAgrees(After(s, events[0]), conn, events[1..]);
    }
  }

  lemma {:induction false} TerminalAgrees(s: Session, events: seq<Event>)
    requires FTerminalPersistent in s.peer <==> TerminalPersistent in s.mine.on
    requires AllInStep(s, Terminal, events)
    ensures var s' := AfterAll(s, events); Agrees(s'.peer, s'.mine, Terminal)
    decreases |events|
  {
    if events == [] {
    } else {
      TerminalAgrees(After(s, events[0]), events[1..]);
    }
  }

  /** Switching view-only on and off again restores the session, whatever was set before. */
  lemma ViewOnlyRoundTrip(s: Session, conn: ConnType)
    requires IsDesktop(conn) && s.mine == s.stored && ViewOnly !in s.stored.on
    requires CursorNeedsViewOnly(s.stored) && Agrees(s.peer, s.mine, conn)
    ensures After(After(s, Toggle(ViewOnly)), Toggle(ViewOnly)) == s
  {
    var once := After(s, Toggle(ViewOnly));
    var s' := After(once, Toggle(ViewOnly));
    assert s'.mine.on == s.mine.on;
    forall f
      ensures f in s'.peer <==> f in s.peer
    {
      if AtLogin(f) {
        DesktopDerived(s.mine, conn, f);
        ViewOnlyTwice(s, conn, f);
      }
    }
  }

  lemma ViewOnlyTwice(s: Session, conn: ConnType, f: Field)
    requires s.mine == s.stored && ViewOnly !in s.stored.on && CursorNeedsViewOnly(s.stored)
    requires AtLogin(f) && (f in s.peer <==> Shows(s.mine.on, f))
    ensures var once := After(s, Toggle(ViewOnly));
            f in After(once, Toggle(ViewOnly)).peer <==> Shows(After(once, Toggle(ViewOnly)).mine.on, f)
  {
    var once := After(s, Toggle(ViewOnly));
    OneCopyKept(s.stored, ViewOnly, f);
    FieldAfterViewOnly(s.peer, s.mine.on, s.stored, f);
    OneCopyKept(once.stored, ViewOnly, f);
    FieldAfterViewOnly(once.peer, once.mine.on, once.stored, f);
  }

  // ---- the object ----

  /** Set a field to yes if wanted. */
  function Mark(m: OptionMessage, f: Field, wanted: bool): (r: OptionMessage)
    requires forall g :: g in m ==> m[g]
    ensures forall g :: g in r <==> g in m || (wanted && g == f)
    ensures forall g :: g in r ==> r[g]
  {
    if wanted then m[f := true] else m
  }

  class ToggleStore {
    var config: Toggles
    constructor (config: Toggles)
      ensures this.config == config
    {
      this.config := config;
    }
  }

  class OptionHandler {
    const disk: ToggleStore
    const connType: ConnType
    var config: Toggles

    constructor (disk: ToggleStore, connType: ConnType)
      ensures this.disk == disk && this.connType == connType && config == disk.config
    {
      this.disk, this.connType, config := disk, connType, disk.config;
    }

    method SaveConfig(c: Toggles)
      modifies this, disk
      ensures config == disk.config == c
    {
      disk.config := c;
      config := c;
    }

    /** Toggle an option in the stored configuration; returns what to tell the peer. */
    method ToggleOption(name: OptionName) returns (m: Option<OptionMessage>)
      modifies this, disk
      ensures m == ToggleMessage(old(config).on, old(disk.config).on, name)
      ensures if name.BlockInput? || name.UnblockInput? then config == old(config) && disk.config == old(disk.config)
              else config == disk.config == Toggled(if name.Other? then old(config) else old(disk.config), name)
    {
      var option: OptionMessage := map[];
      var c := disk.config;
      if name.ShowQualityMonitor? || name.AllowSwapKey? {
        c := Flip(c, name);
      } else if name.PrivacyMode? {
        option := option[FPrivacy := PrivacyMode !in c.on];
      } else if FieldOf(name).Some? {
        c := Flip(c, name);
        option := option[FieldOf(name).value := name in c.on];
      } else if name.BlockInput? {
        option := option[FBlockInput := true];
      } else if name.UnblockInput? {
        option := option[FBlockInput := false];
      } else if name.ViewOnly? {
        c := Flip(c, name);
        if name in c.on {
          option := option[FNoKeyboard := true][FNoClipboard := true][FRemoteCursor := true]
                    [FFileTransfer := false][FLockAtEnd := false];
        } else {
          option := option[FNoKeyboard := false][FNoClipboard := DisableClipboard in config.on]
                    [FRemoteCursor := ShowRemoteCursor in config.on][FFileTransfer := EnableFileCopyPaste in config.on]
                    [FLockAtEnd := LockAfterSessionEnd in config.on];
          if ShowMyCursor in c.on {
            c := Flip(c, ShowMyCursor);
            option := option[FMyCursor := false];
          }
          assert c.on == old(disk.config).on - {ViewOnly, ShowMyCursor};
        }
      } else {
        var isSet := name.name in config.options && config.options[name.name] != "";
        config := config.(options := if isSet then config.options - {name.name} else config.options[name.name := "Y"]);
        disk.config := config;
        return None;
      }
      if !name.BlockInput? && !name.UnblockInput? {
        SaveConfig(c);
      }
      return Some(option);
    }

    method GetOptionMessage() returns (m: Option<OptionMessage>)
      ensures m == LoginOptions(config, connType)
    {
      if connType.PortForward? || connType.Rdp? || connType.FileTransfer? {
        return None;
      }
      var on := config.on;
      var msg: OptionMessage := map[];
      if connType.Terminal? {
        if TerminalPersistent in on {
          return Some(msg[FTerminalPersistent := true]);
        }
        return None;
      }
      msg := MarkViewOnly(msg);
      msg := Mark(msg, FFollowCursor, FollowRemoteCursor in on);
      msg := Mark(msg, FFollowWindow, FollowRemoteWindow in on);
      msg := Mark(msg, FNoAudio, DisableAudio in on);
      forall f
        ensures f in msg <==> Shows(on, f)
      {
      }
      assert msg == LoginOptions(config, connType).value;
      return Some(msg);
    }

    /** The fields that view-only has a say in. */
    method MarkViewOnly(m: OptionMessage) returns (msg: OptionMessage)
      requires m == map[]
      ensures forall f :: f in msg <==> Shows(config.on, f) && !f.FFollowCursor? && !f.FFollowWindow? && !f.FNoAudio?
      ensures forall f :: f in msg ==> msg[f]
    {
      var on := config.on;
      var viewOnly := ViewOnly in on;
      msg := Mark(m, FNoKeyboard, viewOnly);
      msg := Mark(msg, FRemoteCursor, viewOnly || ShowRemoteCursor in on);
      msg := Mark(msg, FMyCursor, viewOnly && ShowMyCursor in on);
      msg := Mark(msg, FLockAtEnd, !viewOnly && LockAfterSessionEnd in on);
      msg := Mark(msg, FFileTransfer, !viewOnly && EnableFileCopyPaste in on);
      msg := Mark(msg, FNoClipboard, viewOnly || DisableClipboard in on);
    }
  }
}
