/** Asking the rendezvous server for a relay, up to three times. */
module RelayRequest {
  import opened Wrappers

  datatype Response = RelayResponse(refuseReason: string) | OtherMessage | NoMessage

  /** Everything the network decides about one attempt. */
  datatype Attempt = Attempt(connect: Result<bool, string>, secureError: Option<string>, uuid: string,
                             sendError: Option<string>, response: Response)

  /** What an accepted attempt is remembered by. */
  datatype Grant = Grant(uuid: string, ipv4: bool)

  datatype Verdict = Accepted(grant: Grant) | Refused(reason: string) | Retry(error: string)

  const CONNECT_FAILED := "Failed to connect to rendezvous server: "
  const SECURE_FAILED := "Failed to secure tcp: "
  const REQUEST_FAILED := "Failed to request relay: "
  const UNREACHABLE := "Failed to connect to relay server"

  /** secured: a key and a token are given, so the connection is encrypted first. */
  function Judge(a: Attempt, secured: bool): Verdict {
    match a.connect
    case Err(e) => Retry(CONNECT_FAILED + e)
    case Ok(ipv4) =>
      if secured && a.secureError.Some? then Retry(SECURE_FAILED + a.secureError.value)
      else if a.sendError.Some? then Retry(REQUEST_FAILED + a.sendError.value)
      else if a.response.RelayResponse? then
        if a.response.refuseReason != "" then Refused(a.response.refuseReason) else Accepted(Grant(a.uuid, ipv4))
      else Retry("Timeout")
  }

  /** Accepted only if every part of the attempt went well; the grant is of that attempt. */
  lemma AcceptedIff(a: Attempt, secured: bool, grant: Grant)
    ensures Judge(a, secured) == Accepted(grant) <==>
            && a.connect == Ok(grant.ipv4) && (secured ==> a.secureError.None?) && a.sendError.None?
            && a.response == RelayResponse("") && a.uuid == grant.uuid
  {
  }

  /** Refused only by an answer that gives a reason. */
  lemma RefusedIff(a: Attempt, secured: bool, reason: string)
    ensures Judge(a, secured) == Refused(reason) <==>
            && a.connect.Ok? && (secured ==> a.secureError.None?) && a.sendError.None?
            && a.response == RelayResponse(reason) && reason != ""
  {
  }

  /** Anything else is tried again, with the error of the first part that failed. */
  lemma RetryError(a: Attempt, secured: bool)
    ensures a.connect.Err? ==>
              Judge(a, secured) == Retry("Failed to connect to rendezvous server: " + a.connect.error)
    ensures a.connect.Ok? && secured && a.secureError.Some? ==>
              Judge(a, secured) == Retry("Failed to secure tcp: " + a.secureError.value)
    ensures a.connect.Ok? && (secured ==> a.secureError.None?) && a.sendError.Some? ==>
              Judge(a, secured) == Retry("Failed to request relay: " + a.sendError.value)
    ensures a.connect.Ok? && (secured ==> a.secureError.None?) && a.sendError.None? && !a.response.RelayResponse? ==>
              Judge(a, secured) == Retry("Timeout")
  {
  }

  const ATTEMPTS := 3

  /** The pause after attempt i in milliseconds, a random part of up to 149 included. */
  function Pause(i: nat, random: nat): nat {
    (if i == 1 then 200 else if i == 2 then 500 else 1000) + random % 150
  }

  /** A fifth of a second after the first attempt, half a second after the second, else one; and the random part. */
  lemma PauseIs(i: nat, random: nat)
    ensures Pause(i, random) - random % 150 == if i == 1 then 200 else if i == 2 then 500 else 1000
  {
  }

  /**
   Attempts are made until one is accepted or refused, three at most, pausing in between. What
   comes back is the grant of the attempt that was accepted, the reason of the one that was
   refused, or the error of the third.
   */
  method RequestGrant(attempts: seq<Attempt>, secured: bool, randoms: seq<nat>)
    returns (r: Result<Grant, string>, tried: nat, pauses: seq<nat>)
    requires |attempts| == 3 && |randoms| == 2
    ensures 1 <= tried <= 3
    ensures forall k :: 0 <= k < tried - 1 ==> Judge(attempts[k], secured).Retry?
    ensures match Judge(attempts[tried - 1], secured)
            case Accepted(grant) => r == Ok(grant)
            case Refused(reason) => r == Err(reason)
            case Retry(error) => tried == 3 && r == Err(error)
    ensures pauses == [Pause(1, randoms[0]), Pause(2, randoms[1])][..tried - 1]
  {
    var succeed := false;
    var uuid := "";
    var ipv4 := true;
    var lastErr := "Timeout";
    pauses := [];
    tried := 0;
    while tried < ATTEMPTS
      invariant 0 <= tried <= ATTEMPTS
      invariant !succeed
      invariant forall k :: 0 <= k < tried ==> Judge(attempts[k], secured).Retry?
      invariant tried > 0 ==> lastErr == Judge(attempts[tried - 1], secured).error
      invariant pauses == [Pause(1, randoms[0]), Pause(2, randoms[1])][..if tried < 2 then tried else 2]
    {
      var a := attempts[tried];
      tried := tried + 1;
      if a.connect.Err? {
        lastErr := CONNECT_FAILED + a.connect.error;
        if tried < ATTEMPTS {
          pauses := pauses + [Pause(tried, randoms[tried - 1])];
        }
        continue;
      }
      if secured && a.secureError.Some? {
        lastErr := SECURE_FAILED + a.secureError.value;
        if tried < ATTEMPTS {
          pauses := pauses + [Pause(tried, randoms[tried - 1])];
        }
        continue;
      }
      ipv4 := a.connect.value;
      uuid := a.uuid;
      if a.sendError.Some? {
        lastErr := REQUEST_FAILED + a.sendError.value;
        if tried < ATTEMPTS {
          pauses := pauses + [Pause(tried, randoms[tried - 1])];
        }
        continue;
      }
      if a.response.RelayResponse? {
        if a.response.refuseReason != "" {
          return Err(a.response.refuseReason), tried, pauses;
        }
        succeed := true;
        break;
      }
      lastErr := "Timeout";
      if tried < ATTEMPTS {
        pauses := pauses + [Pause(tried, randoms[tried - 1])];
      }
    }
    if !succeed {
      return Err(lastErr), tried, pauses;
    }
    r := Ok(Grant(uuid, ipv4));
  }

  /** An open relay connection: where to, and the uuid both ends present. */
  datatype Relay = Relay(server: string, ipv4: bool, uuid: string)

  /** How opening the connection to the relay goes. */
  datatype Opening = Opened | Unreachable | SendFailed(error: string)

  method CreateRelay(server: string, grant: Grant, opening: Opening) returns (r: Result<Relay, string>)
    ensures match opening
            case Opened => r == Ok(Relay(server, grant.ipv4, grant.uuid))
            case Unreachable => r == Err("Failed to connect to relay server")
            case SendFailed(error) => r == Err(error)
  {
    if opening.Unreachable? {
      return Err(UNREACHABLE);
    }
    if opening.SendFailed? {
      return Err(opening.error);
    }
    r := Ok(Relay(server, grant.ipv4, grant.uuid));
  }

  /** Open the relay with the uuid and the address family of the attempt that was accepted. */
  method RequestRelay(attempts: seq<Attempt>, secured: bool, randoms: seq<nat>, server: string, opening: Opening)
    returns (r: Result<Relay, string>, tried: nat)
    requires |attempts| == 3 && |randoms| == 2
    ensures 1 <= tried <= 3
    ensures forall k :: 0 <= k < tried - 1 ==> Judge(attempts[k], secured).Retry?
    ensures match Judge(attempts[tried - 1], secured)
            case Refused(reason) => r == Err(reason)
            case Retry(error) => tried == 3 && r == Err(error)
            case Accepted(grant) =>
              match opening
              case Opened => r == Ok(Relay(server, grant.ipv4, grant.uuid))
              case Unreachable => r == Err("Failed to connect to relay server")
              case SendFailed(error) => r == Err(error)
  {
    var grant, count, _ := RequestGrant(attempts, secured, randoms);
    tried := count;
    if grant.Err? {
      return Err(grant.error), tried;
    }
    r := CreateRelay(server, grant.value, opening);
  }
}
