/**
 Falling back from one TLS configuration to the next when an HTTP request fails, and
 remembering the one that worked. The two request functions of the program are both here.
 */
module TlsFallback {
  import opened Wrappers

  datatype TlsType = Rustls | NativeTls

  /** A TLS library, and whether invalid certificates are accepted. */
  datatype Config = Config(tls: TlsType, lenient: bool)

  datatype Outcome = Response | RequestError | OtherError

  /** How an attempt ends may depend on everything tried before it; the last element is the attempt. */
  type Network = seq<Config> -> Outcome

  datatype Cached = Cached(tls: Option<TlsType>, lenient: Option<bool>)

  class TlsCache {
    var entries: map<string, Cached>

    constructor ()
      ensures entries == map[]
    {
      entries := map[];
    }

    function Get(url: string): Cached
      reads this
    {
      if url in entries then entries[url] else Cached(None, None)
    }

    method Upsert(url: string, tls: TlsType, lenient: bool)
      modifies this
      ensures entries == old(entries)[url := Cached(Some(tls), Some(lenient))]
    {
      entries := entries[url := Cached(Some(tls), Some(lenient))];
    }
  }

  // ---- what is tried ----

  function TlsChoices(tls: Option<TlsType>): seq<TlsType> {
    if tls.Some? then [tls.value] else [Rustls, NativeTls]
  }

  function LenientChoices(lenient: Option<bool>): seq<bool> {
    if lenient.Some? then [lenient.value] else [false, true]
  }

  function WithEach(t: TlsType, ls: seq<bool>): (cs: seq<Config>)
    ensures |cs| == |ls| && forall k :: 0 <= k < |ls| ==> cs[k] == Config(t, ls[k])
  {
    seq(|ls|, k requires 0 <= k < |ls| => Config(t, ls[k]))
  }

  function Product(ts: seq<TlsType>, ls: seq<bool>): seq<Config> {
    if ts == [] then [] else WithEach(ts[0], ls) + Product(ts[1..], ls)
  }

  /** Every library that is open, each with every leniency that is open, strict first. */
  function Plan(tls: Option<TlsType>, lenient: Option<bool>): seq<Config> {
    Product(TlsChoices(tls), LenientChoices(lenient))
  }

  /** The same in the middle of a fallback, where the leniency may differ from the cached one. */
  function Remaining(tls: Option<TlsType>, lenient: Option<bool>, cached: Option<bool>): seq<Config> {
    WithEach(if tls.Some? then tls.value else Rustls, LenientChoices(lenient)) +
    (if tls.Some? then [] else WithEach(NativeTls, LenientChoices(cached)))
  }

  /** Work through a plan until something other than a request error happens. */
  function Walk(net: Network, tried: seq<Config>, plan: seq<Config>): (log: seq<Config>)
    ensures tried <= log
    decreases |plan|
  {
    if plan == [] then tried
    else
      var now := tried + [plan[0]];
      if net(now).RequestError? then Walk(net, now, plan[1..]) else now
  }

  lemma PlanIsRemaining(tls: Option<TlsType>, lenient: Option<bool>)
    ensures Plan(tls, lenient) == Remaining(tls, lenient, lenient)
  {
    var ls := LenientChoices(lenient);
    if tls.Some? {
      assert Product([tls.value], ls) == WithEach(tls.value, ls) + Product([tls.value][1..], ls);
      assert Product([tls.value][1..], ls) == [];
    } else {
      assert [Rustls, NativeTls][1..] == [NativeTls];
      assert Product([NativeTls][1..], ls) == [];
      assert Product([Rustls, NativeTls], ls) == WithEach(Rustls, ls) + Product([NativeTls], ls);
    }
  }

  /** With nothing cached: rustls strict, rustls lenient, native strict, native lenient. */
  lemma FullPlan()
    ensures Plan(None, None) ==
            [Config(Rustls, false), Config(Rustls, true), Config(NativeTls, false), Config(NativeTls, true)]
  {
  }

  /** With the library or the leniency cached, the other is still tried both ways. */
  lemma PartialPlans(tls: TlsType, lenient: bool)
    ensures Plan(Some(tls), None) == [Config(tls, false), Config(tls, true)]
    ensures Plan(None, Some(lenient)) == [Config(Rustls, lenient), Config(NativeTls, lenient)]
  {
    PlanIsRemaining(Some(tls), None);
    PlanIsRemaining(None, Some(lenient));
  }

  /** Never more than four configurations, and none twice. */
  lemma PlanHasNoRepeats(tls: Option<TlsType>, lenient: Option<bool>)
    ensures 1 <= |Plan(tls, lenient)| <= 4
    ensures forall i, j :: 0 <= i < j < |Plan(tls, lenient)| ==> Plan(tls, lenient)[i] != Plan(tls, lenient)[j]
  {
    PlanIsRemaining(tls, lenient);
  }

  /** A cached configuration is the only one ever tried, so a site that changes is not retried otherwise. */
  lemma CachedIsFinal(config: Config)
    ensures Plan(Some(config.tls), Some(config.lenient)) == [config]
  {
    PlanIsRemaining(Some(config.tls), Some(config.lenient));
  }

  /** The log of a walk: a prefix of the plan, all request errors but the last. */
  lemma {:induction false} WalkMeaning(net: Network, tried: seq<Config>, plan: seq<Config>)
    ensures var log := Walk(net, tried, plan);
            && |tried| <= |log| <= |tried| + |plan|
            && log == tried + plan[..|log| - |tried|]
            && (plan != [] ==> |log| > |tried|)
            && (forall k :: |tried| < k < |log| ==> net(log[..k]).RequestError?)
            && (plan != [] && net(log).RequestError? ==> log == tried + plan)
    decreases |plan|
  {
    if plan == [] {
    } else {
      var now := tried + [plan[0]];
      if net(now).RequestError? {
        WalkMeaning(net, now, plan[1..]);
        var log := Walk(net, now, plan[1..]);
        assert log == tried + plan[..|log| - |tried|];
        forall k | |tried| < k < |log|
          ensures net(log[..k]).RequestError?
        {
          if k == |now| {
            assert log[..k] == now;
          }
        }
        if plan[1..] == [] {
          assert log == now == tried + plan;
        }
      }
    }
  }

  // ---- the two functions ----

  function First(tls: Option<TlsType>, lenient: Option<bool>): Config {
    Config(if tls.Some? then tls.value else Rustls, lenient.Some? && lenient.value)
  }

  /** One failed attempt leaves the rest of the plan. */
  lemma RemainingStep(tls: Option<TlsType>, lenient: Option<bool>, cached: Option<bool>)
    ensures Remaining(tls, lenient, cached) ==
            [First(tls, lenient)] +
            if lenient.None? then Remaining(tls, Some(true), cached)
            else if tls.None? then Remaining(Some(NativeTls), cached, cached)
            else []
  {
  }

  /** The cache after a walk: only a configuration that answered is remembered. */
  ghost function CacheAfter(entries: map<string, Cached>, url: string, net: Network, log: seq<Config>)
    : map<string, Cached>
  {
    if log != [] && net(log).Response?
    then entries[url := Cached(Some(log[|log| - 1].tls), Some(log[|log| - 1].lenient))]
    else entries
  }

  /** An error of any kind leaves the cache; a response caches its configuration, for its site only. */
  lemma OnlyResponsesCached(entries: map<string, Cached>, url: string, net: Network, log: seq<Config>, site: string)
    requires log != []
    ensures var after, last := CacheAfter(entries, url, net, log), log[|log| - 1];
            && (!net(log).Response? ==> after == entries)
            && (net(log).Response? ==> url in after && after[url] == Cached(Some(last.tls), Some(last.lenient)))
            && (site != url ==>
                  (site in after <==> site in entries) && (site in entries ==> after[site] == entries[site]))
  {
  }

  method PostRequest_(cache: TlsCache, url: string, tls: Option<TlsType>, lenient: Option<bool>,
                      cached: Option<bool>, net: Network, tried: seq<Config>)
    returns (ok: bool, log: seq<Config>)
    modifies cache
    ensures log == Walk(net, tried, Remaining(tls, lenient, cached))
    ensures ok <==> log != [] && net(log).Response?
    ensures cache.entries == CacheAfter(old(cache.entries), url, net, log)
    decreases tls.None?, lenient.None?
  {
    RemainingStep(tls, lenient, cached);
    var config := First(tls, lenient);
    log := tried + [config];
    if tls.Some? && lenient.Some? {
      ok := net(log).Response?;
      if ok {
        cache.Upsert(url, config.tls, config.lenient);
      }
    } else {
      match net(log)
      case Response =>
        cache.Upsert(url, config.tls, config.lenient);
        ok := true;
      case RequestError =>
        if lenient.None? {
          ok, log := PostRequest_(cache, url, tls, Some(true), cached, net, log);
        } else {
          ok, log := PostRequest_(cache, url, Some(NativeTls), cached, cached, net, log);
        }
      case OtherError => ok := false;
    }
  }

  /** The general request: it refuses unknown methods and malformed headers before any attempt. */
  method GetHttpResponse(cache: TlsCache, url: string, verb: string, headerIsObject: bool, tls: Option<TlsType>,
                         lenient: Option<bool>, cached: Option<bool>, net: Network, tried: seq<Config>)
    returns (ok: bool, log: seq<Config>)
    modifies cache
    ensures var valid := verb in ["get", "post", "put", "delete"] && headerIsObject;
            && log == (if valid then Walk(net, tried, Remaining(tls, lenient, cached)) else tried)
            && (ok <==> valid && log != [] && net(log).Response?)
            && cache.entries == (if valid then CacheAfter(old(cache.entries), url, net, log) else old(cache.entries))
    decreases tls.None?, lenient.None?
  {
    RemainingStep(tls, lenient, cached);
    if verb !in ["get", "post", "put", "delete"] {
      return false, tried;
    }
    if !headerIsObject {
      return false, tried;
    }
    var config := First(tls, lenient);
    log := tried + [config];
    if tls.Some? && lenient.Some? {
      ok := net(log).Response?;
      if ok {
        cache.Upsert(url, config.tls, config.lenient);
      }
    } else {
      match net(log)
      case Response =>
        cache.Upsert(url, config.tls, config.lenient);
        ok := true;
      case RequestError =>
        if lenient.None? {
          ok, log := GetHttpResponse(cache, url, verb, headerIsObject, tls, Some(true), cached, net, log);
        } else {
          ok, log := GetHttpResponse(cache, url, verb, headerIsObject, Some(NativeTls), cached, cached, net, log);
        }
      case OtherError => ok := false;
    }
  }

  /** A request from the top: the whole plan the cache leaves open, and the cache updated to what worked. */
  method PostRequest(cache: TlsCache, url: string, net: Network) returns (ok: bool, log: seq<Config>)
    modifies cache
    ensures var known := url in old(cache.entries);
            && (known ==> log == Walk(net, [], Plan(old(cache.entries)[url].tls, old(cache.entries)[url].lenient)))
            && (!known ==> log == Walk(net, [], Plan(None, None)))
    ensures ok <==> log != [] && net(log).Response?
    ensures !ok ==> cache.entries == old(cache.entries)
    ensures ok ==>
              var last := log[|log| - 1];
              cache.entries == old(cache.entries)[url := Cached(Some(last.tls), Some(last.lenient))]
  {
    var c := cache.Get(url);
    PlanIsRemaining(c.tls, c.lenient);
    ok, log := PostRequest_(cache, url, c.tls, c.lenient, c.lenient, net, []);
  }
}
