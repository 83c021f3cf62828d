/** `fetchWithFallback`: a target URL is requested through each CORS proxy
    in turn, and the body of the first successful response is returned. The
    network is a parameter `respond` giving the response to each request
    URL. */
module Relay {
  import opened Wrappers
  import opened Types

  /** The proxies, in order of preference. */
  const Proxies: seq<string> := [
    "https://api.codetabs.com/v1/proxy?quest=",
    "https://api.allorigins.win/raw?url=",
    "https://corsproxy.io/?url="
  ]

  /** What one `fetch` (and the `res.text()` after it) comes to: a response
      with its status and body, or a rejected promise. */
  datatype Response =
    | Reply(status: int, body: string)
    | NetworkFailure(reason: string)

  /** The error `fetchWithFallback` rethrows: the one caught last, or
      `All proxies failed.` when none was caught. */
  datatype FetchError =
    | Network(reason: string)
    | BadStatus(status: int)
    | AllProxiesFailed

  /** `res.ok`. */
  predicate IsOk(status: int) {
    200 <= status <= 299
  }

  /** The request URL for one proxy. */
  function RequestUrl(base: string, target: string, apis: Apis): (u: string)
    ensures |base| <= |u| && u[..|base|] == base
  {
    base + apis.encodeUriComponent(target)
  }

  /** The body of a successful response, or the error thrown for it. */
  function Attempt(res: Response): Result<string, FetchError> {
    match res
    case NetworkFailure(reason) => Err(Network(reason))
    case Reply(status, body) => if IsOk(status) then Ok(body) else Err(BadStatus(status))
  }

  /** The outcome of trying the proxies from index `k` on, `lastError`
      being what the earlier ones threw. */
  function FallbackFrom(bases: seq<string>, k: nat, target: string, apis: Apis,
                        respond: string -> Response, lastError: Option<FetchError>): Result<string, FetchError>
    decreases |bases| - k
  {
    if k >= |bases| then Err(lastError.GetOr(AllProxiesFailed))
    else
      match Attempt(respond(RequestUrl(bases[k], target, apis)))
      case Ok(body) => Ok(body)
      case Err(e) => FallbackFrom(bases, k + 1, target, apis, respond, Some(e))
  }

  function Fallback(bases: seq<string>, target: string, apis: Apis, respond: string -> Response): Result<string, FetchError> {
    FallbackFrom(bases, 0, target, apis, respond, None)
  }

  predicate Succeeds(bases: seq<string>, k: nat, target: string, apis: Apis, respond: string -> Response)
    requires k < |bases|
  {
    Attempt(respond(RequestUrl(bases[k], target, apis))).Ok?
  }

  /** The first proxy from `k` on whose request succeeds. */
  function FirstOkFrom(bases: seq<string>, k: nat, target: string, apis: Apis, respond: string -> Response): (r: Option<nat>)
    requires k <= |bases|
    ensures r.Some? ==> k <= r.value < |bases| && Succeeds(bases, r.value, target, apis, respond)
    ensures r.Some? ==> forall j :: k <= j < r.value ==> !Succeeds(bases, j, target, apis, respond)
    ensures r.None? <==> forall j :: k <= j < |bases| ==> !Succeeds(bases, j, target, apis, respond)
    decreases |bases| - k
  {
    if k == |bases| then None
    else if Succeeds(bases, k, target, apis, respond) then Some(k)
    else FirstOkFrom(bases, k + 1, target, apis, respond)
  }

  /** The outcome described without the loop: the body of the first proxy
      that succeeds; if none does, the error of the last proxy; with no
      proxy at all, `All proxies failed.`. */
  function FirstSuccess(bases: seq<string>, target: string, apis: Apis, respond: string -> Response): (r: Result<string, FetchError>)
    ensures r.Err? <==> forall j :: 0 <= j < |bases| ==> !Succeeds(bases, j, target, apis, respond)
  {
    match FirstOkFrom(bases, 0, target, apis, respond)
    case Some(i) => Ok(respond(RequestUrl(bases[i], target, apis)).body)
    case None =>
      if |bases| == 0 then Err(AllProxiesFailed)
      else
        assert !Succeeds(bases, |bases| - 1, target, apis, respond);
        Attempt(respond(RequestUrl(bases[|bases| - 1], target, apis)))
  }

  lemma {:induction false} FallbackFromIs(bases: seq<string>, k: nat, target: string, apis: Apis,
                                          respond: string -> Response, lastError: Option<FetchError>)
    requires k <= |bases|
    requires k == 0 ==> lastError.None?
    requires 0 < k ==>
      (!Succeeds(bases, k - 1, target, apis, respond) &&
       lastError == Some(Attempt(respond(RequestUrl(bases[k - 1], target, apis))).error))
    ensures FallbackFrom(bases, k, target, apis, respond, lastError) ==
      match FirstOkFrom(bases, k, target, apis, respond)
      case Some(i) => Ok(respond(RequestUrl(bases[i], target, apis)).body)
      case None =>
        if |bases| == 0 then Err(AllProxiesFailed)
        else Attempt(respond(RequestUrl(bases[|bases| - 1], target, apis)))
    decreases |bases| - k
  {
    if k < |bases| {
      var a := Attempt(respond(RequestUrl(bases[k], target, apis)));
      if a.Err? {
        FallbackFromIs(bases, k + 1, target, apis, respond, Some(a.error));
      }
    }
  }

  /** The loop agrees with the loop-free description, for any list of
      proxies. */
  lemma FallbackIsFirstSuccess(bases: seq<string>, target: string, apis: Apis, respond: string -> Response)
    ensures Fallback(bases, target, apis, respond) == FirstSuccess(bases, target, apis, respond)
  {
    FallbackFromIs(bases, 0, target, apis, respond, None);
  }

  /** With the three proxies `All proxies failed.` is never thrown: when
      every request fails, the error is the third proxy's. */
  lemma NeverAllProxiesFailed(target: string, apis: Apis, respond: string -> Response)
    ensures Fallback(Proxies, target, apis, respond) != Err(AllProxiesFailed)
    ensures Fallback(Proxies, target, apis, respond).Err? ==>
      Fallback(Proxies, target, apis, respond) == Attempt(respond(RequestUrl(Proxies[2], target, apis)))
  {
    FallbackIsFirstSuccess(Proxies, target, apis, respond);
  }

  /** The number of requests made: up to and including the first success,
      or all of them. */
  function AttemptCount(bases: seq<string>, target: string, apis: Apis, respond: string -> Response): (n: nat)
    ensures n <= |bases|
  {
    match FirstOkFrom(bases, 0, target, apis, respond)
    case Some(i) => i + 1
    case None => |bases|
  }

  /** Two failing proxies and a third that answers: the third body is
      returned after exactly three requests. */
  lemma ThirdProxyAnswers(target: string, apis: Apis, respond: string -> Response)
    requires !Succeeds(Proxies, 0, target, apis, respond) && !Succeeds(Proxies, 1, target, apis, respond)
    requires Succeeds(Proxies, 2, target, apis, respond)
    ensures FirstSuccess(Proxies, target, apis, respond) == Ok(respond(RequestUrl(Proxies[2], target, apis)).body)
    ensures AttemptCount(Proxies, target, apis, respond) == 3
  {
    assert FirstOkFrom(Proxies, 2, target, apis, respond) == Some(2);
  }

  /** A first proxy that answers is the only one asked. */
  lemma FirstProxyAnswers(target: string, apis: Apis, respond: string -> Response)
    requires Succeeds(Proxies, 0, target, apis, respond)
    ensures FirstSuccess(Proxies, target, apis, respond) == Ok(respond(RequestUrl(Proxies[0], target, apis)).body)
    ensures AttemptCount(Proxies, target, apis, respond) == 1
  {
  }

  /** The request URL of each proxy, in order. */
  function RequestUrls(bases: seq<string>, target: string, apis: Apis): seq<string> {
    seq(|bases|, i requires 0 <= i < |bases| => RequestUrl(bases[i], target, apis))
  }

  /** `fetchWithFallback(targetUrl)`: the proxies in order, stopping at the
      first success. `attempted` lists the URLs fetched, in order. */
  method FetchWithFallback(target: string, apis: Apis, respond: string -> Response)
    returns (r: Result<string, FetchError>, attempted: seq<string>)
    ensures r == FirstSuccess(Proxies, target, apis, respond)
    ensures attempted == RequestUrls(Proxies, target, apis)[..AttemptCount(Proxies, target, apis, respond)]
  {
    var lastError: Option<FetchError> := None;
    attempted := [];
    var k := 0;
    while k < |Proxies|
      invariant 0 <= k <= |Proxies|
      invariant forall j :: 0 <= j < k ==> !Succeeds(Proxies, j, target, apis, respond)
      invariant k == 0 ==> lastError.None?
      invariant 0 < k ==>
        (!Succeeds(Proxies, k - 1, target, apis, respond) &&
         lastError == Some(Attempt(respond(RequestUrl(Proxies[k - 1], target, apis))).error))
      invariant attempted == RequestUrls(Proxies, target, apis)[..k]
      invariant FallbackFrom(Proxies, k, target, apis, respond, lastError) == Fallback(Proxies, target, apis, respond)
    {
      var url := RequestUrl(Proxies[k], target, apis);
      attempted := attempted + [url];
      assert RequestUrls(Proxies, target, apis)[..k + 1] == RequestUrls(Proxies, target, apis)[..k] + [url];
      var res := respond(url);
      match Attempt(res)
      case Ok(body) =>
        FallbackIsFirstSuccess(Proxies, target, apis, respond);
        assert FirstOkFrom(Proxies, 0, target, apis, respond) == Some(k);
        return Ok(body), attempted;
      case Err(e) =>
        lastError := Some(e);
      k := k + 1;
    }
    FallbackIsFirstSuccess(Proxies, target, apis, respond);
    assert FirstOkFrom(Proxies, 0, target, apis, respond).None?;
    r := Err(lastError.GetOr(AllProxiesFailed));
  }
}
