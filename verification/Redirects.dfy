/**
 * The redirects that the TypeScript client follows. Resolving a location
 * against the current URL is a parameter.
 */
module Redirects {
  import opened Common

  const MAX_REDIRECTS: nat := 5

  datatype Url = Url(href: string, origin: string, isHttps: bool)

  /** A request: its URL when it can be resolved, its method, and what it carries. */
  datatype Request = Request(url: Option<Url>, verb: string, hasBody: bool, hasAuthorization: bool)

  datatype Reply = Reply(status: nat, location: Option<string>)

  type Resolver = (string, Url) -> Option<Url>

  datatype Outcome = Responded(status: nat) | NoReply | InvalidLocation | TooManyRedirects | Cycle

  /** The requests that were sent, in order, and how the call ended. */
  datatype Run = Run(requests: seq<Request>, outcome: Outcome)

  predicate IsRedirect(reply: Reply)
  {
    reply.location.Some? && reply.status in {301, 302, 303, 307, 308}
  }

  predicate KeepsAuthorization(from: Url, to: Url)
  {
    from.origin == to.origin && !(from.isHttps && !to.isHttps)
  }

  /** Whether a redirect turns the request into a GET without a body. */
  predicate BecomesGet(verb: string, status: nat)
  {
    status == 303 || ((status == 301 || status == 302) && verb == "POST")
  }

  function Redirected(req: Request, from: Url, to: Url, status: nat): Request
  {
    var get := BecomesGet(req.verb, status);
    Request(Some(to), if get then "GET" else req.verb, req.hasBody && !get,
            req.hasAuthorization && KeepsAuthorization(from, to))
  }

  function Before(req: Request, run: Run): Run
  {
    run.(requests := [req] + run.requests)
  }

  /** One call: `replies` are what the network would answer to its requests, one after the other. */
  function CheckedFetch(req: Request, hops: nat, visited: seq<string>, replies: seq<Reply>, resolve: Resolver): Run
    decreases |replies|
  {
    if replies == [] then Run([req], NoReply)
    else if !IsRedirect(replies[0]) then Run([req], Responded(replies[0].status))
    else if req.url.None? then Run([req], InvalidLocation)
    else
      var current := req.url.value;
      var next := resolve(replies[0].location.value, current);
      if next.None? then Run([req], InvalidLocation)
      else if hops >= MAX_REDIRECTS then Run([req], TooManyRedirects)
      else if next.value.href in visited then Run([req], Cycle)
      else
        Before(req, CheckedFetch(Redirected(req, current, next.value, replies[0].status), hops + 1,
                                 visited + [current.href], replies[1..], resolve))
  }

  function Fetch(req: Request, replies: seq<Reply>, resolve: Resolver): Run
  {
    CheckedFetch(req, 0, [], replies, resolve)
  }

  // ---- what holds of every chain ----

  function Sent(
    req: Request, hops: nat, visited: seq<string>, replies: seq<Reply>, resolve: Resolver): (sent: seq<Request>)
  {
    CheckedFetch(req, hops, visited, replies, resolve).requests
  }

  /** The second request of a call, when there is one, starts a call of its own. */
  lemma Unfold(req: Request, hops: nat, visited: seq<string>, replies: seq<Reply>, resolve: Resolver)
    returns (next: Url)
    requires |Sent(req, hops, visited, replies, resolve)| != 1
    ensures req.url.Some? && replies != [] && IsRedirect(replies[0]) && hops < MAX_REDIRECTS && next.href !in visited
    ensures resolve(replies[0].location.value, req.url.value) == Some(next)
    ensures var following := Redirected(req, req.url.value, next, replies[0].status);
      Sent(req, hops, visited, replies, resolve) ==
      [req] + Sent(following, hops + 1, visited + [req.url.value.href], replies[1..], resolve)
  {
    hide Redirected;
    next := resolve(replies[0].location.value, req.url.value).value;
  }

  /**
   * A call starts with its own request, stays within the limit, and only its first
   * request may have an unresolved URL.
   */
  lemma {:induction false} SentShape(
    req: Request, hops: nat, visited: seq<string>, replies: seq<Reply>, resolve: Resolver)
    requires hops <= MAX_REDIRECTS
    ensures var sent := Sent(req, hops, visited, replies, resolve);
      && 1 <= |sent| <= MAX_REDIRECTS + 1 - hops && |sent| <= |replies| + 1
      && sent[0] == req && forall k | 0 <= k < |sent| && (k > 0 || |sent| > 1) :: sent[k].url.Some?
    decreases |replies|
  {
    hide IsRedirect; hide KeepsAuthorization; hide BecomesGet;
    if |Sent(req, hops, visited, replies, resolve)| != 1 {
      var next := Unfold(req, hops, visited, replies, resolve);
      var following := Redirected(req, req.url.value, next, replies[0].status);
      SentShape(following, hops + 1, visited + [req.url.value.href], replies[1..], resolve);
    }
  }

  function Href(r: Request): string
  {
    if r.url.Some? then r.url.value.href else ""
  }

  /** No later request goes to a URL visited before the request in front of it. */
  lemma {:induction false} NeverBack(
    req: Request, hops: nat, visited: seq<string>, replies: seq<Reply>, resolve: Resolver)
    requires hops <= MAX_REDIRECTS
    ensures var sent := Sent(req, hops, visited, replies, resolve);
      && (forall k | 1 <= k < |sent| :: Href(sent[k]) !in visited)
      && (forall i, k | 0 <= i && i + 2 <= k < |sent| :: Href(sent[i]) != Href(sent[k]))
    decreases |replies|
  {
    hide CheckedFetch; hide IsRedirect; hide KeepsAuthorization; hide BecomesGet;
    var sent := Sent(req, hops, visited, replies, resolve);
    if |sent| != 1 {
      var next := Unfold(req, hops, visited, replies, resolve);
      var following := Redirected(req, req.url.value, next, replies[0].status);
      var longer := visited + [req.url.value.href];
      var rest := Sent(following, hops + 1, longer, replies[1..], resolve);
      SentShape(following, hops + 1, longer, replies[1..], resolve);
      NeverBack(following, hops + 1, longer, replies[1..], resolve);
      forall k | 1 <= k < |sent|
        ensures Href(sent[k]) !in visited && (k >= 2 ==> Href(sent[k]) != Href(req))
      {
        assert sent[k] == rest[k - 1];
        assert k >= 2 ==> Href(rest[k - 1]) !in longer;
      }
      forall i, k | 0 <= i && i + 2 <= k < |sent|
        ensures Href(sent[i]) != Href(sent[k])
      {
        assert i > 0 ==> sent[i] == rest[i - 1] && sent[k] == rest[k - 1];
      }
    }
  }

  /** The hop after request `i` neither changed the origin nor left https. */
  predicate StaysHomeAt(sent: seq<Request>, i: nat)
    requires i + 1 < |sent|
  {
    && sent[i].url.Some? && sent[i + 1].url.Some?
    && KeepsAuthorization(sent[i].url.value, sent[i + 1].url.value)
  }

  predicate StaysHome(sent: seq<Request>, k: nat)
    requires k < |sent|
  {
    forall i | 0 <= i < k :: StaysHomeAt(sent, i)
  }

  /** Request `i` was answered with a redirect that made the next one a GET. */
  predicate RewrittenAt(sent: seq<Request>, replies: seq<Reply>, i: nat)
    requires i < |sent| && i < |replies|
  {
    BecomesGet(sent[i].verb, replies[i].status)
  }

  predicate Rewritten(sent: seq<Request>, replies: seq<Reply>, k: nat)
    requires k < |sent| <= |replies| + 1
  {
    exists i | 0 <= i < k :: RewrittenAt(sent, replies, i)
  }

  lemma StaysHomeTail(sent: seq<Request>, k: nat)
    requires 0 < k < |sent|
    ensures StaysHome(sent, k) <==> StaysHomeAt(sent, 0) && StaysHome(sent[1..], k - 1)
  {
    hide KeepsAuthorization;
    assert forall i | 0 <= i < k - 1 :: StaysHomeAt(sent[1..], i) == StaysHomeAt(sent, i + 1);
    if StaysHomeAt(sent, 0) && StaysHome(sent[1..], k - 1) {
      forall i | 0 <= i < k
        ensures StaysHomeAt(sent, i)
      {
        if i > 0 {
          assert StaysHomeAt(sent[1..], i - 1);
        }
      }
    }
  }

  lemma RewrittenTail(sent: seq<Request>, replies: seq<Reply>, k: nat)
    requires 0 < k < |sent| <= |replies| + 1
    ensures Rewritten(sent, replies, k) <==> RewrittenAt(sent, replies, 0) || Rewritten(sent[1..], replies[1..], k - 1)
  {
    hide BecomesGet;
    assert forall i | 0 <= i < k - 1 :: RewrittenAt(sent[1..], replies[1..], i) == RewrittenAt(sent, replies, i + 1);
    if Rewritten(sent, replies, k) {
      var i :| 0 <= i < k && RewrittenAt(sent, replies, i);
      if i > 0 {
        assert RewrittenAt(sent[1..], replies[1..], i - 1);
      }
    }
    if Rewritten(sent[1..], replies[1..], k - 1) {
      var i :| 0 <= i < k - 1 && RewrittenAt(sent[1..], replies[1..], i);
      assert RewrittenAt(sent, replies, i + 1);
    }
  }

  /**
   * What request `k` carries: the credentials only as long as every hop stayed
   * home, method and body until a redirect rewrites them.
   */
  lemma {:induction false} CarriedAlong(
    req: Request, hops: nat, visited: seq<string>, replies: seq<Reply>, resolve: Resolver, k: nat)
    requires hops <= MAX_REDIRECTS && k < |Sent(req, hops, visited, replies, resolve)| <= |replies| + 1
    ensures var sent := Sent(req, hops, visited, replies, resolve);
      && sent[k].hasAuthorization == (req.hasAuthorization && StaysHome(sent, k))
      && sent[k].verb == (if Rewritten(sent, replies, k) then "GET" else req.verb)
      && sent[k].hasBody == (req.hasBody && !Rewritten(sent, replies, k))
    decreases |replies|
  {
    hide CheckedFetch; hide IsRedirect; hide KeepsAuthorization; hide BecomesGet; hide StaysHome; hide Rewritten;
    var sent := Sent(req, hops, visited, replies, resolve);
    SentShape(req, hops, visited, replies, resolve);
    if k == 0 {
      NothingYet(sent, replies);
    } else {
      var next := Unfold(req, hops, visited, replies, resolve);
      var following := Redirected(req, req.url.value, next, replies[0].status);
      var longer := visited + [req.url.value.href];
      var rest := Sent(following, hops + 1, longer, replies[1..], resolve);
      assert sent[1..] == rest && sent[1] == rest[0];
      SentShape(following, hops + 1, longer, replies[1..], resolve);
      CarriedAlong(following, hops + 1, longer, replies[1..], resolve, k - 1);
      StaysHomeTail(sent, k);
      RewrittenTail(sent, replies, k);
    }
  }

  lemma NothingYet(sent: seq<Request>, replies: seq<Reply>)
    requires 0 < |sent| <= |replies| + 1
    ensures StaysHome(sent, 0) && !Rewritten(sent, replies, 0)
  {
  }

  lemma {:induction false} HomeIsOneOrigin(sent: seq<Request>, k: nat, i: nat)
    requires i <= k < |sent| && StaysHome(sent, k) && sent[0].url.Some?
    ensures sent[i].url.Some? && sent[i].url.value.origin == sent[0].url.value.origin
    decreases i
  {
    if i > 0 {
      HomeIsOneOrigin(sent, k, i - 1);
      assert StaysHomeAt(sent, i - 1);
    }
  }

  /**
   * Over every chain of replies: at most six requests are sent; a URL is not
   * requested again once another request came in between; request `k` carries
   * the credentials exactly when the first one did and every hop up to it kept
   * origin and https, and then all requests up to it have one origin.
   */
  lemma RedirectsAreBounded(req: Request, replies: seq<Reply>, resolve: Resolver, i: nat, k: nat)
    requires i <= k < |Fetch(req, replies, resolve).requests|
    ensures var sent := Fetch(req, replies, resolve).requests;
      && |sent| <= MAX_REDIRECTS + 1 && |sent| <= |replies| + 1 && sent[0] == req
      && (i + 2 <= k ==> Href(sent[i]) != Href(sent[k]))
      && (sent[k].hasAuthorization <==> req.hasAuthorization && StaysHome(sent, k))
      && (sent[k].hasAuthorization && k > 0 ==>
            sent[i].url.Some? && sent[k].url.Some? && sent[i].url.value.origin == sent[k].url.value.origin)
      && sent[k].verb == (if Rewritten(sent, replies, k) then "GET" else req.verb)
      && sent[k].hasBody == (req.hasBody && !Rewritten(sent, replies, k))
  {
    hide CheckedFetch; hide StaysHome; hide Rewritten;
    var sent := Sent(req, 0, [], replies, resolve);
    SentShape(req, 0, [], replies, resolve);
    NeverBack(req, 0, [], replies, resolve);
    CarriedAlong(req, 0, [], replies, resolve, k);
    if sent[k].hasAuthorization && k > 0 {
      HomeIsOneOrigin(sent, k, i);
      HomeIsOneOrigin(sent, k, k);
    }
  }

  /** A POST keeps its method and body as long as only 307 and 308 redirect it. */
  lemma PostIsKept(req: Request, replies: seq<Reply>, resolve: Resolver, k: nat)
    requires k < |Fetch(req, replies, resolve).requests| <= |replies| + 1 && req.verb == "POST"
    ensures (forall i | 0 <= i < k :: replies[i].status == 307 || replies[i].status == 308)
      <==> Fetch(req, replies, resolve).requests[k].verb == "POST"
  {
    hide CheckedFetch;
    var sent := Sent(req, 0, [], replies, resolve);
    assert "GET"[0] != "POST"[0];
    CarriedAlong(req, 0, [], replies, resolve, k);
    if sent[k].verb == "POST" {
      forall i | 0 <= i < k
        ensures replies[i].status == 307 || replies[i].status == 308
      {
        RedirectedBy(req, 0, [], replies, resolve, i);
        CarriedAlong(req, 0, [], replies, resolve, i);
        assert !RewrittenAt(sent, replies, i);
      }
    }
  }

  /** Every request but the last was answered by a redirect. */
  lemma {:induction false} RedirectedBy(
    req: Request, hops: nat, visited: seq<string>, replies: seq<Reply>, resolve: Resolver, i: nat)
    requires i + 1 < |Sent(req, hops, visited, replies, resolve)| <= |replies| + 1
    ensures IsRedirect(replies[i])
    decreases |replies|
  {
    hide CheckedFetch; hide IsRedirect; hide Redirected;
    var next := Unfold(req, hops, visited, replies, resolve);
    if i > 0 {
      var following := Redirected(req, req.url.value, next, replies[0].status);
      RedirectedBy(following, hops + 1, visited + [req.url.value.href], replies[1..], resolve, i - 1);
    }
  }

  /**
   * Request `k` of a HEAD is still a HEAD exactly when no reply before it was
   * a 303: a 303 makes a GET of a HEAD too, and nothing else rewrites one.
   */
  lemma HeadIsKept(req: Request, replies: seq<Reply>, resolve: Resolver, k: nat)
    requires k < |Fetch(req, replies, resolve).requests| <= |replies| + 1 && req.verb == "HEAD"
    ensures (forall i | 0 <= i < k :: replies[i].status != 303)
      <==> Fetch(req, replies, resolve).requests[k].verb == "HEAD"
  {
    hide CheckedFetch;
    var sent := Sent(req, 0, [], replies, resolve);
    assert "GET"[0] != "HEAD"[0] && "HEAD"[0] != "POST"[0] && "GET"[0] != "POST"[0];
    CarriedAlong(req, 0, [], replies, resolve, k);
    forall i | 0 <= i < k
      ensures RewrittenAt(sent, replies, i) <==> replies[i].status == 303
    {
      CarriedAlong(req, 0, [], replies, resolve, i);
    }
  }
}
