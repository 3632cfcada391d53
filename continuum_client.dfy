/** The Continuum REST client: how a command call is shaped into an HTTP request, how the
    reply is classified, which resources are released, and which TLS protocols are
    enabled. The HTTP exchange itself is an oracle from request to reply. */
module ContinuumClient {
  import opened Wrappers
  import opened JavaText
  import C = ContinuumConstants
  import H = Host

  /** Connect and read timeout, in milliseconds. */
  const DEFAULT_TIMEOUT: int := 10000
  const AUTHORIZATION: string := "Authorization"
  /** `ContentType.APPLICATION_JSON`. */
  const APPLICATION_JSON: string := "application/json; charset=UTF-8"

  datatype Header = Header(name: string, value: string)

  /** What `post` hands to the HTTP client. */
  datatype Request = Request(url: string, headers: seq<Header>, payload: string, contentType: string,
                             connectTimeout: int, socketTimeout: int)

  /** The response entity: absent, readable as text, or failing to read. */
  datatype Entity = NoEntity | Body(text: string) | Unreadable(error: H.Exception)

  /** What the HTTP exchange produces: it throws, or answers with a status line and an entity. */
  datatype Reply = Threw(error: H.Exception) | Answered(status: int, reason: Option<string>, entity: Entity)

  /** The two closeable resources of one call. */
  datatype Resource = Response | Client

  /** Java's `int` division, which truncates toward zero. */
  function JavaDiv(a: int, b: int): (q: int)
    requires b > 0
    ensures 0 <= a ==> 0 <= a - q * b < b
    ensures a < 0 ==> -b < a - q * b <= 0
  {
    if a >= 0 then a / b else -((-a) / b)
  }

  /** The status test `responseCode / 100 == 2`. With truncating division this is the
      2xx range for every code, negative ones included. */
  function IsSuccess(code: int): (ok: bool)
    ensures ok <==> 200 <= code <= 299
  {
    JavaDiv(code, 100) == 2
  }

  /** The endpoint of a command: the base URL, a `/` only if the base lacks one, `api/`,
      then the command name. */
  function ApiUrl(serverUrl: string, command: string): (url: string)
    ensures StartsWith(url, serverUrl)
    ensures EndsWith(url, "/" + C.PATH_API + command)
    ensures |url| == |serverUrl| + (if EndsWith(serverUrl, "/") then 0 else 1) + |C.PATH_API| + |command|
  {
    var sep := if EndsWith(serverUrl, "/") then "" else "/";
    var url := serverUrl + sep + C.PATH_API + command;
    assert url[..|serverUrl|] == serverUrl;
    assert EndsWith(url, "/" + C.PATH_API + command) by {
      if sep == "" {
        assert url[|url| - |"/" + C.PATH_API + command|..] == serverUrl[|serverUrl| - 1..] + C.PATH_API + command;
      } else {
        assert url[|url| - |"/" + C.PATH_API + command|..] == sep + C.PATH_API + command;
      }
    }
    url
  }

  /** Exactly one separator: a base with and without its trailing slash give the same URL. */
  lemma ApiUrlSingleSeparator(serverUrl: string, command: string)
    requires !EndsWith(serverUrl, "/")
    ensures ApiUrl(serverUrl + "/", command) == ApiUrl(serverUrl, command)
  {
  }

  /** A base that already ends in `/` gets no second one. */
  lemma ApiUrlKeepsSlash(serverUrl: string, command: string)
    requires EndsWith(serverUrl, "/")
    ensures ApiUrl(serverUrl, command) == serverUrl + C.PATH_API + command
    ensures |ApiUrl(serverUrl, command)| == |serverUrl| + |C.PATH_API| + |command|
  {
  }

  /** `https://ctm.example.com` and `https://ctm.example.com/` address the same endpoint. */
  lemma ApiUrlExample()
    ensures ApiUrl("https://ctm.example.com", "set_pi_data") == "https://ctm.example.com/api/set_pi_data"
    ensures ApiUrl("https://ctm.example.com/", "set_pi_data") == "https://ctm.example.com/api/set_pi_data"
  {
    assert !EndsWith("https://ctm.example.com", "/") by {
      assert "https://ctm.example.com"[|"https://ctm.example.com"| - 1] == 'm';
    }
    assert EndsWith("https://ctm.example.com/", "/") by {
      assert "https://ctm.example.com/"[|"https://ctm.example.com/"| - 1..] == "/";
    }
  }

  /** The authorization header: present exactly when the token is non-`null`. */
  function AuthHeaders(apiToken: Option<string>): (headers: seq<Header>)
    ensures |headers| <= 1
    ensures |headers| == 1 <==> apiToken.Some?
    ensures apiToken.Some? ==> headers[0].name == AUTHORIZATION && headers[0].value == "Token " + apiToken.value
  {
    if apiToken.Some? then [Header(AUTHORIZATION, "Token " + apiToken.value)] else []
  }

  /** An empty token is not `null`, so it still produces a header. */
  lemma EmptyTokenStillSent()
    ensures AuthHeaders(Some("")) == [Header("Authorization", "Token ")]
    ensures AuthHeaders(None) == []
  {
    assert "Token " + "" == "Token ";
  }

  /** The request `post` sends for a command call. */
  function PostRequest(serverUrl: string, apiToken: Option<string>, command: string, payload: string): Request {
    Request(ApiUrl(serverUrl, command), AuthHeaders(apiToken), payload, APPLICATION_JSON, DEFAULT_TIMEOUT, DEFAULT_TIMEOUT)
  }

  /** Both timeouts of every request are the 10-second default, and the payload is sent
      unchanged as JSON. */
  lemma PostRequestSettings(serverUrl: string, apiToken: Option<string>, command: string, payload: string)
    ensures PostRequest(serverUrl, apiToken, command, payload).connectTimeout == 10000
    ensures PostRequest(serverUrl, apiToken, command, payload).socketTimeout == 10000
    ensures PostRequest(serverUrl, apiToken, command, payload).payload == payload
    ensures PostRequest(serverUrl, apiToken, command, payload).contentType == APPLICATION_JSON
  {
  }

  /** `readResponse`: the entity's text, `null` for no entity, or the read error. */
  function ReadResponse(entity: Entity): (r: Result<Option<string>, H.Exception>)
    ensures r.Failure? <==> entity.Unreadable?
    ensures r.Success? ==> (r.value.Some? <==> entity.Body?)
    ensures entity.Body? ==> r == Success(Some(entity.text))
  {
    match entity
    case NoEntity => Success(None)
    case Body(text) => Success(Some(text))
    case Unreadable(e) => Failure(e)
  }

  /** What `post` returns or throws for a reply: an exchange error propagates; the body is
      read first, so a read error wins over the status; then a non-2xx status fails with
      an `IOException` carrying the reason phrase. */
  function Classify(reply: Reply): (r: Result<Option<string>, H.Exception>)
    ensures r.Success? <==> reply.Answered? && !reply.entity.Unreadable? && IsSuccess(reply.status)
    ensures r.Success? ==> r == ReadResponse(reply.entity)
    ensures reply.Threw? ==> r == Failure(reply.error)
    ensures reply.Answered? && !reply.entity.Unreadable? && !IsSuccess(reply.status) ==> r == Failure(H.IOError(reply.reason))
  {
    match reply
    case Threw(e) => Failure(e)
    case Answered(status, reason, entity) =>
      var response := ReadResponse(entity);
      if response.Failure? then Failure(response.error)
      else if !IsSuccess(status) then Failure(H.IOError(reason))
      else Success(response.value)
  }

  /** The body is read on both paths: an unreadable body fails with its own error whatever
      the status, and a readable one decides nothing on its own. */
  lemma ReadBeforeClassify(status: int, reason: Option<string>, e: H.Exception)
    ensures Classify(Answered(status, reason, Unreadable(e))) == Failure(e)
  {
  }

  /** 204 with no entity succeeds with a `null` body; 404 fails with its reason. */
  lemma ClassifyExamples()
    ensures Classify(Answered(204, Some("No Content"), NoEntity)) == Success(None)
    ensures Classify(Answered(404, Some("Not Found"), Body("{}"))) == Failure(H.IOError(Some("Not Found")))
    ensures Classify(Answered(-200, None, Body("x"))).Failure?
  {
  }

  /** The resources `post` closes on an exit: the response only if the exchange produced
      one, then always the client. */
  function ClosedOnExit(reply: Reply): (closed: seq<Resource>)
    ensures Client in closed && closed[|closed| - 1] == Client
    ensures Response in closed <==> reply.Answered?
  {
    if reply.Answered? then [Response, Client] else [Client]
  }

  /** `closeQuietly`: closes a non-`null` resource and swallows the error `close` may
      raise; `closed` lists what was closed. The contract does not mention `closeFails`:
      what is closed is the same whether or not `close` fails. */
  method CloseQuietly(resource: Option<Resource>, closeFails: Resource -> bool) returns (closed: seq<Resource>)
    ensures closed == if resource.Some? then [resource.value] else []
  {
    closed := [];
    if resource.Some? {
      var failed := closeFails(resource.value);
      // a failure of close is ignored either way
      closed := [resource.value];
    }
  }

  /** `post`: builds the URL by appending, sends one request through `exchange`, and
      releases both resources in `finally`, whichever way the call ends. */
  method Post(serverUrl: string, apiToken: Option<string>, command: string, payload: string,
              exchange: Request -> Reply, closeFails: Resource -> bool)
    returns (request: Request, result: Result<Option<string>, H.Exception>, closed: seq<Resource>)
    ensures request == PostRequest(serverUrl, apiToken, command, payload)
    ensures result == Classify(exchange(request))
    ensures closed == ClosedOnExit(exchange(request))
  {
    var apiUrl := serverUrl;
    if !EndsWith(serverUrl, "/") {
      apiUrl := apiUrl + "/";
    }
    apiUrl := apiUrl + C.PATH_API;
    apiUrl := apiUrl + command;
    var headers := [];
    if apiToken.Some? {
      headers := headers + [Header(AUTHORIZATION, "Token " + apiToken.value)];
    }
    request := Request(apiUrl, headers, payload, APPLICATION_JSON, DEFAULT_TIMEOUT, DEFAULT_TIMEOUT);
    var reply := exchange(request);
    var httpResponse: Option<Resource> := None;
    if reply.Threw? {
      result := Failure(reply.error);
    } else {
      httpResponse := Some(Response);
      var response := ReadResponse(reply.entity);
      if response.Failure? {
        result := Failure(response.error);
      } else if JavaDiv(reply.status, 100) != 2 {
        result := Failure(H.IOError(reply.reason));
      } else {
        result := Success(response.value);
      }
    }
    var closedResponse := CloseQuietly(httpResponse, closeFails);
    var closedClient := CloseQuietly(Some(Client), closeFails);
    closed := closedResponse + closedClient;
  }

  /** The reference filter: the protocols not starting with `SSL`, in their order. */
  function NonSsl(protocols: seq<string>): (enabled: seq<string>)
    ensures |enabled| <= |protocols|
    ensures forall i :: 0 <= i < |enabled| ==> !StartsWith(enabled[i], "SSL")
  {
    if protocols == [] then []
    else
      var last := protocols[|protocols| - 1];
      NonSsl(protocols[..|protocols| - 1]) + (if StartsWith(last, "SSL") then [] else [last])
  }

  /** `prepareSocket`: walks the supported protocols and appends every one that does not
      start with `SSL`. */
  method PrepareSocket(supported: seq<string>) returns (enabled: seq<string>)
    ensures enabled == NonSsl(supported)
  {
    enabled := [];
    var i := 0;
    while i < |supported|
      invariant 0 <= i <= |supported|
      invariant enabled == NonSsl(supported[..i])
    {
      assert supported[..i + 1][..i] == supported[..i];
      if !StartsWith(supported[i], "SSL") {
        enabled := enabled + [supported[i]];
      }
      i := i + 1;
    }
    assert supported[..i] == supported;
  }

  /** A protocol is enabled exactly when it is supported and does not start with `SSL`. */
  lemma {:induction false} NonSslMembers(protocols: seq<string>, p: string)
    ensures p in NonSsl(protocols) <==> p in protocols && !StartsWith(p, "SSL")
  {
    if protocols != [] {
      var init := protocols[..|protocols| - 1];
      assert protocols == init + [protocols[|protocols| - 1]];
      NonSslMembers(init, p);
    }
  }

  /** Filtering distributes over concatenation, so the original order is kept. */
  lemma {:induction false} NonSslAppend(a: seq<string>, b: seq<string>)
    ensures NonSsl(a + b) == NonSsl(a) + NonSsl(b)
    decreases |b|
  {
    if b == [] {
      assert a + b == a;
    } else {
      var init := b[..|b| - 1];
      var last := b[|b| - 1];
      assert (a + b)[..|a + b| - 1] == a + init;
      assert (a + b)[|a + b| - 1] == last;
      NonSslAppend(a, init);
    }
  }

  /** `a` is obtained from `b` by deleting elements. */
  predicate IsSubsequence(a: seq<string>, b: seq<string>)
    decreases |b|
  {
    if a == [] then true
    else if b == [] then false
    else if a[|a| - 1] == b[|b| - 1] then IsSubsequence(a[..|a| - 1], b[..|b| - 1])
    else IsSubsequence(a, b[..|b| - 1])
  }

  lemma {:induction false} SubsequenceOfLonger(a: seq<string>, b: seq<string>, x: string)
    requires IsSubsequence(a, b)
    ensures IsSubsequence(a, b + [x])
    decreases |b|, 1
  {
    var bx := b + [x];
    assert bx[..|bx| - 1] == b;
    if a != [] && a[|a| - 1] == x {
      assert b != [];
      if a[|a| - 1] == b[|b| - 1] {
        SubsequenceOfLonger(a[..|a| - 1], b[..|b| - 1], b[|b| - 1]);
        assert b[..|b| - 1] + [b[|b| - 1]] == b;
      } else {
        SubsequenceDropLast(a, b);
        assert b[..|b| - 1] + [b[|b| - 1]] == b;
      }
    }
  }

  lemma {:induction false} SubsequenceDropLast(a: seq<string>, b: seq<string>)
    requires a != [] && IsSubsequence(a, b)
    ensures IsSubsequence(a[..|a| - 1], b)
    decreases |b|, 0
  {
    var init := a[..|a| - 1];
    if a[|a| - 1] == b[|b| - 1] {
      if init != [] {
        assert IsSubsequence(init, b[..|b| - 1]);
        SubsequenceOfLonger(init, b[..|b| - 1], b[|b| - 1]);
        assert b[..|b| - 1] + [b[|b| - 1]] == b;
      }
    } else {
      SubsequenceDropLast(a, b[..|b| - 1]);
      if init != [] {
        SubsequenceOfLonger(init, b[..|b| - 1], b[|b| - 1]);
        assert b[..|b| - 1] + [b[|b| - 1]] == b;
      }
    }
  }

  /** The enabled list is a subsequence of the supported list. */
  lemma {:induction false} NonSslIsSubsequence(protocols: seq<string>)
    ensures IsSubsequence(NonSsl(protocols), protocols)
  {
    if protocols != [] {
      var init := protocols[..|protocols| - 1];
      var last := protocols[|protocols| - 1];
      NonSslIsSubsequence(init);
      assert init + [last] == protocols;
      if StartsWith(last, "SSL") {
        assert NonSsl(protocols) == NonSsl(init) + [];
        assert NonSsl(protocols) == NonSsl(init);
        SubsequenceOfLonger(NonSsl(init), init, last);
        assert IsSubsequence(NonSsl(init), init + [last]);
      } else {
        var r := NonSsl(protocols);
        assert r == NonSsl(init) + [last];
        assert r[..|r| - 1] == NonSsl(init);
        assert protocols[..|protocols| - 1] == init;
      }
    }
  }

  /** Filtering twice enables nothing more than filtering once. */
  lemma {:induction false} NonSslIdempotent(protocols: seq<string>)
    ensures NonSsl(NonSsl(protocols)) == NonSsl(protocols)
  {
    if protocols != [] {
      var init := protocols[..|protocols| - 1];
      var last := protocols[|protocols| - 1];
      NonSslIdempotent(init);
      if StartsWith(last, "SSL") {
        assert NonSsl(protocols) == NonSsl(init) + [];
        assert NonSsl(protocols) == NonSsl(init);
      } else {
        assert NonSsl(protocols) == NonSsl(init) + [last];
        NonSslAppend(NonSsl(init), [last]);
        assert [last][..0] == [];
        assert NonSsl([last]) == NonSsl([]) + [last];
      }
    }
  }

  /** A JVM offering SSLv3 and three TLS versions enables only the TLS ones. */
  lemma PrepareSocketExample()
    ensures NonSsl(["SSLv2Hello", "SSLv3", "TLSv1", "TLSv1.1", "TLSv1.2"]) == ["TLSv1", "TLSv1.1", "TLSv1.2"]
  {
    var s := ["SSLv2Hello", "SSLv3", "TLSv1", "TLSv1.1", "TLSv1.2"];
    assert s == ["SSLv2Hello", "SSLv3"] + ["TLSv1", "TLSv1.1", "TLSv1.2"];
    NonSslAppend(["SSLv2Hello", "SSLv3"], ["TLSv1", "TLSv1.1", "TLSv1.2"]);
    assert ["SSLv2Hello", "SSLv3"][..1] == ["SSLv2Hello"];
    assert ["TLSv1", "TLSv1.1", "TLSv1.2"][..2] == ["TLSv1", "TLSv1.1"];
    assert ["TLSv1", "TLSv1.1"][..1] == ["TLSv1"];
    assert StartsWith("SSLv3", "SSL") && StartsWith("SSLv2Hello", "SSL");
    assert "TLSv1"[0] == 'T' && "TLSv1.1"[0] == 'T' && "TLSv1.2"[0] == 'T';
  }
}
