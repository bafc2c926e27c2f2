/** The GitHub provider client. The HTTP round trip is an input: for each
    request the client would send, the caller supplies what the network and
    the JSON decoder made of it. */
module GitHub {
  import opened Wrappers
  import opened Types
  import Decimal

  /** The client's credentials; the HTTP connection pool is not modelled. */
  datatype GitHubService = GitHubService(token: Option<string>, sshKey: Option<string>)

  /** One repository as GitHub's REST API reports it. */
  datatype GitHubRepo = GitHubRepo(
    id: u64,
    name: string,
    fullName: string,
    description: Option<string>,
    cloneUrl: string,
    sshUrl: string,
    stargazersCount: u32,
    forksCount: u32,
    private: bool)

  /** The envelope of a search reply. */
  datatype GitHubSearchResponse = GitHubSearchResponse(items: seq<GitHubRepo>, totalCount: u32)

  datatype Header = Header(name: string, value: string)

  /** A GET request: its URL and its headers in the order they were added. */
  datatype Request = Request(url: string, headers: seq<Header>) {
    /** Adds a header after those already present, as the request builder does. */
    function WithHeader(name: string, value: string): Request {
      Request(url, headers + [Header(name, value)])
    }
  }

  /** An HTTP status: the number and the reason phrase it prints with
      (the canonical phrase, or "<unknown status code>"). */
  type StatusNumber = x: int | 100 <= x < 1000 witness 200
  datatype StatusCode = StatusCode(code: StatusNumber, reason: string)

  predicate IsSuccess(status: StatusCode) {
    200 <= status.code < 300
  }

  /** How a status is printed: the number, a space, the reason phrase. */
  function StatusText(status: StatusCode): string {
    Decimal.Show(status.code) + " " + status.reason
  }

  /** What came back for one request: either sending failed, or a status
      arrived together with the outcome of decoding the body as JSON. */
  datatype Exchange<T> =
    | SendFailed(reason: string)
    | Received(status: StatusCode, body: Result<T, string>)

  /** One call of a listing operation: the request handed to `send`, if
      there was one, and what the operation returned. */
  datatype Call = Call(request: Option<Request>, result: AppResult<seq<Repository>>)

  const USER_AGENT := "git-tui-cloner/0.1.0"
  const ACCEPT := "application/vnd.github+json"
  const API_VERSION := "2022-11-28"
  const RATE_LIMIT_WARNING := "GitHub: To prevent hitting rate limits, please provide a GitHub token"
  const REQUEST_FAILED := "Request failed: "
  const STATUS_FAILED := "GitHub API Request Failed: "
  const PARSE_FAILED := "Failed to parse GitHub API response: "
  /** The text that begins reqwest's rendering of a request it could not
      build; the model keeps only this part. */
  const BUILDER_ERROR := "builder error"

  // ---------------------------------------------------------------- requests

  function AuthorizationHeaders(token: Option<string>): seq<Header> {
    if token.Some? then [Header("Authorization", "Bearer " + token.value)] else []
  }

  function FixedHeaders(): seq<Header> {
    [Header("User-Agent", USER_AGENT), Header("Accept", ACCEPT), Header("X-GitHub-Api-Version", API_VERSION)]
  }

  /** The request sent for `url`: the bearer token when there is one, then
      the three headers every request carries. */
  function RequestFor(svc: GitHubService, url: string): Request {
    Request(url, AuthorizationHeaders(svc.token) + FixedHeaders())
  }

  /** What an HTTP header value may contain: tab, or any character from
      space upwards except DEL. */
  predicate ValidHeaderValue(v: string) {
    forall i :: 0 <= i < |v| ==> v[i] == '\t' || (' ' <= v[i] && v[i] != '\U{7F}')
  }

  /** The request builder: the request so far, or the error of the first
      header value it refused; once in error it stays in error. */
  type Builder = Result<Request, string>

  /** `RequestBuilder::header`. */
  function AddHeader(builder: Builder, name: string, value: string): Builder {
    if builder.Failure? then builder
    else if !ValidHeaderValue(value) then Failure(BUILDER_ERROR)
    else Success(builder.value.WithHeader(name, value))
  }

  /** The builder `make_request` ends with for `url`: the request, unless the
      bearer value is not a valid header value. */
  function Built(svc: GitHubService, url: string): Builder {
    if svc.token.Some? && !ValidHeaderValue("Bearer " + svc.token.value) then Failure(BUILDER_ERROR)
    else Success(RequestFor(svc, url))
  }

  /** The bearer value is valid exactly when the token is. */
  lemma BearerValid(token: string)
    ensures ValidHeaderValue("Bearer " + token) <==> ValidHeaderValue(token)
  {
    var v := "Bearer " + token;
    if ValidHeaderValue(token) {
      forall i | 0 <= i < |v|
        ensures v[i] == '\t' || (' ' <= v[i] && v[i] != '\U{7F}')
      {
        if i >= 7 {
          assert v[i] == token[i - 7];
        }
      }
    }
    if ValidHeaderValue(v) {
      forall i | 0 <= i < |token|
        ensures token[i] == '\t' || (' ' <= token[i] && token[i] != '\U{7F}')
      {
        assert token[i] == v[i + 7];
      }
    }
  }

  /** Builds the request step by step, rebinding the builder. */
  method MakeRequest(svc: GitHubService, url: string) returns (request: Builder)
    ensures request == Built(svc, url)
  {
    request := Success(Request(url, []));
    if svc.token.Some? {
      request := AddHeader(request, "Authorization", "Bearer " + svc.token.value);
    }
    assert request.Success? ==> request.value == Request(url, AuthorizationHeaders(svc.token));
    assert ValidHeaderValue(USER_AGENT) && ValidHeaderValue(ACCEPT) && ValidHeaderValue(API_VERSION);
    request := AddHeader(request, "User-Agent", USER_AGENT);
    request := AddHeader(request, "Accept", ACCEPT);
    request := AddHeader(request, "X-GitHub-Api-Version", API_VERSION);
    if request.Success? {
      assert request.value.headers == AuthorizationHeaders(svc.token) + FixedHeaders();
    }
  }

  predicate HasHeader(request: Request, name: string) {
    exists i :: 0 <= i < |request.headers| && request.headers[i].name == name
  }

  /** A request that the builder accepts carries only valid header values. */
  lemma BuiltHeadersValid(svc: GitHubService, url: string)
    ensures Built(svc, url).Success? ==>
      forall i :: 0 <= i < |Built(svc, url).value.headers| ==> ValidHeaderValue(Built(svc, url).value.headers[i].value)
  {
    if Built(svc, url).Success? {
      var headers := Built(svc, url).value.headers;
      var auth := AuthorizationHeaders(svc.token);
      assert headers == auth + FixedHeaders();
      assert ValidHeaderValue(USER_AGENT) && ValidHeaderValue(ACCEPT) && ValidHeaderValue(API_VERSION);
      forall i | 0 <= i < |headers|
        ensures ValidHeaderValue(headers[i].value)
      {
        if i >= |auth| {
          assert headers[i] == FixedHeaders()[i - |auth|];
        }
      }
    }
  }

  /** An Authorization header is sent exactly when there is a token, and it
      carries that token as a bearer credential. */
  lemma AuthorizationIffToken(svc: GitHubService, url: string)
    ensures HasHeader(RequestFor(svc, url), "Authorization") <==> svc.token.Some?
    ensures svc.token.Some? ==> Header("Authorization", "Bearer " + svc.token.value) in RequestFor(svc, url).headers
  {
    var r := RequestFor(svc, url);
    if svc.token.Some? {
      assert r.headers[0].name == "Authorization";
    } else {
      assert r.headers == FixedHeaders();
      assert forall i :: 0 <= i < |r.headers| ==> r.headers[i].name != "Authorization" by {
        assert "User-Agent" != "Authorization" && "Accept" != "Authorization" && "X-GitHub-Api-Version" != "Authorization";
      }
    }
  }

  /** The user agent, the media type and the API version go with every
      request, token or not, as its last three headers. */
  lemma FixedHeadersAlways(svc: GitHubService, url: string)
    ensures var r := RequestFor(svc, url);
      r.url == url
      && |r.headers| >= 3
      && r.headers[|r.headers| - 3..] == FixedHeaders()
      && Header("User-Agent", USER_AGENT) in r.headers
      && Header("Accept", ACCEPT) in r.headers
      && Header("X-GitHub-Api-Version", API_VERSION) in r.headers
  {
    var r := RequestFor(svc, url);
    assert r.headers[|r.headers| - 3..] == FixedHeaders();
    assert r.headers[|r.headers| - 3] == Header("User-Agent", USER_AGENT);
    assert r.headers[|r.headers| - 2] == Header("Accept", ACCEPT);
    assert r.headers[|r.headers| - 1] == Header("X-GitHub-Api-Version", API_VERSION);
  }

  // -------------------------------------------------------------------- URLs

  const SEARCH_BASE := "https://api.github.com/search/repositories?q="
  const USER_REPOS_BASE := "https://api.github.com/user/repos?page="
  const PAGE_PARAM := "&page="
  const PER_PAGE_PARAM := "&per_page=30"

  /** The search endpoint for an already URL-encoded query. */
  function SearchUrl(encodedQuery: string, page: u32): string {
    SEARCH_BASE + (encodedQuery + (PAGE_PARAM + (Decimal.Show(page) + PER_PAGE_PARAM)))
  }

  /** The user listing endpoint; the page number, between the endpoint and
      the page size, reads back as `page`. */
  function UserReposUrl(page: u32): (url: string)
    ensures |url| > |USER_REPOS_BASE| + |PER_PAGE_PARAM|
    ensures url[..|USER_REPOS_BASE|] == USER_REPOS_BASE
    ensures url[|url| - |PER_PAGE_PARAM|..] == PER_PAGE_PARAM
    ensures var digits := url[|USER_REPOS_BASE|..|url| - |PER_PAGE_PARAM|];
      Decimal.AllDigits(digits) && Decimal.Value(digits) == page
  {
    var url := USER_REPOS_BASE + (Decimal.Show(page) + PER_PAGE_PARAM);
    assert url[|USER_REPOS_BASE|..|url| - |PER_PAGE_PARAM|] == Decimal.Show(page);
    Decimal.ValueOfShow(page);
    url
  }

  lemma CancelSuffix(a: string, b: string, c: string)
    requires a + c == b + c
    ensures a == b
  {
    assert |a| == |b|;
    assert a == (a + c)[..|a|];
    assert b == (b + c)[..|b|];
  }

  lemma CancelPrefix(c: string, a: string, b: string)
    requires c + a == c + b
    ensures a == b
  {
    assert a == (c + a)[|c|..];
    assert b == (c + b)[|c|..];
  }

  /** A numeral after a separator that is not a digit can be split off
      only one way. */
  lemma CancelNumeral(a: string, d1: string, b: string, d2: string)
    requires a + d1 == b + d2
    requires |a| > 0 && !Decimal.IsDigit(a[|a| - 1]) && Decimal.AllDigits(d1)
    requires |b| > 0 && !Decimal.IsDigit(b[|b| - 1]) && Decimal.AllDigits(d2)
    ensures a == b && d1 == d2
  {
    var x := a + d1;
    assert x[|a| - 1] == a[|a| - 1] && x[|b| - 1] == b[|b| - 1];
    assert a == x[..|a|] && b == x[..|b|];
    assert d1 == x[|a|..] && d2 == x[|b|..];
  }

  /** Different queries or different pages give different search URLs:
      the page number, after the last `=`, can be read back, and with it
      the query. */
  lemma SearchUrlInjective(q1: string, p1: u32, q2: string, p2: u32)
    ensures SearchUrl(q1, p1) == SearchUrl(q2, p2) <==> q1 == q2 && p1 == p2
  {
    if SearchUrl(q1, p1) == SearchUrl(q2, p2) {
      var d1, d2 := Decimal.Show(p1), Decimal.Show(p2);
      CancelPrefix(SEARCH_BASE, q1 + (PAGE_PARAM + (d1 + PER_PAGE_PARAM)), q2 + (PAGE_PARAM + (d2 + PER_PAGE_PARAM)));
      assert q1 + (PAGE_PARAM + (d1 + PER_PAGE_PARAM)) == ((q1 + PAGE_PARAM) + d1) + PER_PAGE_PARAM;
      assert q2 + (PAGE_PARAM + (d2 + PER_PAGE_PARAM)) == ((q2 + PAGE_PARAM) + d2) + PER_PAGE_PARAM;
      CancelSuffix((q1 + PAGE_PARAM) + d1, (q2 + PAGE_PARAM) + d2, PER_PAGE_PARAM);
      assert (q1 + PAGE_PARAM)[|q1 + PAGE_PARAM| - 1] == '=';
      assert (q2 + PAGE_PARAM)[|q2 + PAGE_PARAM| - 1] == '=';
      CancelNumeral(q1 + PAGE_PARAM, d1, q2 + PAGE_PARAM, d2);
      CancelSuffix(q1, q2, PAGE_PARAM);
      Decimal.ShowInjective(p1, p2);
    }
  }

  /** The page of a user listing URL can be read back from it. */
  lemma UserReposUrlInjective(p1: u32, p2: u32)
    ensures UserReposUrl(p1) == UserReposUrl(p2) <==> p1 == p2
  {
    if UserReposUrl(p1) == UserReposUrl(p2) {
      var d1, d2 := Decimal.Show(p1), Decimal.Show(p2);
      CancelPrefix(USER_REPOS_BASE, d1 + PER_PAGE_PARAM, d2 + PER_PAGE_PARAM);
      CancelSuffix(d1, d2, PER_PAGE_PARAM);
      Decimal.ShowInjective(p1, p2);
    }
  }

  // ----------------------------------------------------------- translation

  /** The provider-neutral value for one GitHub repository: the id printed
      in decimal, the counters renamed, no clone protocol chosen yet. */
  function ToRepository(r: GitHubRepo): (repo: Repository)
    ensures Decimal.AllDigits(repo.id) && Decimal.Value(repo.id) == r.id
    ensures repo.cloneType.None?
  {
    Decimal.ValueOfShow(r.id);
    Repository(
      id := Decimal.Show(r.id),
      name := r.name,
      fullName := r.fullName,
      description := r.description,
      cloneUrl := r.cloneUrl,
      sshUrl := r.sshUrl,
      stars := r.stargazersCount,
      forks := r.forksCount,
      private := r.private,
      cloneType := None)
  }

  /** Reads a repository back as the GitHub record it came from, when its id
      is a decimal numeral in the u64 range. */
  function FromRepository(repo: Repository): Option<GitHubRepo> {
    if Decimal.AllDigits(repo.id) && Decimal.Value(repo.id) < 0x1_0000_0000_0000_0000 then
      Some(GitHubRepo(
        id := Decimal.Value(repo.id),
        name := repo.name,
        fullName := repo.fullName,
        description := repo.description,
        cloneUrl := repo.cloneUrl,
        sshUrl := repo.sshUrl,
        stargazersCount := repo.stars,
        forksCount := repo.forks,
        private := repo.private))
    else
      None
  }

  /** The translation loses nothing: every field of the GitHub record can be
      recovered from the repository value. */
  lemma FromToRepository(r: GitHubRepo)
    ensures FromRepository(ToRepository(r)) == Some(r)
  {
  }

  /** Distinct GitHub records give distinct repository values. */
  lemma ToRepositoryInjective(a: GitHubRepo, b: GitHubRepo)
    ensures ToRepository(a) == ToRepository(b) <==> a == b
  {
    if ToRepository(a) == ToRepository(b) {
      FromToRepository(a);
      FromToRepository(b);
    }
  }

  /** `into_iter().map(..).collect()`: one repository per item, in order,
      element i made from item i alone. */
  function ToRepositories(items: seq<GitHubRepo>): (repos: seq<Repository>)
    ensures |repos| == |items|
    ensures forall i :: 0 <= i < |items| ==> repos[i] == ToRepository(items[i])
  {
    if items == [] then [] else [ToRepository(items[0])] + ToRepositories(items[1..])
  }

  /** Translating two pages one after the other is translating their
      concatenation: the order across pages is kept too. */
  lemma ToRepositoriesAppend(a: seq<GitHubRepo>, b: seq<GitHubRepo>)
    ensures ToRepositories(a + b) == ToRepositories(a) + ToRepositories(b)
  {
  }

  // -------------------------------------------------------------- responses

  /** What the client makes of one exchange: the send failure, a
      non-success status or a decode failure as a network error, in that
      order of precedence, and otherwise the decoded body. */
  function Decoded<T>(exchange: Exchange<T>): (r: AppResult<T>)
    ensures r.Failure? ==> r.error.NetworkError?
    ensures r.Success? <==> exchange.Received? && IsSuccess(exchange.status) && exchange.body.Success?
    ensures r.Success? ==> r.value == exchange.body.value
  {
    match exchange
    case SendFailed(reason) => Failure(NetworkError(REQUEST_FAILED + reason))
    case Received(status, body) =>
      if !IsSuccess(status) then
        Failure(NetworkError(STATUS_FAILED + StatusText(status)))
      else
        match body
        case Failure(e) => Failure(NetworkError(PARSE_FAILED + e))
        case Success(v) => Success(v)
  }

  /** A call that sends the built request and translates the items of the
      decoded reply; a builder in error fails `send` before anything goes
      out. */
  function Sent<T>(built: Builder, exchange: Exchange<T>, items: T -> seq<GitHubRepo>): (c: Call)
    ensures c.request == if built.Success? then Some(built.value) else None
    ensures built.Failure? ==> c.result == Failure(NetworkError(REQUEST_FAILED + built.error))
  {
    match built
    case Failure(e) => Call(None, Failure(NetworkError(REQUEST_FAILED + e)))
    case Success(request) =>
      match Decoded(exchange)
      case Failure(e) => Call(Some(request), Failure(e))
      case Success(v) => Call(Some(request), Success(ToRepositories(items(v))))
  }

  function Items(response: GitHubSearchResponse): seq<GitHubRepo> {
    response.items
  }

  function Refused(): Call {
    Call(None, Failure(ServiceWarning(RATE_LIMIT_WARNING)))
  }

  // ------------------------------------------------------------- operations

  /** `search_repositories`: refused without a token, before any request;
      otherwise at most one request to the search endpoint, whose reply is
      interpreted by `Decoded`. `encode` is the URL encoder. */
  function SearchRepositories(svc: GitHubService, query: string, page: u32, encode: string -> string,
                              exchange: Exchange<GitHubSearchResponse>): (c: Call)
    ensures c.request.Some? <==> svc.token.Some? && ValidHeaderValue(svc.token.value)
    ensures c.request.Some? ==> c.request.value == RequestFor(svc, SearchUrl(encode(query), page))
    ensures c.result.Failure? ==> c.result.error.NetworkError? || c.result.error.ServiceWarning?
    ensures c.result.Success? ==> exchange.Received? && exchange.body.Success?
                                  && |c.result.value| == |exchange.body.value.items|
  {
    if svc.token.None? then Refused()
    else
      BearerValid(svc.token.value);
      Sent(Built(svc, SearchUrl(encode(query), page)), exchange, Items)
  }

  /** `get_user_repositories`: the same gate and error mapping over the
      user listing endpoint, whose reply is a bare list of repositories. */
  function GetUserRepositories(svc: GitHubService, page: u32, exchange: Exchange<seq<GitHubRepo>>): (c: Call)
    ensures c.request.Some? <==> svc.token.Some? && ValidHeaderValue(svc.token.value)
    ensures c.request.Some? ==> c.request.value == RequestFor(svc, UserReposUrl(page))
    ensures c.result.Failure? ==> c.result.error.NetworkError? || c.result.error.ServiceWarning?
    ensures c.result.Success? ==> exchange.Received? && exchange.body.Success?
                                  && |c.result.value| == |exchange.body.value|
  {
    if svc.token.None? then Refused()
    else
      BearerValid(svc.token.value);
      Sent(Built(svc, UserReposUrl(page)), exchange, items => items)
  }

  function GetServiceName(svc: GitHubService): string {
    "GitHub"
  }

  predicate IsAuthenticated(svc: GitHubService) {
    svc.token.Some? || svc.sshKey.Some?
  }

  // ----------------------------------------------------------------- lemmas

  /** Without a token the search is refused with the rate-limit warning and
      no request is sent, whatever the network would have answered. */
  lemma SearchWithoutToken(svc: GitHubService, query: string, page: u32, encode: string -> string,
                           exchange: Exchange<GitHubSearchResponse>)
    requires svc.token.None?
    ensures SearchRepositories(svc, query, page, encode, exchange)
            == Call(None, Failure(ServiceWarning(RATE_LIMIT_WARNING)))
  {
  }

  /** The user listing is refused the same way, before any URL is built. */
  lemma ListWithoutToken(svc: GitHubService, page: u32, exchange: Exchange<seq<GitHubRepo>>)
    requires svc.token.None?
    ensures GetUserRepositories(svc, page, exchange) == Call(None, Failure(ServiceWarning(RATE_LIMIT_WARNING)))
  {
  }

  /** With a token that is not a valid header value the search fails with
      reqwest's builder error and sends nothing. With a valid token it sends
      exactly one request, to the search URL for the encoded query and page,
      and then: a send failure, a
      non-success status (whatever the body) and a decode failure each
      become a network error with its own prefix and no repositories; a
      decoded reply becomes its items, translated in order, with the total
      count dropped. */
  lemma SearchWithToken(svc: GitHubService, query: string, page: u32, encode: string -> string,
                        exchange: Exchange<GitHubSearchResponse>)
    requires svc.token.Some?
    ensures var c := SearchRepositories(svc, query, page, encode, exchange);
      !ValidHeaderValue(svc.token.value) ==> c == Call(None, Failure(NetworkError(REQUEST_FAILED + BUILDER_ERROR)))
    ensures var c := SearchRepositories(svc, query, page, encode, exchange);
      ValidHeaderValue(svc.token.value) ==>
        && c.request == Some(RequestFor(svc, SearchUrl(encode(query), page)))
        && (exchange.SendFailed? ==> c.result == Failure(NetworkError(REQUEST_FAILED + exchange.reason)))
        && (exchange.Received? && !IsSuccess(exchange.status) ==>
              c.result == Failure(NetworkError(STATUS_FAILED + StatusText(exchange.status))))
        && (exchange.Received? && IsSuccess(exchange.status) && exchange.body.Failure? ==>
              c.result == Failure(NetworkError(PARSE_FAILED + exchange.body.error)))
        && (exchange.Received? && IsSuccess(exchange.status) && exchange.body.Success? ==>
              c.result == Success(ToRepositories(exchange.body.value.items)))
  {
    BearerValid(svc.token.value);
  }

  /** The user listing behaves the same over the user repositories URL. */
  lemma ListWithToken(svc: GitHubService, page: u32, exchange: Exchange<seq<GitHubRepo>>)
    requires svc.token.Some?
    ensures var c := GetUserRepositories(svc, page, exchange);
      !ValidHeaderValue(svc.token.value) ==> c == Call(None, Failure(NetworkError(REQUEST_FAILED + BUILDER_ERROR)))
    ensures var c := GetUserRepositories(svc, page, exchange);
      ValidHeaderValue(svc.token.value) ==>
        && c.request == Some(RequestFor(svc, UserReposUrl(page)))
        && (exchange.SendFailed? ==> c.result == Failure(NetworkError(REQUEST_FAILED + exchange.reason)))
        && (exchange.Received? && !IsSuccess(exchange.status) ==>
              c.result == Failure(NetworkError(STATUS_FAILED + StatusText(exchange.status))))
        && (exchange.Received? && IsSuccess(exchange.status) && exchange.body.Failure? ==>
              c.result == Failure(NetworkError(PARSE_FAILED + exchange.body.error)))
        && (exchange.Received? && IsSuccess(exchange.status) && exchange.body.Success? ==>
              c.result == Success(ToRepositories(exchange.body.value)))
  {
    BearerValid(svc.token.value);
  }

  /** A search returns repositories exactly when there is a token that is a
      valid header value, the status is a success and the body decoded. */
  lemma SearchSucceedsIff(svc: GitHubService, query: string, page: u32, encode: string -> string,
                          exchange: Exchange<GitHubSearchResponse>)
    ensures SearchRepositories(svc, query, page, encode, exchange).result.Success?
            <==> && svc.token.Some? && ValidHeaderValue(svc.token.value)
                 && exchange.Received? && IsSuccess(exchange.status) && exchange.body.Success?
  {
    if svc.token.Some? {
      BearerValid(svc.token.value);
    }
  }

  /** Two replies with the same items and status give the same result,
      whatever total count they report. */
  lemma SearchIgnoresTotalCount(svc: GitHubService, query: string, page: u32, encode: string -> string,
                                status: StatusCode, items: seq<GitHubRepo>, n1: u32, n2: u32)
    ensures SearchRepositories(svc, query, page, encode, Received(status, Success(GitHubSearchResponse(items, n1))))
         == SearchRepositories(svc, query, page, encode, Received(status, Success(GitHubSearchResponse(items, n2))))
  {
  }

  /** The same items give the same repositories whether they came from a
      search or from the user listing. */
  lemma SearchAndListAgree(svc: GitHubService, query: string, page: u32, encode: string -> string,
                           status: StatusCode, items: seq<GitHubRepo>, total: u32)
    requires svc.token.Some? && IsSuccess(status)
    ensures SearchRepositories(svc, query, page, encode, Received(status, Success(GitHubSearchResponse(items, total)))).result
         == GetUserRepositories(svc, page, Received(status, Success(items))).result
  {
  }

  /** A client that gets past the token gate reports itself authenticated;
      the converse fails: an SSH key alone authenticates the client but does
      not open the search. */
  lemma GateAndAuthentication(svc: GitHubService, query: string, page: u32, encode: string -> string,
                              exchange: Exchange<GitHubSearchResponse>)
    ensures SearchRepositories(svc, query, page, encode, exchange).request.Some? ==> IsAuthenticated(svc)
    ensures svc.token.None? && svc.sshKey.Some? ==>
              IsAuthenticated(svc) && SearchRepositories(svc, query, page, encode, exchange).result.Failure?
  {
  }

  lemma IsAuthenticatedIff(svc: GitHubService)
    ensures IsAuthenticated(svc) <==> svc.token.Some? || svc.sshKey.Some?
  {
  }

  lemma ServiceNameIsGitHub(svc: GitHubService)
    ensures GetServiceName(svc) == "GitHub"
  {
  }
}
