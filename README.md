# git-tui-cloner: a verified model of the provider clients, error type and configuration

git-tui-cloner is a terminal client for finding repositories on GitHub and
GitLab and cloning them. Most of its code is HTTP, file I/O or unfinished
stubs. This project models the decisions made around those calls, in Dafny:

- **GitHub client** (`GitHub`, from `src/git_service/github.rs`). Both
  listing operations refuse to run without a token, and then send no request.
  The model builds the request (URL and headers), fails before sending when
  the bearer value is not a valid HTTP header value, and maps a failed send,
  a non-success status and a decode failure to network errors. It turns
  GitHub's repository records into the provider-neutral `Repository` in
  order. The client also reports its name and whether it is authenticated.
  The HTTP round trip is an input (`Exchange`): either the send failed, or a
  status arrived together with the outcome of JSON decoding. A listing
  operation returns a `Call`: the request it handed to `send`, if there was
  one, and its result. A missing token is reported as a `ServiceWarning`,
  and HTTP and decode failures become `NetworkError` messages. A listing
  returns as many repositories as the reply has items.
- **Shared types** (`Types`, from `src/types.rs`): `Repository`,
  `CloneType`, `GitCloneType`, the provider tag `GitService` and `AppError`
  with its `Display` rendering. The rendering is proved injective, because a
  reading function (`Classify`) inverts it.
- **Configuration** (`Config`, from `src/config.rs`): the default
  configuration and the path of the configuration file. `Load` and `Save`
  work over an abstract file system (`FileSystem`): a `Disk` value of file
  and directory entries, the paths that refuse reading and those that
  refuse writing (each with its io error), and the paths whose metadata
  cannot be read. A `FileSystem` object holds the disk, and `Save` changes
  it in place. `Save` is proved against the function `SaveOutcome`. When a
  save succeeded and the JSON decoder reads back what the encoder printed,
  loading returns the saved configuration. The exceptions are a file that
  refuses reading, which gives the read error, and a file whose metadata
  cannot be read, which gives the default.
- **GitLab client** (`GitLab`, from `src/git_service/gitlab.rs`) and the git
  client it composes (`Git`, from `src/git_service/git.rs`): authentication
  from the GitLab token or the git client's SSH key, the service name
  "GitLab" whatever the base URL, and clone delegation.

`Decimal` models Rust's decimal printing of unsigned integers. It is used
for repository ids, page numbers and status codes, and `Decimal.Value` reads
the digits back. `Wrappers` holds `Option` and `Result`.

Paths are sequences of components. Pushing a relative component appends it,
and the relative path `./projects` is `[".", "projects"]`.

## Model

| member | source | states |
|---|---|---|
| Types.Display | src/types.rs:41-50 | an error renders as its variant's fixed prefix followed by the message verbatim |
| Types.PrefixFree | src/types.rs:43-49 | one variant's prefix starts another's exactly when they are the same variant, so the five prefixes are distinct and prefix-free |
| Types.ClassifyDisplay | src/types.rs:42-50 | reading a rendered error back gives the same variant and message |
| Types.DisplayInjective | src/types.rs:42-50 | two errors render equal if and only if they are the same variant with the same message |
| Decimal.Show | src/git_service/github.rs:84 | integer printing gives a non-empty digit string with no leading zero |
| Decimal.ValueOfShow | src/git_service/github.rs:84 | the printed digits denote the number printed |
| Decimal.ShowInjective | src/git_service/github.rs:84 | distinct numbers print differently |
| Git.New | src/git_service/git.rs:12-14 | the plain git client carries no SSH key |
| Git.WithSshKey | src/git_service/git.rs:15-19 | the keyed git client carries exactly the given key |
| GitLab.CloneRepository | src/git_service/gitlab.rs:25-27 | clones through the composed git client, which is a function parameter. It has no contract of its own; `CloneDelegates` and `CloneIgnoresTokenAndBaseUrl` state what it does |
| GitLab.CloneDelegates | src/git_service/gitlab.rs:25-27 | GitLab cloning returns the composed git client's clone result for the same repository and destination |
| GitLab.CloneIgnoresTokenAndBaseUrl | src/git_service/gitlab.rs:25-27 | two GitLab services over the same git client clone alike, whatever their tokens and base URLs |
| GitLab.GetServiceName | src/git_service/gitlab.rs:29-31 | the service name. It has no contract of its own; `ServiceNameIsGitLab` states its value |
| GitLab.ServiceNameIsGitLab | src/git_service/gitlab.rs:29-31 | the service name is "GitLab" for every instance, whatever its base URL |
| GitLab.IsAuthenticated | src/git_service/gitlab.rs:33-35 | a GitLab token or an SSH key on the composed git client. It has no contract of its own; the three lemmas below state its cases |
| GitLab.AuthenticatedWithSshKey | src/git_service/gitlab.rs:33-35 | a service over `with_ssh_key` is authenticated whatever its token |
| GitLab.AuthenticatedWithToken | src/git_service/gitlab.rs:33-35 | a token authenticates whatever git client is composed |
| GitLab.UnauthenticatedWithoutCredentials | src/git_service/gitlab.rs:33-35 | a service with no token over `GitService::new()` is not authenticated |
| GitHub.MakeRequest | src/git_service/github.rs:35-45 | building the request header by header yields the URL with the bearer header (when there is a token) followed by the three fixed headers, or the builder error when the bearer value is not a valid header value |
| GitHub.BearerValid | src/git_service/github.rs:38-40 | "Bearer " followed by the token is a valid header value exactly when the token is |
| GitHub.BuiltHeadersValid | src/git_service/github.rs:35-45 | every header of a request the builder accepts has a valid value |
| GitHub.AuthorizationIffToken | src/git_service/github.rs:38-40 | an Authorization header is present if and only if there is a token, and its value is "Bearer " followed by the token |
| GitHub.FixedHeadersAlways | src/git_service/github.rs:42-45 | User-Agent `git-tui-cloner/0.1.0`, Accept `application/vnd.github+json` and X-GitHub-Api-Version `2022-11-28` are the last three headers of every request |
| GitHub.SearchUrl | src/git_service/github.rs:61-65 | the search endpoint with the encoded query, the page in decimal and the page size 30. It has no contract of its own; `SearchUrlInjective` states that the query and the page can be read back |
| GitHub.UserReposUrl | src/git_service/github.rs:105-108 | the URL starts with the user listing endpoint and ends with `&per_page=30`, and the digits between them read back as the page |
| GitHub.SearchUrlInjective | src/git_service/github.rs:61-65 | two search URLs are equal exactly when their encoded queries and their pages are, for every pair of queries and pages |
| GitHub.UserReposUrlInjective | src/git_service/github.rs:105-108 | user listing URLs are equal exactly when their pages are |
| GitHub.ToRepository | src/git_service/github.rs:83-94 | the repository id is a digit string that denotes the numeric id, and no clone protocol is set |
| GitHub.FromToRepository | src/git_service/github.rs:83-94 | every field of the GitHub record is recovered from the translated repository (names, URLs, description and visibility copied, stars and forks from the two counters) |
| GitHub.ToRepositoryInjective | src/git_service/github.rs:83-94 | distinct GitHub records translate to distinct repositories |
| GitHub.ToRepositories | src/git_service/github.rs:80-95 | the translation has one repository per item, in order, element i made from item i |
| GitHub.ToRepositoriesAppend | src/git_service/github.rs:120-134 | translating a concatenation is concatenating the translations |
| GitHub.Decoded | src/git_service/github.rs:67-78 | a reply yields its decoded value exactly when the send succeeded, the status is a success and the body decoded. Every failure is a NetworkError: a send failure, a non-success status or a decode failure |
| GitHub.Sent | src/git_service/github.rs:46-48 | a builder in error hands nothing to `send` and fails with "Request failed: " followed by its error. Otherwise the built request is the one handed to `send` |
| GitHub.SearchRepositories | src/git_service/github.rs:54-96 | a request is sent iff there is a token that is a valid header value, and it is the request for the search URL; failures are network errors or the warning; success needs a decoded reply and keeps its item count |
| GitHub.GetUserRepositories | src/git_service/github.rs:98-135 | the same for the user listing |
| GitHub.SearchWithoutToken | src/git_service/github.rs:54-59 | without a token, the search returns the rate-limit ServiceWarning and sends no request |
| GitHub.ListWithoutToken | src/git_service/github.rs:98-103 | without a token, the user listing returns the same warning and sends no request |
| GitHub.SearchWithToken | src/git_service/github.rs:61-95 | with a token that is not a valid header value, the search fails with the builder error and sends nothing. With a valid token, one request goes to the search URL. A send failure, a non-success status (any body) and a decode failure each give a NetworkError with its own prefix. A decoded reply gives its items translated |
| GitHub.ListWithToken | src/git_service/github.rs:105-134 | the same for the user listing URL, whose reply is a bare list |
| GitHub.SearchSucceedsIff | src/git_service/github.rs:54-95 | a search returns repositories iff there is a token that is a valid header value, the status is a success and the body decoded |
| GitHub.SearchIgnoresTotalCount | src/git_service/github.rs:76-82 | replies that differ only in total_count give the same call |
| GitHub.SearchAndListAgree | src/git_service/github.rs:80-95 | the same items translate to the same repositories in a search and in a user listing |
| GitHub.GateAndAuthentication | src/git_service/github.rs:55-59 | passing the token gate implies being authenticated; an SSH key alone authenticates but the search is still refused |
| GitHub.IsAuthenticated | src/git_service/github.rs:145-147 | a token or an SSH key. It has no contract of its own; `IsAuthenticatedIff` and `GateAndAuthentication` state it |
| GitHub.IsAuthenticatedIff | src/git_service/github.rs:145-147 | the client is authenticated iff it has a token or an SSH key |
| GitHub.GetServiceName | src/git_service/github.rs:141-143 | the service name. It has no contract of its own; `ServiceNameIsGitHub` states its value |
| GitHub.ServiceNameIsGitHub | src/git_service/github.rs:141-143 | the service name is always "GitHub" |
| Config.Default | src/config.rs:21-36 | the configuration used when none is saved. It has no contract of its own; `DefaultValues` states every field |
| Config.DefaultValues | src/config.rs:21-36 | the default has no tokens and no SSH key, the single instance GitLab at https://gitlab.com with no token, and clone path home + ["projects"], or ./projects without a home |
| Config.ConfigFile | src/config.rs:72-81 | the configuration file path for a home directory, the specification of `ConfigPath`. It has no contract of its own; `ConfigFileShape` states its shape |
| Config.ConfigPath | src/config.rs:72-81 | pushing three components onto the home directory gives the configuration file path; with no home directory it fails |
| Config.ConfigFileShape | src/config.rs:72-81 | with no home directory the result is ConfigError("Failed to determine home directory"). Otherwise the path is home followed by exactly .config, git-tui-cloner, config.json, and its parent is home + [.config, git-tui-cloner] |
| Config.Load | src/config.rs:40-52 | every failure of load is a ConfigError |
| Config.LoadCases | src/config.rs:40-52 | no home gives the home error. An absent file, or one whose metadata cannot be read, gives the default. A read failure gives "Failed to read config file: …" and a parse failure "Failed to parse config file: …". Otherwise the parsed configuration is returned |
| Config.SaveOutcome | src/config.rs:54-70 | what save returns and leaves on disk. Every failure is a ConfigError, and a success needs a home directory and a configuration that serialises |
| Config.Save | src/config.rs:54-70 | the result and the new file system are those of `SaveOutcome` for the old file system |
| Config.ConfigFileNotAboveItself | src/config.rs:57-58 | the directory created by save is the file's parent, and creating it never touches the file itself |
| Config.SaveCases | src/config.rs:54-70 | save stops at the first failing step with that step's message: home, creating the directory, serialising, writing. A failure after the directory was created leaves the directory |
| Config.FailedSaveKeepsConfigFile | src/config.rs:57-67 | a failing save reports a ConfigError and leaves the configuration file exactly as it was |
| Config.SavedConfigFile | src/config.rs:57-69 | after a successful save the directory exists and the file holds the serialised configuration. The only new entries are the directories on the way and the file. Every other entry that was there keeps its content, and the read faults, write faults and unstatable paths are unchanged |
| Config.SaveThenLoad | src/config.rs:40-70 | if the save succeeded and decoding inverts encoding, loading afterwards returns the saved configuration. The exceptions: a file that refuses reading gives "Failed to read config file: " with the read error, and a file whose metadata cannot be read gives the default |

## Left out

- The HTTP transport: the `reqwest` client, sending (src/git_service/github.rs:46-48) and every `.await`. The reply to each request is an input (`GitHub.Exchange`), and async code is modelled as plain sequential functions.
- JSON decoding and encoding (`response.json()`, `serde_json::from_str`, `serde_json::to_string_pretty`): decoding is part of the `Exchange` input, and `Config.Load` and `Config.Save` take the parser and printer as function parameters.
- `urlencoding::encode`: a function parameter of `GitHub.SearchRepositories`. Nothing is assumed about it, so no property relies on its output.
- The canonical reason phrases of HTTP statuses: a status is its number plus the phrase it prints with. The table from numbers to phrases is not modelled.
- `dirs::home_dir()`: a parameter. `load` calls it twice (once for the path, once for the default), and the model passes the same value to both.
- The file system: `std::fs` is the `FileSystem.Disk` model. `Path::exists` answers false for a path in `unstatable`. `read_to_string` fails only on a path listed in `readFaults`, and `create_dir_all` and `write` fail only on a path listed in `writeFaults`. `read_to_string` and `write` also refuse directories. The model does not derive failures of `create_dir_all` from a file standing on the path, or of `write` from a missing parent, unless that path is listed as a write fault. Roots and `..` components are not interpreted. Since the configuration path always has at least three components, `Path::parent` never returns `None` for it.
- `GitService::clone_repository` (src/git_service/git.rs:21-23) and GitHub's `clone_repository` (src/git_service/github.rs:137-139) are `todo!()`. The git client's clone is a function parameter of `GitLab.CloneRepository`, and GitHub's clone is not modelled.
- GitLab `search_repositories` and `get_user_repositories` (src/git_service/gitlab.rs:16-22) are `todo!()` and are not modelled. The GitLab base URL is carried but never used.
- The `GitServiceTrait` interface (src/git_service/mod.rs): Dafny traits are not used. Each provider module defines the operations under the same names instead.
- src/main.rs: printing and start-up only.
- The code does not compile as written, and the model follows its evident intent. `clone_type: None` is assigned to a field declared `CloneType`, so the field is modelled as `Option<CloneType>`. `AppWarning` is imported in git.rs but never defined, and it is not modelled. The trait's `&String` and async `Path` arguments stand for the implementations' `&str` and `std::path::Path`.
- The request builder's error text: `RequestBuilder::header` refuses a value containing a control character other than tab, and `send` then fails before any network traffic. The message reqwest prints for this begins with "builder error"; some reqwest versions append the source error after it. The model's message stops at "builder error", since the program's reqwest version is not part of this model. Other builder failures (an unparsable URL) are not modelled either.
- The u32 bounds of `stars`, `forks` and the GitHub counters come from the `u32` type itself, so no lemma states them.
