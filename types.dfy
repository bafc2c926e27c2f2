/** The shared value types of the application: the provider-neutral
    `Repository`, the clone protocol, the provider tag and the error type
    with its user-facing rendering. */
module Types {
  import opened Wrappers

  /** Rust's fixed-width unsigned integers. */
  type u32 = x: int | 0 <= x < 0x1_0000_0000
  type u64 = x: int | 0 <= x < 0x1_0000_0000_0000_0000

  /** A file-system path as its list of components; pushing a relative
      component appends it. */
  type Path = seq<string>

  /** `PathBuf::push` and `Path::join` with one relative component. */
  function Join(path: Path, component: string): (r: Path)
    ensures |r| == |path| + 1 && r[..|path|] == path && r[|path|] == component
  {
    path + [component]
  }

  /** `Path::parent`: the path without its last component; the empty path
      has none. */
  function Parent(path: Path): (r: Option<Path>)
    ensures r.Some? <==> path != []
    ensures r.Some? ==> path == Join(r.value, path[|path| - 1])
  {
    if path == [] then None else Some(path[..|path| - 1])
  }

  datatype CloneType = HTTPS | SSH

  /** A remote repository, independent of the provider that reported it.
      `cloneType` stays unset until a clone protocol has been chosen. */
  datatype Repository = Repository(
    id: string,
    name: string,
    fullName: string,
    description: Option<string>,
    cloneUrl: string,
    sshUrl: string,
    stars: u32,
    forks: u32,
    private: bool,
    cloneType: Option<CloneType>)

  /** A transport URL together with the protocol it belongs to. */
  datatype GitCloneType = GitCloneType(url: string, cloneType: CloneType)

  /** The kinds of hosting provider the application knows about. */
  datatype GitService = GitHub | GitLab | SelfHostedGitLab(name: string)

  /** Every failure of the application; warnings travel as errors too. */
  datatype AppError =
    | NetworkError(message: string)
    | AuthenticationError(message: string)
    | ConfigError(message: string)
    | GitError(message: string)
    | ServiceWarning(message: string)

  type AppResult<T> = Result<T, AppError>

  const NETWORK_PREFIX := "Network error: "
  const AUTHENTICATION_PREFIX := "Authentication error: "
  const CONFIG_PREFIX := "Configuration error: "
  const GIT_PREFIX := "Git error: "
  const WARNING_PREFIX := "Service warning: "

  /** The fixed text that `Display` puts before the message of each variant. */
  function Prefix(e: AppError): string {
    match e
    case NetworkError(_) => NETWORK_PREFIX
    case AuthenticationError(_) => AUTHENTICATION_PREFIX
    case ConfigError(_) => CONFIG_PREFIX
    case GitError(_) => GIT_PREFIX
    case ServiceWarning(_) => WARNING_PREFIX
  }

  predicate StartsWith(s: string, p: string) {
    |p| <= |s| && s[..|p|] == p
  }

  /** The rendering of an error: its variant's prefix, then the message
      verbatim. */
  function Display(e: AppError): (s: string)
    ensures StartsWith(s, Prefix(e))
    ensures s[|Prefix(e)|..] == e.message
  {
    Prefix(e) + e.message
  }

  /** Reads a rendered error back: the variant is the one whose prefix the
      text starts with, the message is what follows the prefix. */
  function Classify(s: string): Option<AppError> {
    if StartsWith(s, NETWORK_PREFIX) then Some(NetworkError(s[|NETWORK_PREFIX|..]))
    else if StartsWith(s, AUTHENTICATION_PREFIX) then Some(AuthenticationError(s[|AUTHENTICATION_PREFIX|..]))
    else if StartsWith(s, CONFIG_PREFIX) then Some(ConfigError(s[|CONFIG_PREFIX|..]))
    else if StartsWith(s, GIT_PREFIX) then Some(GitError(s[|GIT_PREFIX|..]))
    else if StartsWith(s, WARNING_PREFIX) then Some(ServiceWarning(s[|WARNING_PREFIX|..]))
    else None
  }

  predicate SameVariant(a: AppError, b: AppError) {
    match (a, b)
    case (NetworkError(_), NetworkError(_)) => true
    case (AuthenticationError(_), AuthenticationError(_)) => true
    case (ConfigError(_), ConfigError(_)) => true
    case (GitError(_), GitError(_)) => true
    case (ServiceWarning(_), ServiceWarning(_)) => true
    case _ => false
  }

  /** The five prefixes are pairwise distinct and none starts another. */
  lemma PrefixFree(a: AppError, b: AppError)
    ensures StartsWith(Prefix(a), Prefix(b)) <==> SameVariant(a, b)
  {
    if !SameVariant(a, b) {
      assert Prefix(a)[0] != Prefix(b)[0];
    }
  }

  lemma DiffersAtFirst(s: string, p: string)
    requires s != [] && p != [] && s[0] != p[0]
    ensures !StartsWith(s, p)
  {
  }

  lemma ClassifyDisplay(e: AppError)
    ensures Classify(Display(e)) == Some(e)
  {
    var s := Display(e);
    assert s[0] == Prefix(e)[0];
    match e {
      case NetworkError(_) =>
      case AuthenticationError(_) =>
        DiffersAtFirst(s, NETWORK_PREFIX);
      case ConfigError(_) =>
        DiffersAtFirst(s, NETWORK_PREFIX);
        DiffersAtFirst(s, AUTHENTICATION_PREFIX);
      case GitError(_) =>
        DiffersAtFirst(s, NETWORK_PREFIX);
        DiffersAtFirst(s, AUTHENTICATION_PREFIX);
        DiffersAtFirst(s, CONFIG_PREFIX);
      case ServiceWarning(_) =>
        DiffersAtFirst(s, NETWORK_PREFIX);
        DiffersAtFirst(s, AUTHENTICATION_PREFIX);
        DiffersAtFirst(s, CONFIG_PREFIX);
        DiffersAtFirst(s, GIT_PREFIX);
    }
  }

  /** Two errors render alike exactly when they are the same variant with
      the same message. */
  lemma DisplayInjective(a: AppError, b: AppError)
    ensures Display(a) == Display(b) <==> a == b
  {
    if Display(a) == Display(b) {
      ClassifyDisplay(a);
      ClassifyDisplay(b);
    }
  }
}
