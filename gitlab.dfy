/** The GitLab provider client: its own token composed with a git client
    and a base URL. */
module GitLab {
  import opened Wrappers
  import opened Types
  import Git

  datatype GitLabService = GitLabService(
    token: Option<string>,
    gitService: Git.GitService,
    baseUrl: string)

  /** The clone operation of the composed git client, which the model takes
      as given. */
  type GitClone = (Git.GitService, Repository, Path) -> AppResult<()>

  function CloneRepository(svc: GitLabService, repo: Repository, destination: Path, gitClone: GitClone): AppResult<()> {
    gitClone(svc.gitService, repo, destination)
  }

  /** Cloning is handed to the composed git client with the same arguments,
      and its result is passed back unchanged. */
  lemma CloneDelegates(svc: GitLabService, repo: Repository, destination: Path, gitClone: GitClone)
    ensures CloneRepository(svc, repo, destination, gitClone) == gitClone(svc.gitService, repo, destination)
  {
  }

  /** The result of a clone depends on the composed git client alone: the
      GitLab token and base URL play no part in it. */
  lemma CloneIgnoresTokenAndBaseUrl(a: GitLabService, b: GitLabService, repo: Repository, destination: Path, gitClone: GitClone)
    requires a.gitService == b.gitService
    ensures CloneRepository(a, repo, destination, gitClone) == CloneRepository(b, repo, destination, gitClone)
  {
  }

  function GetServiceName(svc: GitLabService): string {
    "GitLab"
  }

  /** Every instance, self-hosted or gitlab.com, is named "GitLab": neither
      the base URL nor the credentials reach the service name. */
  lemma ServiceNameIsGitLab(svc: GitLabService)
    ensures GetServiceName(svc) == "GitLab"
  {
  }

  /** Authenticated when either the GitLab token or the git client's SSH key
      is present. */
  predicate IsAuthenticated(svc: GitLabService) {
    svc.token.Some? || svc.gitService.sshKey.Some?
  }

  /** A service over `Git.WithSshKey` is authenticated whatever its token. */
  lemma AuthenticatedWithSshKey(token: Option<string>, key: string, baseUrl: string)
    ensures IsAuthenticated(GitLabService(token, Git.WithSshKey(key), baseUrl))
  {
  }

  /** Without a token, a service over a key-less git client is not
      authenticated, whatever its base URL. */
  lemma UnauthenticatedWithoutCredentials(baseUrl: string)
    ensures !IsAuthenticated(GitLabService(None, Git.New(), baseUrl))
  {
  }

  /** A token authenticates whatever git client is composed. */
  lemma AuthenticatedWithToken(token: string, git: Git.GitService, baseUrl: string)
    ensures IsAuthenticated(GitLabService(Some(token), git, baseUrl))
  {
  }
}
