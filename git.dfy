/** The low-level git client that hosted-provider clients compose. Only its
    two constructors have behaviour; cloning itself is an input. */
module Git {
  import opened Wrappers

  /** The git client's configuration: the SSH key it authenticates with,
      if any. */
  datatype GitService = GitService(sshKey: Option<string>)

  function New(): (g: GitService)
    ensures g.sshKey.None?
  {
    GitService(None)
  }

  function WithSshKey(sshKey: string): (g: GitService)
    ensures g.sshKey == Some(sshKey)
  {
    GitService(Some(sshKey))
  }
}
