/**
 * Shell selection in the second shell module (`get_shell` in
 * src/shell/shell.rs), a line-for-line copy of the one in src/shell.rs.
 */
module NestedShell {
  import opened Wrappers
  import opened Config
  import Shell

  function GetShell(config: AppConfig, envShell: Option<string>): (r: string)
    ensures config.defaults.shell.Some? ==> r == config.defaults.shell.value
    ensures config.defaults.shell.None? && envShell.Some? ==> r == envShell.value
    ensures config.defaults.shell.None? && envShell.None? ==> r == "/bin/sh"
  {
    match config.defaults.shell
    case Some(shell) => shell
    case None => envShell.UnwrapOr("/bin/sh")
  }

  /** Both copies choose the same shell on every configuration and environment. */
  lemma AgreesWithShell(config: AppConfig, envShell: Option<string>)
    ensures GetShell(config, envShell) == Shell.GetShell(config, envShell)
  {
  }
}
