/**
 * Shell selection (`get_shell` in src/shell.rs).
 *
 * The `SHELL` environment lookup is a parameter: `None` stands for both
 * "unset" and "not valid Unicode", the two cases in which `env::var` fails.
 */
module Shell {
  import opened Wrappers
  import opened Config

  /** The shell used when neither the configuration nor `SHELL` names one. */
  const FallbackShell: string := "/bin/sh"

  function GetShell(config: AppConfig, envShell: Option<string>): (r: string)
    ensures config.defaults.shell.Some? ==> r == config.defaults.shell.value
    ensures config.defaults.shell.None? && envShell.Some? ==> r == envShell.value
    ensures config.defaults.shell.None? && envShell.None? ==> r == FallbackShell
  {
    if config.defaults.shell.Some? then
      config.defaults.shell.value
    else
      envShell.UnwrapOr(FallbackShell)
  }

  /** A configured shell wins over whatever the environment says. */
  lemma ConfiguredIgnoresEnvironment(config: AppConfig, env1: Option<string>, env2: Option<string>)
    requires config.defaults.shell.Some?
    ensures GetShell(config, env1) == GetShell(config, env2)
  {
  }

  /** Without a configured shell, the environment decides alone. */
  lemma UnconfiguredIgnoresRest(c1: AppConfig, c2: AppConfig, envShell: Option<string>)
    requires c1.defaults.shell.None? && c2.defaults.shell.None?
    ensures GetShell(c1, envShell) == GetShell(c2, envShell)
  {
  }
}
