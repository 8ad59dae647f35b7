/**
 * The part of the application configuration (src/config/model.rs) that shell
 * selection reads. The font and window sections hold cosmetic settings and
 * floating-point values and are not part of this model.
 */
module Config {
  import opened Wrappers

  datatype DefaultsConfig = DefaultsConfig(shell: Option<string>)
  datatype AppConfig = AppConfig(defaults: DefaultsConfig)
}
