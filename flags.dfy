/** The command-line flags and the rule by which they override the suite's
    runtime settings. */
module Flags {
  import opened Suite

  /** The values of --proto, --plugin, --config and --min_log_level after
      command-line parsing. */
  datatype Flags = Flags(proto: string, plugin: string, config: string, minLogLevel: LogLevel)

  /** Every flag at its declared default. */
  const DefaultFlags := Flags("", "", "", UNDEFINED)

  /** The effective runtime: each field is decided on its own. A non-empty
      --plugin replaces the wasm path, a non-empty --config the config path,
      and --min_log_level replaces the level whenever `isValid` (the enum's
      generated validity check, not modelled) accepts it. */
  function Resolve(base: Runtime, flags: Flags, isValid: LogLevel -> bool): Runtime
  {
    base.(wasmPath := if flags.plugin != "" then flags.plugin else base.wasmPath,
          configPath := if flags.config != "" then flags.config else base.configPath,
          minLogLevel := if isValid(flags.minLogLevel) then flags.minLogLevel else base.minLogLevel)
  }

  /** Precedence, field by field: the override when present, the suite's own
      value otherwise; nothing outside the three fields moves. */
  lemma ResolvePrecedence(base: Runtime, flags: Flags, isValid: LogLevel -> bool)
    ensures flags.plugin != "" ==> Resolve(base, flags, isValid).wasmPath == flags.plugin
    ensures flags.plugin == "" ==> Resolve(base, flags, isValid).wasmPath == base.wasmPath
    ensures flags.config != "" ==> Resolve(base, flags, isValid).configPath == flags.config
    ensures flags.config == "" ==> Resolve(base, flags, isValid).configPath == base.configPath
    ensures isValid(flags.minLogLevel) ==> Resolve(base, flags, isValid).minLogLevel == flags.minLogLevel
    ensures !isValid(flags.minLogLevel) ==> Resolve(base, flags, isValid).minLogLevel == base.minLogLevel
    ensures Resolve(base, flags, isValid).rest == base.rest
  {
  }

  /** Applying the same overrides a second time changes nothing. */
  lemma ResolveIdempotent(base: Runtime, flags: Flags, isValid: LogLevel -> bool)
    ensures Resolve(Resolve(base, flags, isValid), flags, isValid) == Resolve(base, flags, isValid)
  {
  }

  /** Each effective field depends only on its own flag: two flag sets that
      agree on one override give the same value for that field. */
  lemma ResolveFieldsIndependent(base: Runtime, f: Flags, g: Flags, isValid: LogLevel -> bool)
    ensures f.plugin == g.plugin ==> Resolve(base, f, isValid).wasmPath == Resolve(base, g, isValid).wasmPath
    ensures f.config == g.config ==> Resolve(base, f, isValid).configPath == Resolve(base, g, isValid).configPath
    ensures f.minLogLevel == g.minLogLevel ==>
              Resolve(base, f, isValid).minLogLevel == Resolve(base, g, isValid).minLogLevel
  {
  }

  /** With no path overrides and a level the validity check rejects, the
      runtime comes through unchanged. */
  lemma ResolveWithoutOverrides(base: Runtime, flags: Flags, isValid: LogLevel -> bool)
    requires flags.plugin == "" && flags.config == "" && !isValid(flags.minLogLevel)
    ensures Resolve(base, flags, isValid) == base
  {
  }

  /** The level flag defaults to UNDEFINED, and nothing in the runner treats
      that value as "absent": if the validity check accepts UNDEFINED, a run
      without --min_log_level sets the suite's level to UNDEFINED. */
  lemma DefaultLevelFlagOverrides(base: Runtime, isValid: LogLevel -> bool)
    requires isValid(UNDEFINED)
    ensures Resolve(base, DefaultFlags, isValid).minLogLevel == UNDEFINED
    ensures Resolve(base, DefaultFlags, isValid) == base.(minLogLevel := UNDEFINED)
  {
  }
}
