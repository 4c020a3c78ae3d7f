/** The process environment (`process.env`) the backend reads its configuration from. */
module Config {
  import opened Wrappers

  /** Environment variables that are defined, with their text. */
  type Env = map<string, string>

  /** `process.env[name]`. */
  function Var(env: Env, name: string): Option<string> {
    if name in env then Some(env[name]) else None
  }

  /** `if (process.env[name])`: defined and not the empty string. */
  predicate IsSet(env: Env, name: string) {
    name in env && env[name] != ""
  }

  /** `process.env[first] || process.env[second]`, absent when neither is set. */
  function FirstSet(env: Env, first: string, second: string): (r: Option<string>)
    ensures r.Some? <==> IsSet(env, first) || IsSet(env, second)
    ensures IsSet(env, first) ==> r == Some(env[first])
    ensures !IsSet(env, first) && IsSet(env, second) ==> r == Some(env[second])
  {
    if IsSet(env, first) then Some(env[first])
    else if IsSet(env, second) then Some(env[second])
    else None
  }
}
