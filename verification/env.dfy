/**
  The process environment as an explicit value, and `std::env::var` over it.

  A variable is either absent (its name is not a key), holds readable text,
  or holds bytes that are not valid Unicode.
 */
module Env {
  import opened Wrappers

  /** What the environment holds under one name. */
  datatype EnvValue = Text(text: string) | NotUnicode

  /** A snapshot of the process environment. */
  type Environment = map<string, EnvValue>

  /** The two ways `std::env::var` fails: `VarError::NotPresent` and `VarError::NotUnicode`. */
  datatype VarError = NotPresent | InvalidUnicode

  /** True when `name` is set and its value can be read as text. */
  predicate Readable(env: Environment, name: string) {
    name in env && env[name].Text?
  }

  /** `std::env::var(name)`: the text of the variable, or why it cannot be had. */
  function Var(env: Environment, name: string): (r: Result<string, VarError>)
    ensures r.Ok? <==> Readable(env, name)
    ensures r.Ok? ==> r.value == env[name].text
    ensures r == Err(NotPresent) <==> name !in env
    ensures r == Err(InvalidUnicode) <==> name in env && env[name] == NotUnicode
  {
    if name !in env then Err(NotPresent)
    else match env[name]
      case Text(t) => Ok(t)
      case NotUnicode => Err(InvalidUnicode)
  }
}
