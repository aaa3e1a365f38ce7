/**
  The mosaic node's library: configuration resolution (`Config::new`) and the
  one observation pass (`run`) that prints the origin chain's accounts.

  The environment is passed in explicitly, and the chain client is the
  function `accountsOf`, which gives the accounts that the endpoint at an
  address reports, each as the text it is printed as.
 */
module Mosaic {
  import opened Wrappers
  import opened Env
  import opened Lines

  // Environment variables and their defaults
  const OriginVar: string := "MOSAIC_ORIGIN_ADDRESS"
  const AuxiliaryVar: string := "MOSAIC_AUXILIARY_ADDRESS"
  const DefaultOrigin: string := "http://127.0.0.1:8545"
  const DefaultAuxiliary: string := "http://127.0.0.1:8546"

  /** The header line `run` prints before the accounts. */
  const AccountsHeader: string := "Accounts:"

  /** Global configuration of a mosaic node: the RPC endpoints of the two chains. */
  datatype Config = Config(originAddress: string, auxiliaryAddress: string)

  /** The address a lookup gives: its text when it succeeded, `default` on any error. */
  function AddressOr(lookup: Result<string, VarError>, default: string): string {
    match lookup
    case Ok(address) => address
    case Err(_) => default
  }

  /**
    `Config::new`: each address is the variable's text taken verbatim when it
    is readable, and the variable's default otherwise. The error channel of
    the result type is never taken.
   */
  function NewConfig(env: Environment): (r: Result<Config, string>)
    ensures r.Ok?
    ensures Readable(env, OriginVar) ==> r.value.originAddress == env[OriginVar].text
    ensures !Readable(env, OriginVar) ==> r.value.originAddress == DefaultOrigin
    ensures Readable(env, AuxiliaryVar) ==> r.value.auxiliaryAddress == env[AuxiliaryVar].text
    ensures !Readable(env, AuxiliaryVar) ==> r.value.auxiliaryAddress == DefaultAuxiliary
  {
    var originAddress := AddressOr(Var(env, OriginVar), DefaultOrigin);
    var auxiliaryAddress := AddressOr(Var(env, AuxiliaryVar), DefaultAuxiliary);
    Ok(Config(originAddress, auxiliaryAddress))
  }

  /** Two environments hold the same thing (or nothing) under `name`. */
  predicate SameEntry(env1: Environment, env2: Environment, name: string) {
    (name in env1 <==> name in env2) && (name in env1 ==> env1[name] == env2[name])
  }

  /** The origin address depends on the origin variable's entry and on nothing else. */
  lemma OriginDependsOnlyOnItsEntry(env1: Environment, env2: Environment)
    requires SameEntry(env1, env2, OriginVar)
    ensures NewConfig(env1).value.originAddress == NewConfig(env2).value.originAddress
  {
  }

  /** The auxiliary address depends on the auxiliary variable's entry and on nothing else. */
  lemma AuxiliaryDependsOnlyOnItsEntry(env1: Environment, env2: Environment)
    requires SameEntry(env1, env2, AuxiliaryVar)
    ensures NewConfig(env1).value.auxiliaryAddress == NewConfig(env2).value.auxiliaryAddress
  {
  }

  /**
    Resolution reads only the two variables: environments that agree on
    them resolve to the same configuration.
   */
  lemma ResolutionReadsOnlyItsVariables(env1: Environment, env2: Environment)
    requires SameEntry(env1, env2, OriginVar) && SameEntry(env1, env2, AuxiliaryVar)
    ensures NewConfig(env1) == NewConfig(env2)
  {
  }

  /** Setting or removing the auxiliary variable leaves the origin address unchanged. */
  lemma AuxiliaryChangesKeepOrigin(env: Environment, v: EnvValue)
    ensures NewConfig(env[AuxiliaryVar := v]).value.originAddress == NewConfig(env).value.originAddress
    ensures NewConfig(env - {AuxiliaryVar}).value.originAddress == NewConfig(env).value.originAddress
  {
    OriginDependsOnlyOnItsEntry(env[AuxiliaryVar := v], env);
    OriginDependsOnlyOnItsEntry(env - {AuxiliaryVar}, env);
  }

  /** Setting or removing the origin variable leaves the auxiliary address unchanged. */
  lemma OriginChangesKeepAuxiliary(env: Environment, v: EnvValue)
    ensures NewConfig(env[OriginVar := v]).value.auxiliaryAddress == NewConfig(env).value.auxiliaryAddress
    ensures NewConfig(env - {OriginVar}).value.auxiliaryAddress == NewConfig(env).value.auxiliaryAddress
  {
    AuxiliaryDependsOnlyOnItsEntry(env[OriginVar := v], env);
    AuxiliaryDependsOnlyOnItsEntry(env - {OriginVar}, env);
  }

  /**
    The library's test, run in an environment `env0` that sets neither
    variable: at first both addresses are the defaults; setting the origin
    variable to "10.0.0.1" changes only the origin address; setting the
    auxiliary variable as well to "10.0.0.2" gives both set values.
   */
  lemma ConfigReadsTheEnvironmentVariables(env0: Environment)
    requires OriginVar !in env0 && AuxiliaryVar !in env0
    ensures NewConfig(env0) == Ok(Config(DefaultOrigin, DefaultAuxiliary))
    ensures NewConfig(env0[OriginVar := Text("10.0.0.1")])
         == Ok(Config("10.0.0.1", DefaultAuxiliary))
    ensures NewConfig(env0[OriginVar := Text("10.0.0.1")][AuxiliaryVar := Text("10.0.0.2")])
         == Ok(Config("10.0.0.1", "10.0.0.2"))
  {
  }

  /** A variable set to the empty text yields an empty address: set values are not validated. */
  lemma EmptyValueKeptVerbatim()
    ensures NewConfig(map[OriginVar := Text("")]).value.originAddress == ""
    ensures NewConfig(map[AuxiliaryVar := Text("")]).value.auxiliaryAddress == ""
  {
  }

  /** Both addresses are non-empty whenever every readable value of the two variables is. */
  lemma AddressesNonEmpty(env: Environment)
    requires Readable(env, OriginVar) ==> env[OriginVar].text != ""
    requires Readable(env, AuxiliaryVar) ==> env[AuxiliaryVar].text != ""
    ensures NewConfig(env).value.originAddress != ""
    ensures NewConfig(env).value.auxiliaryAddress != ""
  {
  }

  /** What one run yields: its result and the text it wrote to standard output. */
  datatype RunOutcome = RunOutcome(result: Result<(), string>, stdout: string)

  /** The lines `run` prints for an account list: the header, then one line per account. */
  function PrintedLines(accounts: seq<string>): (lines: seq<string>)
    ensures |lines| == |accounts| + 1
    ensures lines[0] == AccountsHeader
    ensures forall i :: 0 <= i < |accounts| ==> lines[i + 1] == accounts[i]
  {
    [AccountsHeader] + accounts
  }

  /**
    `run`: connect to the origin address, fetch its accounts, print the header
    and then each account. It always succeeds, and the auxiliary address is
    not used.
   */
  function Run(config: Config, accountsOf: string -> seq<string>): (r: RunOutcome)
    ensures r.result == Ok(())
    ensures r.stdout == WriteLines(PrintedLines(accountsOf(config.originAddress)))
  {
    var accounts := accountsOf(config.originAddress);
    RunOutcome(Ok(()), Println(AccountsHeader) + WriteLines(accounts))
  }

  /**
    Read back line by line, the output of `run` is the header followed by
    each account in the order received: `|accounts| + 1` lines.
   */
  lemma RunPrintsHeaderThenAccounts(config: Config, accountsOf: string -> seq<string>)
    requires NoNewlines(accountsOf(config.originAddress))
    ensures SplitLines(Run(config, accountsOf).stdout) == [AccountsHeader] + accountsOf(config.originAddress)
    ensures |SplitLines(Run(config, accountsOf).stdout)| == |accountsOf(config.originAddress)| + 1
  {
    var lines := PrintedLines(accountsOf(config.originAddress));
    assert NoNewlines(lines) by {
      assert Newline !in AccountsHeader;
    }
    SplitWrittenLines(lines);
  }

  /** Only the origin address is used: configurations that share it run identically. */
  lemma RunIgnoresAuxiliaryAddress(c1: Config, c2: Config, accountsOf: string -> seq<string>)
    requires c1.originAddress == c2.originAddress
    ensures Run(c1, accountsOf) == Run(c2, accountsOf)
  {
  }

  /** A client reporting accounts "0xAA" and "0xBB": the header, then the two accounts. */
  lemma RunWithTwoAccounts(config: Config)
    ensures Run(config, _ => ["0xAA", "0xBB"]).stdout == "Accounts:\n0xAA\n0xBB\n"
  {
  }
}
