# Mosaic node configuration, modelled in Dafny

The mosaic node is the start of a cross-chain validator. It observes an
"origin" chain and an "auxiliary" chain. The library in `src/lib.rs` does
two things:

- `Config::new` resolves the two chains' RPC endpoint addresses from the
  environment variables `MOSAIC_ORIGIN_ADDRESS` and
  `MOSAIC_AUXILIARY_ADDRESS`. A variable that holds readable text is used
  verbatim. A variable that is absent or not valid Unicode falls back to
  `http://127.0.0.1:8545` (origin) or `http://127.0.0.1:8546` (auxiliary).
- `run` connects to the origin chain. It fetches the chain's accounts and
  prints `Accounts:` followed by one line per account.

The model is pure and has four modules:

- `Wrappers` (`wrappers.dfy`): Rust's `Result` type.
- `Env` (`env.dfy`): the environment as a map from name to
  `Text(s) | NotUnicode`, and `std::env::var` over that map.
- `Lines` (`lines.dfy`): the text that `println!` writes, and that text
  split back into lines.
- `Mosaic` (`mosaic.dfy`): the constants, `Config`, `NewConfig`
  (`Config::new`) and `Run` (`run`). The chain client is passed in as a
  function from an address to the accounts that endpoint reports.

What is proved:

- `Config::new` never takes its declared `&'static str` error channel.
- Each address is the variable's text when it is readable, and its default
  otherwise.
- Each address depends only on its own variable.
- The library's test scenarios hold.
- Read back line by line, the output of `run` is the header followed by the
  accounts in order, which is `|accounts| + 1` lines.

Two consequences of the code are worth stating:

- `run` calls the client without `?` and always returns `Ok(())`
  (src/lib.rs:80-90), so `Run` always yields `Ok(())`.
- An empty value is taken verbatim (`EmptyValueKeptVerbatim`). Both
  addresses are non-empty whenever the readable values are
  (`AddressesNonEmpty`).

## Model

| member | source | states |
|---|---|---|
| `Env.Var` | src/lib.rs:49-52 | `env::var` succeeds exactly when the variable is set and readable, and then returns its text. It fails with `NotPresent` exactly when the variable is absent, and with `InvalidUnicode` exactly when its value is not text. |
| `Mosaic.NewConfig` | src/lib.rs:47-75 | Resolution always returns `Ok`. Each address is the variable's text verbatim when readable, and `http://127.0.0.1:8545` / `http://127.0.0.1:8546` otherwise. The helper `AddressOr` is the `match` at src/lib.rs:50-56 and 60-66: the text on `Ok`, the default on any `Err`. |
| `Mosaic.OriginDependsOnlyOnItsEntry` | src/lib.rs:49-56 | Environments with the same `MOSAIC_ORIGIN_ADDRESS` entry give the same origin address, whatever else they hold. |
| `Mosaic.AuxiliaryDependsOnlyOnItsEntry` | src/lib.rs:59-66 | Environments with the same `MOSAIC_AUXILIARY_ADDRESS` entry give the same auxiliary address, whatever else they hold. |
| `Mosaic.ResolutionReadsOnlyItsVariables` | src/lib.rs:47-75 | Environments that agree on the two variables resolve to equal configurations. Resolution is deterministic and reads no other state. |
| `Mosaic.AuxiliaryChangesKeepOrigin` | src/lib.rs:49-66 | Setting the auxiliary variable to any value, or removing it, leaves the origin address unchanged. |
| `Mosaic.OriginChangesKeepAuxiliary` | src/lib.rs:49-66 | Setting the origin variable to any value, or removing it, leaves the auxiliary address unchanged. |
| `Mosaic.ConfigReadsTheEnvironmentVariables` | src/lib.rs:97-110 | The test's steps hold. An empty environment gives both defaults. Origin set to `10.0.0.1` gives that origin and the default auxiliary. Both set gives `10.0.0.1` and `10.0.0.2`. This holds from any environment that sets neither variable. |
| `Mosaic.EmptyValueKeptVerbatim` | src/lib.rs:49-51 | A variable set to the empty text gives an empty address, because set values are not validated or trimmed. |
| `Mosaic.AddressesNonEmpty` | src/lib.rs:33-34 | Both addresses are non-empty whenever the readable values of the two variables are non-empty, because both defaults are non-empty. |
| `Mosaic.PrintedLines` | src/lib.rs:84-87 | The lines `run` prints number one more than the accounts. The first is `Accounts:` and line `i + 1` is account `i`. |
| `Mosaic.Run` | src/lib.rs:80-90 | `run` returns `Ok(())`. Its standard output is the printed text of `PrintedLines` for the accounts of the origin address. |
| `Mosaic.RunPrintsHeaderThenAccounts` | src/lib.rs:84-87 | Split at newlines, the output of `run` is exactly `Accounts:` followed by each account in the order received, `|accounts| + 1` lines. |
| `Mosaic.RunIgnoresAuxiliaryAddress` | src/lib.rs:80-82 | Two configurations with the same origin address run identically, so the auxiliary address is not used. |
| `Mosaic.RunWithTwoAccounts` | src/lib.rs:84-87 | A client reporting `0xAA` and `0xBB` makes `run` print `Accounts:\n0xAA\n0xBB\n`. |
| `Lines.WriteLines` | src/lib.rs:84-87 | Printing lines writes no text exactly when there are no lines, and otherwise text that ends with a newline. The helper `Println` is one `println!` call: the line, then a newline (src/lib.rs:84, 86). |
| `Lines.IndexOfNewline` | src/lib.rs:84-87 | The result is the position of the first newline in the text, or the text's length when it has none. |
| `Lines.SplitLines` | src/lib.rs:84-87 | No line recovered from text holds a newline, and empty text gives no lines. |
| `Lines.FirstLineEnds` | src/lib.rs:84-87 | In text that starts with a printed line, the first newline is the one `println!` wrote after that line. |
| `Lines.SplitWrittenLines` | src/lib.rs:84-87 | Splitting the text printed for lines that hold no newline gives back exactly those lines, in order. |

## Left out

- `blockchain::connect_to_ethereum` and `get_accounts` (src/lib.rs:81-82) are not part of this model. They are network I/O in a module whose source is not shown. `Run` instead takes the accounts each address reports as a function argument.
- Run: connection or query failures inside the blockchain module are not modelled. In the code they never reach `run`'s result, which is always `Ok(())`. A failing client can still abort `run`, for example by panicking inside the blockchain module; then nothing is printed, because `Accounts:` is printed only after `get_accounts` returns (src/lib.rs:82-84). The total `accountsOf` argument cannot express that case.
- How an account is formatted by `{}` belongs to the web3 address type. The model takes each account as the text that is printed.
- Mosaic.RunPrintsHeaderThenAccounts: assumes that no printed account holds a newline. Addresses never do, but the formatting is not modelled.
- The `info!` log lines (src/lib.rs:53, 63, 68-69) are logging side effects. They have no effect on the result.
- Standard output is modelled as the text written, not as a stream.
- The real process environment, and `env::set_var` / `env::remove_var` in the test, are global OS state. They are replaced by an explicit map argument.
- The non-Unicode bytes of a variable are not kept. `NotUnicode` only records that the value cannot be read as text, which is all `Config::new` looks at.
- Crate attributes and logger setup (src/lib.rs:21-28) are left out because they carry no behaviour.
