# xDSL bandwidth checks, modelled in Dafny

This project models the two monitoring-plugin probes of the
nagios-plugins repository: `check_zyxel_bandwidth.py` and
`check_technicolor_bandwidth.py`. Each probe reads the synchronised
download and upload rates of a DSL router. It normalises the rates to bits,
compares them with warning and critical floors, and prints one status line
with performance data. The exit code is the monitoring severity: 0 OK,
1 WARNING, 2 CRITICAL, 3 UNKNOWN.

- The Zyxel probe logs in through the router's HTTP/JSON API. It takes the
  rates of the last channel whose status is "Up" and multiplies them by 1024.
- The Technicolor probe logs in over telnet and runs `xdsl info`. It takes
  the first output line that mentions "Bandwidth", parses the two numbers
  in it, and reads a unit tag from the line's label. It then scales by 1024^3
  for gbit, 1024^2 for mbit or 1024 for kbit.

The model is a function from the option pairs and the device's answers to a
`Run`. A `Run` holds the requests or telnet calls the probe makes, in order,
and how the probe ends. The ending is an `Outcome`: either `Exit(message,
code)`, or `Crash(error)` for an uncaught Python exception. The imperative
parts of `main()` are methods: the option loops, the channel and line
loops, the in-place normalisations, the successive severity tests and the
report. Most methods are proved equal to a reference function, and the
properties are proved about those functions. One pass of the Zyxel option
loop (`ApplyOption`) is tied instead to a relation, `Overwrites`, which
says which field the pair changes and how.

Modules, one file each:

- `text.dfy` (`PyText`): the Python built-ins the probes rely on, each with
  its own properties:
  - substring `in`;
  - `str.split` and `join`;
  - `splitlines`;
  - slicing with negative and clamped bounds;
  - `lower`;
  - `int()` and `"%d"`.
- `bandwidth.dfy` (`Bandwidth`): the outcome type and the thresholds. It
  also holds the severity computation and the status line. Both probes
  share these parts, since the two copies in the source differ only in the
  unit label.
- `options.dfy` (`Options`): last-occurrence semantics of the option loops.
- `zyxel.dfy` (`Zyxel`) and `technicolor.dfy` (`Technicolor`): one module
  per probe.

Two details of the shipped code decide what the probes do, and the model
follows the code in both.

- The Zyxel channel loop (check_zyxel_bandwidth.py:145-147) has no
  `break`. A later "Up" channel therefore overwrites the rates of an
  earlier one, so the rates come from the last "Up" channel.
- Both getopt long-option lists miss a comma between `'verbose'` and
  `'host='`. Python joins the two into the single entry `'verbosehost='`,
  so getopt never yields `--host` or `--verbose`, although the full usage
  text (check_zyxel_bandwidth.py:27-31) documents `--host`. The option
  loops still test for those spellings, and so does the model. Those
  branches are simply never reached through getopt.

## Model

| member | source | states |
|---|---|---|
| Options.LastArgIsLast | check_zyxel_bandwidth.py:80-104 | a parameter holds the argument of its option's last occurrence: the argument of an occurrence with no later one, in both directions |
| Options.LastArgIndex | check_zyxel_bandwidth.py:80-104 | when a parameter was set, some occurrence of its option supplies the value and no occurrence follows it |
| Options.LastArgAt | check_zyxel_bandwidth.py:80-104 | an occurrence with no later occurrence of the same option supplies the parameter |
| Options.LastArgAbsent | check_zyxel_bandwidth.py:67-78 | a parameter is left at its default exactly when its option never occurs |
| Options.LaterOccurrenceWins | check_zyxel_bandwidth.py:85-104 | appending an occurrence of an option makes its argument the value |
| Options.OtherOptionKeeps | check_zyxel_bandwidth.py:80-104 | appending another option's pair leaves the parameter unchanged |
| Options.Step | check_zyxel_bandwidth.py:80-104 | how one more pair changes the last argument, the mentioned flag and the int()-validity of an option set |
| Zyxel.CollectedStep | check_zyxel_bandwidth.py:80-104 | one pair overwrites only the field its option names (port and thresholds through int(), password through the encoding); every other field is unchanged |
| Zyxel.BranchesDisjoint | check_zyxel_bandwidth.py:81-104 | the elif branches test disjoint spellings, so no option is shadowed by an earlier branch |
| Zyxel.ApplyOption | check_zyxel_bandwidth.py:80-108 | one pass of the elif chain stops with "Bad parameters" exactly when int() rejects the argument of a port or threshold option, and otherwise overwrites only the field the option names |
| Zyxel.ParseOptions | check_zyxel_bandwidth.py:67-114 | the option loop followed by the mandatory test yields exactly `Configure`: "Bad parameters" (exit 3) when int() rejects a port or threshold argument, "At least one parameter is missing" (exit 3) when host, username or encoded password is empty, otherwise the record collected by last occurrence |
| Zyxel.DefaultsKept | check_zyxel_bandwidth.py:67-78 | unmentioned fields keep their defaults: port 443, ssl off, certificate check on, thresholds 0, empty host, username and password |
| Zyxel.BadIntegerRejected | check_zyxel_bandwidth.py:87-108 | any port or threshold argument int() rejects, wherever it stands, ends the run as "Bad parameters" |
| Zyxel.NoHostNoRequest | check_zyxel_bandwidth.py:111-114 | without any -H option the parameters are always rejected, no request is sent and the run ends UNKNOWN |
| Zyxel.EmptyPasswordMissing | check_zyxel_bandwidth.py:95-96 | an empty last password encodes to the empty text and counts as missing |
| Zyxel.NoRequestUnlessConfigured | check_zyxel_bandwidth.py:105-114 | no request is issued exactly when the parameters are rejected, and then the exit code is 3 |
| Zyxel.BaseUrlScheme | check_zyxel_bandwidth.py:117-121 | the base URL starts with "https://" exactly when ssl is set, and with "http://" otherwise |
| Zyxel.BaseUrlPort | check_zyxel_bandwidth.py:121 | after the URL's last colon stand the decimal port and "/", and the port reads back from them |
| Zyxel.AuthObjectInjective | check_zyxel_bandwidth.py:123 | for names without a double quote, the JSON credential text determines the username and encoded password |
| Zyxel.SelectChannel | check_zyxel_bandwidth.py:145-147 | the channel loop without break ends with the last "Up" channel, or none |
| Zyxel.LastUpIsLast | check_zyxel_bandwidth.py:145-152 | the selection is an "Up" channel with no "Up" channel after it, and there is none exactly when no channel is "Up" |
| Zyxel.LastUpNone | check_zyxel_bandwidth.py:145-152 | no channel is selected exactly when no channel is "Up" |
| Zyxel.LastUpIndex | check_zyxel_bandwidth.py:145-147 | a selected channel is an "Up" channel with no "Up" channel after it |
| Zyxel.Normalise | check_zyxel_bandwidth.py:155-157 | the in-place loop over a copy yields every raw rate times 1024, element by element |
| Zyxel.Conclude | check_zyxel_bandwidth.py:145-178 | the tail of `main()` after the status reply ends with "No connection" when no channel is up, and otherwise with the verdict on the last "Up" channel's rates times 1024 |
| Zyxel.Check | check_zyxel_bandwidth.py:79-178 | the whole `main()` after getopt issues exactly the requests of `Expected` and ends with its outcome |
| Zyxel.AuthenticationFailure | check_zyxel_bandwidth.py:129-141 | "Authentication failed" (exit 3) exactly when the first reply is not 200 with result "0" or the second is not 200, after one or two requests |
| Zyxel.ConnectionOutcome | check_zyxel_bandwidth.py:143-178 | once logged in, three requests are made; "UNKNOWN, No connection" exactly when no channel is "Up"; otherwise the verdict on the last "Up" channel's rates times 1024, with its severity as exit code |
| Bandwidth.EvaluateSeverity | check_zyxel_bandwidth.py:160-169 | the successive ifs compute `Severity`, the larger of the two directions' levels, never above 2 (the same code stands at check_technicolor_bandwidth.py:137-146) |
| Bandwidth.SeverityCritical | check_zyxel_bandwidth.py:160-166 | CRITICAL exactly when a direction is at or below its critical floor, wherever the warning floors are |
| Bandwidth.SeverityWarning | check_zyxel_bandwidth.py:160-169 | WARNING exactly when no direction is critical and one is at or below its warning floor |
| Bandwidth.SeverityOk | check_zyxel_bandwidth.py:160-169 | OK exactly when both directions are above both floors |
| Bandwidth.SeverityMonotone | check_zyxel_bandwidth.py:160-169 | higher rates never give a higher severity |
| Bandwidth.Report | check_zyxel_bandwidth.py:160-178 | computes the severity step by step and exits with the status line and that severity (same code at check_technicolor_bandwidth.py:137-152) |
| Bandwidth.VerdictMessage | check_zyxel_bandwidth.py:170-178 | the exit code of a verdict is its severity, at most 2, and its message opens with C, W or B |
| Bandwidth.StatusLinePrefix | check_zyxel_bandwidth.py:170-173 | the line starts with "CRITICAL " exactly for 2, "WARNING " exactly for 1, and "Bandwidth (" exactly for 0 |
| Bandwidth.StatusLineEndsWithPerfData | check_zyxel_bandwidth.py:174-177 | the performance data closes the line |
| Bandwidth.PerfDataFields | check_zyxel_bandwidth.py:174-177 | the performance data splits at ";" into the nine fields a monitoring system reads |
| Bandwidth.PerfDataThresholds | check_zyxel_bandwidth.py:174-177 | the four thresholds read back from those fields unchanged |
| Bandwidth.ScaledReversible | check_zyxel_bandwidth.py:155-157 | scaling by a positive factor loses nothing: each scaled value divided by the factor is the raw value |
| Technicolor.CollectedStep | check_technicolor_bandwidth.py:64-84 | one pair overwrites only the field its option names, the password verbatim; every other field is unchanged |
| Technicolor.BranchesDisjoint | check_technicolor_bandwidth.py:65-84 | the elif branches test disjoint spellings |
| Technicolor.ParseOptions | check_technicolor_bandwidth.py:53-94 | the option loop followed by the mandatory test yields exactly `Configure`: "Bad parameters" (exit 3), "At least one parameter is missing" (exit 3), or the collected record |
| Technicolor.DefaultsKept | check_technicolor_bandwidth.py:53-62 | unmentioned fields keep their defaults: port 23, thresholds 0, empty host, username and password |
| Technicolor.PasswordVerbatim | check_technicolor_bandwidth.py:75-76 | the password is the last -p argument exactly as given |
| Technicolor.BadIntegerRejected | check_technicolor_bandwidth.py:71-88 | any port or threshold argument int() rejects ends the run as "Bad parameters" |
| Technicolor.NoConnectionUnlessConfigured | check_technicolor_bandwidth.py:85-97 | the modem is contacted exactly when the parameters are accepted; otherwise the exit code is 3 |
| Technicolor.InvalidLoginIff | check_technicolor_bandwidth.py:97-110 | "Invalid username or password" (exit 2) exactly when the login reply contains "Closing connection", and exactly when nothing follows the six login calls, and exactly when the connection is never closed; otherwise `xdsl info`, `exit`, the final read and `close()` follow |
| Technicolor.ParseAll | check_technicolor_bandwidth.py:119 | the list comprehension succeeds exactly when int() accepts every piece, and then yields one value per piece, each the piece's int() |
| Technicolor.UnitTag | check_technicolor_bandwidth.py:120 | `[-9:-5].lower()` has at most four characters, is empty exactly for a field of at most five, and for a field of nine or more is the lower-cased four characters ending five before the end |
| Technicolor.ReadBandwidthLine | check_technicolor_bandwidth.py:118-120 | a Bandwidth line either raises ValueError or yields a non-empty value list and a unit of at most four characters |
| Technicolor.ReadBandwidthLineRoundTrip | check_technicolor_bandwidth.py:118-120 | a label without tabs, two tabs, one character and "d/u" in decimal reads back as exactly [d, u] with the label's unit |
| Technicolor.NumbersRoundTrip | check_technicolor_bandwidth.py:119 | two numbers printed as "d/u" split at "/" and read back through int() as exactly [d, u] |
| Technicolor.FirstWithIsFirst | check_technicolor_bandwidth.py:116-121 | the line used is one containing "Bandwidth" with no such line before it, and there is none exactly when no line contains it |
| Technicolor.ExtractReading | check_technicolor_bandwidth.py:114-121 | the line loop with break computes `Extract`: only the first "Bandwidth" line is read |
| Technicolor.NotFoundIff | check_technicolor_bandwidth.py:116-117 | no line is found exactly when "Bandwidth" occurs nowhere in the output |
| Technicolor.UnitMultiplier | check_technicolor_bandwidth.py:128-134 | the factor is at least 1, and is 1 exactly for a unit other than gbit, mbit and kbit |
| Technicolor.Normalise | check_technicolor_bandwidth.py:127-134 | the in-place loop over a copy with the three unit tests yields every raw value times the unit's factor |
| Technicolor.Conclude | check_technicolor_bandwidth.py:114-152 | the tail of `main()` after the modem's output is read ends with `Evaluate`: ValueError, "No values returned", IndexError, or the verdict on the scaled values |
| Technicolor.EvaluateCases | check_technicolor_bandwidth.py:114-152 | ValueError exactly for a rejected number; "No values returned" (exit 2) exactly when "Bandwidth" occurs nowhere or the unit is empty; IndexError exactly for a single value; otherwise the verdict on the scaled first two values with their severity as exit code |
| Technicolor.Check | check_technicolor_bandwidth.py:63-152 | the whole `main()` after getopt makes exactly the telnet calls of `Expected`, including the closing `close()` on the success path, and ends with its outcome |
| PyText.JoinSplit | check_technicolor_bandwidth.py:118-119 | joining the pieces of `str.split` with the separator gives the text back |
| PyText.SplitAt | check_technicolor_bandwidth.py:118-119 | `split` cuts at the first separator when no earlier character could start one |
| PyText.SplitLast | check_zyxel_bandwidth.py:121 | the last piece of `split` is what follows the last one-character separator |
| PyText.LineContainsIff | check_technicolor_bandwidth.py:116-117 | a pattern without line breaks is in some line of `splitlines()` exactly when it is in the text |
| PyText.SliceWindow | check_technicolor_bandwidth.py:120 | `s[-9:-5]` by cases on the length, never longer than four |
| PyText.SliceDropFirst | check_technicolor_bandwidth.py:119 | `s[1:]` drops the first character, and is empty for the empty text |
| PyText.AsciiLower | check_technicolor_bandwidth.py:120 | `lower()` keeps the length and lowers each character |
| PyText.FormatInt | check_zyxel_bandwidth.py:121 | `"%d"` gives a non-empty run of digits with an optional leading minus |
| PyText.ParseFormat | check_zyxel_bandwidth.py:174-177 | int() reads back any number `"%d"` printed |

## Left out

- HTTP and telnet I/O are not modelled: sockets, sessions, `read_until` timeouts, the debug level set by `-v`, TLS verification and `disable_warnings`. Their results are inputs: the Zyxel `Device` and the Technicolor `Session`. Only the order of the calls and their arguments are recorded.
- Zyxel.ApplyOption: does not model the `UnicodeEncodeError` that `bytes(a, "utf-8")` (check_zyxel_bandwidth.py:96) raises for a password holding a lone surrogate, as Python makes of argv bytes that are not valid UTF-8. That error is a `ValueError`, so the probe reports "Bad parameters" (exit 3) for it. The model's `encode` is total and Dafny strings hold no surrogates, so "Bad parameters" arises here only from an `int()` rejection.
- getopt is not modelled; the option pairs are an input. A getopt error (exit 3 with getopt's message) is therefore not represented.
- Base64 encoding of the Zyxel password is not modelled: it is the `encode` parameter. The authentication cookie built from the first reply (check_zyxel_bandwidth.py:134-135) is not modelled either; it carries no decision.
- JSON decoding is not modelled. The Zyxel reply is given as a status code and a `result` text, and each channel as a status text and two integer rates. Malformed JSON and missing keys, which crash the probe, are not represented. Neither are rates that are JSON floats or booleans: the probe scales and compares them and prints them truncated by `%d`. Non-numeric rates, which crash the probe, are not represented either.
- ASCII encoding and decoding are not modelled: the username and password sent over telnet, and the modem's output. Non-ASCII text, which raises a UnicodeError in the probe, is not represented.
- The usage and full-usage texts printed by `-h` and on errors are not modelled. The `-h` branch changes no parameter.
- PyText.ParseInt: models `int()` as optional surrounding ASCII whitespace, an optional sign and decimal digits. It omits digit-group underscores, non-ASCII digits and Unicode whitespace.
- PyText.SplitLines: models `splitlines()` for "\n", "\r" and "\r\n" only. Python also splits at other separators, such as "\v", "\f", "\x1c" to "\x1e", "\x85", U+2028 and U+2029.
- PyText.AsciiLower: lowers ASCII letters only. Python's `lower()` also maps other letters, so a non-ASCII unit tag could differ.
- The uncaught exceptions are modelled only by name, as `Crash("ValueError")` and `Crash("IndexError")`. The traceback text and its exit status are not represented.
