/**
 * check_technicolor_bandwidth: logs into a Technicolor modem over telnet,
 * asks for `xdsl info` and reads the synchronised rates from the first
 * line that mentions "Bandwidth". The telnet exchange is not modelled; the
 * text the modem sends back is an input (`Session`), and the telnet calls
 * the check makes are recorded in order.
 */
module Technicolor {
  import opened PyText
  import opened Bandwidth
  import opened Options

  /** The parameter record the option loop fills in. */
  datatype Params = Params(host: string, port: int, username: string, password: string,
                           limits: Thresholds, verbose: bool)

  const DEFAULTS := Params("", 23, "", "", NO_THRESHOLDS, false)

  // ---------------------------------------------------------------------
  // Parameters

  /** The record after every pair has been read: each parameter from the last
      occurrence of its option, or its default. */
  function Collected(opts: seq<Opt>): Params {
    Params(
      LastArg(opts, HOST_FLAGS).GetOr(DEFAULTS.host),
      IntArg(opts, PORT_FLAGS, DEFAULTS.port),
      LastArg(opts, USERNAME_FLAGS).GetOr(DEFAULTS.username),
      LastArg(opts, PASSWORD_FLAGS).GetOr(DEFAULTS.password),
      ThresholdsOf(opts),
      DEFAULTS.verbose || Mentioned(opts, VERBOSE_FLAGS))
  }

  /** The parameters, or the UNKNOWN exit: a port or threshold that `int()`
      rejects, then an empty host, username or password. */
  function Configure(opts: seq<Opt>): Result<Params> {
    if !IntsParse(opts, INT_FLAGS) then Stop(BAD_PARAMETERS)
    else
      var p := Collected(opts);
      if p.host == "" || p.username == "" || p.password == "" then Stop(MISSING_PARAMETER)
      else Ok(p)
  }

  /** What one more pair does to the collected record: a field changes only
      when the pair's option is one of that field's spellings. */
  lemma CollectedStep(opts: seq<Opt>, i: nat)
    requires i < |opts|
    ensures IntsParse(opts[..i + 1], INT_FLAGS) ==
      (IntsParse(opts[..i], INT_FLAGS) && (opts[i].0 in INT_FLAGS ==> ParseInt(opts[i].1).Some?))
    ensures var (o, a) := opts[i];
      var p := Collected(opts[..i]);
      var q := Collected(opts[..i + 1]);
      && q.host == (if o in HOST_FLAGS then a else p.host)
      && q.port == (if o in PORT_FLAGS then ParseInt(a).GetOr(DEFAULTS.port) else p.port)
      && q.username == (if o in USERNAME_FLAGS then a else p.username)
      && q.password == (if o in PASSWORD_FLAGS then a else p.password)
      && q.limits.dwarning == (if o in DWARNING_FLAGS then ParseInt(a).GetOr(0) else p.limits.dwarning)
      && q.limits.dcritical == (if o in DCRITICAL_FLAGS then ParseInt(a).GetOr(0) else p.limits.dcritical)
      && q.limits.uwarning == (if o in UWARNING_FLAGS then ParseInt(a).GetOr(0) else p.limits.uwarning)
      && q.limits.ucritical == (if o in UCRITICAL_FLAGS then ParseInt(a).GetOr(0) else p.limits.ucritical)
      && q.verbose == (p.verbose || o in VERBOSE_FLAGS)
  {
    Step(opts, i, INT_FLAGS);
    TextStep(opts, i);
    NumberStep(opts, i);
  }

  lemma TextStep(opts: seq<Opt>, i: nat)
    requires i < |opts|
    ensures var (o, a) := opts[i];
      var p := Collected(opts[..i]);
      var q := Collected(opts[..i + 1]);
      && q.host == (if o in HOST_FLAGS then a else p.host)
      && q.username == (if o in USERNAME_FLAGS then a else p.username)
      && q.password == (if o in PASSWORD_FLAGS then a else p.password)
      && q.verbose == (p.verbose || o in VERBOSE_FLAGS)
  {
    Step(opts, i, HOST_FLAGS); Step(opts, i, USERNAME_FLAGS); Step(opts, i, PASSWORD_FLAGS);
    Step(opts, i, VERBOSE_FLAGS);
  }

  lemma NumberStep(opts: seq<Opt>, i: nat)
    requires i < |opts|
    ensures var (o, a) := opts[i];
      var p := Collected(opts[..i]);
      var q := Collected(opts[..i + 1]);
      && q.port == (if o in PORT_FLAGS then ParseInt(a).GetOr(DEFAULTS.port) else p.port)
      && q.limits.dwarning == (if o in DWARNING_FLAGS then ParseInt(a).GetOr(0) else p.limits.dwarning)
      && q.limits.dcritical == (if o in DCRITICAL_FLAGS then ParseInt(a).GetOr(0) else p.limits.dcritical)
      && q.limits.uwarning == (if o in UWARNING_FLAGS then ParseInt(a).GetOr(0) else p.limits.uwarning)
      && q.limits.ucritical == (if o in UCRITICAL_FLAGS then ParseInt(a).GetOr(0) else p.limits.ucritical)
  {
    Step(opts, i, PORT_FLAGS); Step(opts, i, DWARNING_FLAGS); Step(opts, i, DCRITICAL_FLAGS);
    Step(opts, i, UWARNING_FLAGS); Step(opts, i, UCRITICAL_FLAGS);
  }

  /** The branches of the option loop test disjoint sets of spellings: an
      option selected by one branch is not tested for by any later one. */
  lemma BranchesDisjoint(o: string)
    ensures o in HELP_FLAGS ==>
      o !in VERBOSE_FLAGS && o !in HOST_FLAGS && o !in PORT_FLAGS && o !in USERNAME_FLAGS &&
      o !in PASSWORD_FLAGS && o !in DWARNING_FLAGS && o !in DCRITICAL_FLAGS &&
      o !in UWARNING_FLAGS && o !in UCRITICAL_FLAGS
    ensures o in VERBOSE_FLAGS ==>
      o !in HOST_FLAGS && o !in PORT_FLAGS && o !in USERNAME_FLAGS && o !in PASSWORD_FLAGS &&
      o !in DWARNING_FLAGS && o !in DCRITICAL_FLAGS && o !in UWARNING_FLAGS && o !in UCRITICAL_FLAGS
    ensures o in HOST_FLAGS ==>
      o !in PORT_FLAGS && o !in USERNAME_FLAGS && o !in PASSWORD_FLAGS && o !in DWARNING_FLAGS &&
      o !in DCRITICAL_FLAGS && o !in UWARNING_FLAGS && o !in UCRITICAL_FLAGS
    ensures o in PORT_FLAGS ==>
      o !in USERNAME_FLAGS && o !in PASSWORD_FLAGS && o !in DWARNING_FLAGS &&
      o !in DCRITICAL_FLAGS && o !in UWARNING_FLAGS && o !in UCRITICAL_FLAGS
    ensures o in USERNAME_FLAGS ==>
      o !in PASSWORD_FLAGS && o !in DWARNING_FLAGS && o !in DCRITICAL_FLAGS &&
      o !in UWARNING_FLAGS && o !in UCRITICAL_FLAGS
    ensures o in PASSWORD_FLAGS ==>
      o !in DWARNING_FLAGS && o !in DCRITICAL_FLAGS && o !in UWARNING_FLAGS && o !in UCRITICAL_FLAGS
    ensures o in DWARNING_FLAGS ==> o !in DCRITICAL_FLAGS && o !in UWARNING_FLAGS && o !in UCRITICAL_FLAGS
    ensures o in DCRITICAL_FLAGS ==> o !in UWARNING_FLAGS && o !in UCRITICAL_FLAGS
    ensures o in UWARNING_FLAGS ==> o !in UCRITICAL_FLAGS
  {
  }

  /** The option loop, then the mandatory-parameter test. */
  method ParseOptions(opts: seq<Opt>) returns (r: Result<Params>)
    ensures r == Configure(opts)
  {
    var p := DEFAULTS;
    for i := 0 to |opts|
      invariant IntsParse(opts[..i], INT_FLAGS)
      invariant p == Collected(opts[..i])
    {
      var (o, a) := opts[i];
      CollectedStep(opts, i);
      BranchesDisjoint(o);
      if o in HELP_FLAGS {
        // prints the full usage text and carries on
      } else if o in VERBOSE_FLAGS {
        p := p.(verbose := true);
      } else if o in HOST_FLAGS {
        p := p.(host := a);
      } else if o in PORT_FLAGS {
        var n := ParseInt(a);
        if n.None? { return Stop(BAD_PARAMETERS); }
        p := p.(port := n.value);
      } else if o in USERNAME_FLAGS {
        p := p.(username := a);
      } else if o in PASSWORD_FLAGS {
        p := p.(password := a);
      } else if o in DWARNING_FLAGS {
        var n := ParseInt(a);
        if n.None? { return Stop(BAD_PARAMETERS); }
        p := p.(limits := p.limits.(dwarning := n.value));
      } else if o in DCRITICAL_FLAGS {
        var n := ParseInt(a);
        if n.None? { return Stop(BAD_PARAMETERS); }
        p := p.(limits := p.limits.(dcritical := n.value));
      } else if o in UWARNING_FLAGS {
        var n := ParseInt(a);
        if n.None? { return Stop(BAD_PARAMETERS); }
        p := p.(limits := p.limits.(uwarning := n.value));
      } else if o in UCRITICAL_FLAGS {
        var n := ParseInt(a);
        if n.None? { return Stop(BAD_PARAMETERS); }
        p := p.(limits := p.limits.(ucritical := n.value));
      }
    }
    assert opts[..|opts|] == opts;
    if p.host == "" || p.username == "" || p.password == "" {
      return Stop(MISSING_PARAMETER);
    }
    return Ok(p);
  }

  /** A parameter whose options never occur keeps its default: port 23,
      thresholds 0, not verbose, and empty host, username and password. */
  lemma DefaultsKept(opts: seq<Opt>)
    ensures var p := Collected(opts);
      && (!Mentioned(opts, HOST_FLAGS) ==> p.host == "")
      && (!Mentioned(opts, PORT_FLAGS) ==> p.port == 23)
      && (!Mentioned(opts, USERNAME_FLAGS) ==> p.username == "")
      && (!Mentioned(opts, PASSWORD_FLAGS) ==> p.password == "")
      && (!Mentioned(opts, DWARNING_FLAGS) ==> p.limits.dwarning == 0)
      && (!Mentioned(opts, DCRITICAL_FLAGS) ==> p.limits.dcritical == 0)
      && (!Mentioned(opts, UWARNING_FLAGS) ==> p.limits.uwarning == 0)
      && (!Mentioned(opts, UCRITICAL_FLAGS) ==> p.limits.ucritical == 0)
      && (!Mentioned(opts, VERBOSE_FLAGS) ==> !p.verbose)
  {
    LastArgAbsent(opts, HOST_FLAGS); LastArgAbsent(opts, PORT_FLAGS);
    LastArgAbsent(opts, USERNAME_FLAGS); LastArgAbsent(opts, PASSWORD_FLAGS);
    LastArgAbsent(opts, DWARNING_FLAGS); LastArgAbsent(opts, DCRITICAL_FLAGS);
    LastArgAbsent(opts, UWARNING_FLAGS); LastArgAbsent(opts, UCRITICAL_FLAGS);
  }

  /** The password is the last `-p` argument exactly as given. */
  lemma PasswordVerbatim(opts: seq<Opt>, i: nat)
    requires i < |opts| && opts[i].0 in PASSWORD_FLAGS
    requires forall j | i < j < |opts| :: opts[j].0 !in PASSWORD_FLAGS
    ensures Collected(opts).password == opts[i].1
  {
    LastArgIsLast(opts, PASSWORD_FLAGS, opts[i].1);
  }

  /** A port or threshold argument that `int()` rejects ends the run as "Bad
      parameters", wherever it stands among the options and whatever the
      other options say. */
  lemma BadIntegerRejected(opts: seq<Opt>, i: nat)
    requires i < |opts| && opts[i].0 in INT_FLAGS && ParseInt(opts[i].1).None?
    ensures Configure(opts) == Stop(BAD_PARAMETERS)
  {
  }

  // ---------------------------------------------------------------------
  // Extracting the reading

  /** `[int(x) for x in parts]`: every piece as a decimal integer, or `None`
      when `int()` rejects one of them. */
  function ParseAll(parts: seq<string>): (r: Option<seq<int>>)
    ensures r.Some? <==> forall i | 0 <= i < |parts| :: ParseInt(parts[i]).Some?
    ensures r.Some? ==>
      |r.value| == |parts| && (forall i | 0 <= i < |parts| :: ParseInt(parts[i]) == Some(r.value[i]))
  {
    if parts == [] then Some([])
    else match (ParseInt(parts[0]), ParseAll(parts[1..]))
      case (Some(n), Some(ns)) => Some([n] + ns)
      case _ => None
  }

  /** `field[-9:-5].lower()`: the unit name that stands before the last five
      characters of the label field; empty exactly when the field has at
      most five characters. */
  function UnitTag(field: string): (unit: string)
    ensures |unit| <= 4
    ensures unit == [] <==> |field| <= 5
    ensures 9 <= |field| ==> unit == AsciiLower(field[|field| - 9..|field| - 5])
  {
    SliceWindow(field);
    AsciiLower(Slice(field, -9, -5))
  }

  /** What the extraction left behind: no "Bandwidth" line, a line whose
      numbers `int()` rejects (a ValueError), or the raw values and unit. */
  datatype Extraction = NotFound | BadNumber | Extracted(raw: seq<int>, unit: string)

  /** One "Bandwidth" line: the fields are separated by two tabs; the numbers
      are the last field without its first character, split at '/'; the unit
      comes from the first field. */
  function ReadBandwidthLine(line: string): (e: Extraction)
    ensures !e.NotFound?
    ensures e.Extracted? ==> e.raw != [] && |e.unit| <= 4
  {
    var fields := Split(line, "\t\t");
    var last := fields[|fields| - 1];
    match ParseAll(Split(Slice(last, 1, |last|), "/"))
    case None => BadNumber
    case Some(raw) => Extracted(raw, UnitTag(fields[0]))
  }

  /** A line in the shape the modem prints, a label without tabs, two tabs,
      one character, then two decimal numbers separated by '/', is read back
      as those two numbers under the unit the label names. */
  lemma ReadBandwidthLineRoundTrip(name: string, c: char, down: int, up: int)
    requires '\t' !in name && c != '\t'
    ensures ReadBandwidthLine(name + "\t\t" + [c] + FormatInt(down) + "/" + FormatInt(up)) ==
      Extracted([down, up], UnitTag(name))
  {
    var numbers := FormatInt(down) + "/" + FormatInt(up);
    var last := [c] + numbers;
    assert name + "\t\t" + [c] + FormatInt(down) + "/" + FormatInt(up) == name + "\t\t" + last;
    NoSeparatorIn(down);
    NoSeparatorIn(up);
    assert '\t' !in last by {
      forall i | 0 <= i < |last| ensures last[i] != '\t' {
        if 1 <= i < 1 + |FormatInt(down)| {
          assert last[i] == FormatInt(down)[i - 1];
        } else if 1 + |FormatInt(down)| < i {
          assert last[i] == FormatInt(up)[i - 2 - |FormatInt(down)|];
        }
      }
    }
    SplitAt(name, "\t\t", last);
    SplitWhole(last, "\t\t");
    SliceDropFirst(last);
    assert last[1..] == numbers;
    NumbersRoundTrip(down, up);
  }

  /** A number printed with `"%d"` holds neither '/' nor a tab. */
  lemma NoSeparatorIn(n: int)
    ensures '/' !in FormatInt(n) && '\t' !in FormatInt(n)
  {
    forall i | 0 <= i < |FormatInt(n)| ensures FormatInt(n)[i] != '/' && FormatInt(n)[i] != '\t' {
      assert IsDigit(FormatInt(n)[i]) || FormatInt(n)[i] == '-';
    }
  }

  /** Two numbers printed as "d/u" are read back as [d, u]. */
  lemma NumbersRoundTrip(down: int, up: int)
    ensures ParseAll(Split(FormatInt(down) + "/" + FormatInt(up), "/")) == Some([down, up])
  {
    NoSeparatorIn(down);
    NoSeparatorIn(up);
    SplitAt(FormatInt(down), "/", FormatInt(up));
    SplitWhole(FormatInt(up), "/");
    ParseFormat(down);
    ParseFormat(up);
    var parts := Split(FormatInt(down) + "/" + FormatInt(up), "/");
    assert parts == [FormatInt(down), FormatInt(up)];
    assert parts[1..] == [FormatInt(up)] && parts[1..][1..] == [];
    assert ParseAll(parts[1..][1..]) == Some([]);
    assert ParseInt(parts[1..][0]) == Some(up) && [up] + [] == [up];
    assert ParseAll(parts[1..]) == Some([up]);
    assert ParseInt(parts[0]) == Some(down);
    assert [down] + [up] == [down, up];
  }

  /** The first line that contains `pat`. */
  function FirstWith(lines: seq<string>, pat: string): Option<string> {
    if lines == [] then None
    else if Contains(lines[0], pat) then Some(lines[0])
    else FirstWith(lines[1..], pat)
  }

  /** `FirstWith` finds a line exactly when some line contains the pattern,
      and what it finds is a line with no such line before it. */
  lemma {:induction false} FirstWithIsFirst(lines: seq<string>, pat: string)
    ensures FirstWith(lines, pat).None? <==> !SomeLineContains(lines, pat)
    ensures FirstWith(lines, pat).Some? ==>
      exists k | 0 <= k < |lines| :: lines[k] == FirstWith(lines, pat).value && Contains(lines[k], pat) &&
        forall j | 0 <= j < k :: !Contains(lines[j], pat)
    decreases |lines|
  {
    if lines != [] && !Contains(lines[0], pat) {
      var rest := lines[1..];
      FirstWithIsFirst(rest, pat);
      assert forall k | 0 <= k < |rest| :: rest[k] == lines[k + 1];
      if SomeLineContains(lines, pat) {
        var k :| 0 <= k < |lines| && Contains(lines[k], pat);
        assert Contains(rest[k - 1], pat);
      }
      if FirstWith(rest, pat).Some? {
        var k :| 0 <= k < |rest| && rest[k] == FirstWith(rest, pat).value && Contains(rest[k], pat) &&
                 forall j | 0 <= j < k :: !Contains(rest[j], pat);
        assert lines[k + 1] == rest[k];
        assert forall j | 0 <= j < k + 1 :: !Contains(lines[j], pat) by {
          forall j | 0 <= j < k + 1 ensures !Contains(lines[j], pat) {
            if j > 0 { assert lines[j] == rest[j - 1]; }
          }
        }
      }
    }
  }

  /** Reference definition of the extraction. */
  function Extract(data: string): Extraction {
    match FirstWith(SplitLines(data), "Bandwidth")
    case None => NotFound
    case Some(line) => ReadBandwidthLine(line)
  }

  /** The loop over `data.splitlines()` that stops at the first line
      mentioning "Bandwidth". */
  method ExtractReading(data: string) returns (e: Extraction)
    ensures e == Extract(data)
  {
    var lines := SplitLines(data);
    e := NotFound;
    var i := 0;
    while i < |lines|
      invariant 0 <= i <= |lines|
      invariant FirstWith(lines, "Bandwidth") == FirstWith(lines[i..], "Bandwidth")
    {
      assert lines[i..][1..] == lines[i + 1..];
      if Contains(lines[i], "Bandwidth") {
        e := ReadBandwidthLine(lines[i]);
        break;
      }
      i := i + 1;
    }
  }

  /** The extraction finds no line exactly when "Bandwidth" occurs nowhere in
      the modem's output. */
  lemma NotFoundIff(data: string)
    ensures Extract(data).NotFound? <==> !Contains(data, "Bandwidth")
  {
    LineContainsIff(data, "Bandwidth");
    FirstWithIsFirst(SplitLines(data), "Bandwidth");
  }

  // ---------------------------------------------------------------------
  // Normalisation

  /** The factor that takes a value in `unit` to bits: binary prefixes for
      "gbit", "mbit" and "kbit", and no scaling for any other unit. */
  function UnitMultiplier(unit: string): (m: nat)
    ensures m >= 1
    ensures m == 1 <==> unit != "gbit" && unit != "mbit" && unit != "kbit"
  {
    if unit == "gbit" then 1024 * 1024 * 1024
    else if unit == "mbit" then 1024 * 1024
    else if unit == "kbit" then 1024
    else 1
  }

  /** `values = originalValues[:]`, then every element rescaled in place by
      the three unit tests. */
  method Normalise(raw: seq<int>, unit: string) returns (values: seq<int>)
    ensures values == Scaled(raw, UnitMultiplier(unit))
  {
    var a := new int[|raw|](i requires 0 <= i < |raw| => raw[i]);
    for i := 0 to a.Length
      invariant forall k | 0 <= k < i :: a[k] == raw[k] * UnitMultiplier(unit)
      invariant forall k | i <= k < a.Length :: a[k] == raw[k]
    {
      var value := a[i];
      if unit == "gbit" {
        a[i] := value * (1024 * 1024 * 1024);
      }
      if unit == "mbit" {
        a[i] := value * (1024 * 1024);
      }
      if unit == "kbit" {
        a[i] := value * 1024;
      }
    }
    values := a[..];
  }

  // ---------------------------------------------------------------------
  // The whole run

  /** What the modem sends back: the text up to the command prompt after the
      password, and everything after `exit`. */
  datatype Session = Session(loginReply: string, data: string)

  datatype Event =
    | Connect(host: string, port: int)
    | ReadUntil(marker: string)
    | Write(text: string)
    | ReadAll
    | Close

  /** The telnet calls made, in order, and how the run ended. */
  datatype Run = Run(events: seq<Event>, outcome: Outcome)

  const INVALID_LOGIN := Exit("Invalid username or password", CRITICAL)
  const NO_VALUES := Exit("No values returned", CRITICAL)

  /** How the run ends once the modem's output is in. */
  function Evaluate(data: string, t: Thresholds): Outcome {
    match Extract(data)
    case BadNumber => Crash("ValueError")
    case NotFound => NO_VALUES
    case Extracted(raw, unit) =>
      if raw == [] || unit == [] then NO_VALUES
      else if |raw| < 2 then Crash("IndexError")
      else
        var values := Scaled(raw, UnitMultiplier(unit));
        Verdict(unit, raw[0], raw[1], values[0], values[1], t)
  }

  /** The calls up to and including the wait for the command prompt. */
  function Login(p: Params): seq<Event> {
    [Connect(p.host, p.port), ReadUntil("Username : "), Write(p.username + "\r"),
     ReadUntil("Password : "), Write(p.password + "\r"), ReadUntil("{" + p.username + "}=>")]
  }

  const FETCH := [Write("xdsl info\r"), Write("exit\r"), ReadAll, Close]

  /** Reference definition of a run. */
  function Expected(opts: seq<Opt>, session: Session): Run {
    match Configure(opts)
    case Stop(o) => Run([], o)
    case Ok(p) =>
      if Contains(session.loginReply, "Closing connection") then Run(Login(p), INVALID_LOGIN)
      else Run(Login(p) + FETCH, Evaluate(session.data, p.limits))
  }

  /** From the modem's output to the exit: extraction, the empty-result
      test, normalisation, severity and report. */
  method Conclude(data: string, limits: Thresholds) returns (outcome: Outcome)
    ensures outcome == Evaluate(data, limits)
  {
    var e := ExtractReading(data);
    if e.BadNumber? {
      return Crash("ValueError");
    }
    var originalValues, unit := [], "";
    if e.Extracted? {
      originalValues, unit := e.raw, e.unit;
    }
    if originalValues == [] || unit == [] {
      return NO_VALUES;
    }
    var values := Normalise(originalValues, unit);
    if |values| < 2 {
      return Crash("IndexError");
    }
    outcome := Report(unit, originalValues[0], originalValues[1], values[0], values[1], limits);
  }

  /** `main()` after getopt. */
  method Check(opts: seq<Opt>, session: Session) returns (run: Run)
    ensures run == Expected(opts, session)
  {
    var configured := ParseOptions(opts);
    if configured.Stop? {
      return Run([], configured.outcome);
    }
    var p := configured.value;
    var events := [Connect(p.host, p.port), ReadUntil("Username : "), Write(p.username + "\r")];
    events := events + [ReadUntil("Password : "), Write(p.password + "\r")];
    events := events + [ReadUntil("{" + p.username + "}=>")];
    assert events == Login(p);
    if Contains(session.loginReply, "Closing connection") {
      return Run(events, INVALID_LOGIN);
    }
    events := events + [Write("xdsl info\r"), Write("exit\r"), ReadAll, Close];
    var outcome := Conclude(session.data, p.limits);
    return Run(events, outcome);
  }

  /** The modem is not contacted exactly when the parameters are rejected,
      and the run then ends UNKNOWN. */
  lemma NoConnectionUnlessConfigured(opts: seq<Opt>, session: Session)
    ensures Expected(opts, session).events == [] <==> Configure(opts).Stop?
    ensures Configure(opts).Stop? ==> Expected(opts, session).outcome.code == UNKNOWN
  {
  }

  /** Once configured, the run ends "Invalid username or password" exactly
      when the login reply says "Closing connection", and the modem is then
      sent nothing after the password and the connection is never closed;
      otherwise the login is followed by `xdsl info`, `exit`, the final read
      and the close. */
  lemma InvalidLoginIff(opts: seq<Opt>, session: Session)
    requires Configure(opts).Ok?
    ensures var run := Expected(opts, session);
      && (run.outcome == INVALID_LOGIN <==> Contains(session.loginReply, "Closing connection"))
      && (run.outcome == INVALID_LOGIN <==> |run.events| == 6)
      && (run.outcome == INVALID_LOGIN <==> Close !in run.events)
      && run.events[..6] == Login(Configure(opts).value)
      && (run.outcome != INVALID_LOGIN ==> run.events[6..] == FETCH)
  {
    var p := Configure(opts).value;
    var data := session.data;
    assert (Login(p) + FETCH)[..6] == Login(p) && (Login(p) + FETCH)[6..] == FETCH;
    assert NO_VALUES != INVALID_LOGIN by {
      assert NO_VALUES.message[0] != INVALID_LOGIN.message[0];
    }
    match Extract(data)
    case Extracted(raw, unit) =>
      if raw != [] && unit != [] && |raw| >= 2 {
        var values := Scaled(raw, UnitMultiplier(unit));
        VerdictMessage(unit, raw[0], raw[1], values[0], values[1], p.limits);
      }
    case _ =>
  }

  /** How the modem's output decides the end of a logged-in run: a ValueError
      exactly when the first "Bandwidth" line holds a number `int()`
      rejects; "No values returned" exactly when there is no such line or its
      label is too short for a unit; an IndexError when it holds a single
      number; otherwise the verdict on the first two numbers scaled by the
      unit, with the severity as exit code. */
  lemma EvaluateCases(data: string, t: Thresholds)
    ensures Evaluate(data, t) == Crash("ValueError") <==> Extract(data).BadNumber?
    ensures Evaluate(data, t) == NO_VALUES <==>
      !Contains(data, "Bandwidth") || (Extract(data).Extracted? && Extract(data).unit == [])
    ensures Evaluate(data, t) == Crash("IndexError") <==>
      Extract(data).Extracted? && Extract(data).unit != [] && |Extract(data).raw| == 1
    ensures Extract(data).Extracted? && Extract(data).unit != [] && |Extract(data).raw| >= 2 ==>
      var e := Extract(data);
      var m := UnitMultiplier(e.unit);
      Evaluate(data, t).Exit? && Evaluate(data, t).code == Severity(e.raw[0] * m, e.raw[1] * m, t) &&
      Evaluate(data, t) == Verdict(e.unit, e.raw[0], e.raw[1], e.raw[0] * m, e.raw[1] * m, t)
  {
    NotFoundIff(data);
    var e := Extract(data);
    if e.Extracted? && e.unit != [] && |e.raw| >= 2 {
      var m := UnitMultiplier(e.unit);
      VerdictMessage(e.unit, e.raw[0], e.raw[1], e.raw[0] * m, e.raw[1] * m, t);
    }
  }
}
