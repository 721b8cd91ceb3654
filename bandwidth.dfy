/**
 * The evaluator and reporter shared by both checks: the four thresholds,
 * the severity of a normalised reading, the one status line with its
 * monitoring-plugin performance data, and the scaling of raw rates to bits.
 * The two source files carry identical copies of this logic; only the unit
 * label in the status line differs, and it is a parameter here.
 */
module Bandwidth {
  import opened PyText

  /** How one run of a check ends: an exit with the one line it prints and
      its status code, or an uncaught Python exception (no status line). */
  datatype Outcome = Exit(message: string, code: nat) | Crash(error: string)

  /** A value to carry on with, or the outcome that ends the run here. */
  datatype Result<+T> = Ok(value: T) | Stop(outcome: Outcome)

  // Monitoring-plugin status codes.
  const OK: nat := 0
  const WARNING: nat := 1
  const CRITICAL: nat := 2
  const UNKNOWN: nat := 3

  const BAD_PARAMETERS := Exit("Bad parameters", UNKNOWN)
  const MISSING_PARAMETER := Exit("At least one parameter is missing", UNKNOWN)

  /** The download and upload floors, in bits per second. */
  datatype Thresholds = Thresholds(dwarning: int, dcritical: int, uwarning: int, ucritical: int)

  const NO_THRESHOLDS := Thresholds(0, 0, 0, 0)

  // ---------------------------------------------------------------------
  // Severity

  /** The severity one direction alone would give: both floors are
      inclusive, and the critical floor is tested first. */
  function Level(x: int, warning: int, critical: int): nat {
    if x <= critical then CRITICAL else if x <= warning then WARNING else OK
  }

  function Max(a: nat, b: nat): nat {
    if a < b then b else a
  }

  /** Reference definition: the worse of the two directions. */
  function Severity(down: int, up: int, t: Thresholds): nat {
    Max(Level(down, t.dwarning, t.dcritical), Level(up, t.uwarning, t.ucritical))
  }

  /** The source's successive tests on `returnStatus`: the upload side may
      raise the status to CRITICAL, but to WARNING only from OK. */
  method EvaluateSeverity(down: int, up: int, t: Thresholds) returns (status: nat)
    ensures status == Severity(down, up, t)
    ensures status <= CRITICAL
  {
    status := OK;
    if down <= t.dcritical {
      status := CRITICAL;
    } else if down <= t.dwarning {
      status := WARNING;
    }
    if up <= t.ucritical {
      status := CRITICAL;
    } else if up <= t.uwarning && status < WARNING {
      status := WARNING;
    }
  }

  /** CRITICAL exactly when either direction is at or below its critical
      floor, wherever the warning floors are. */
  lemma SeverityCritical(down: int, up: int, t: Thresholds)
    ensures Severity(down, up, t) == CRITICAL <==> down <= t.dcritical || up <= t.ucritical
  {
  }

  /** WARNING exactly when neither direction is critical and one of them is
      at or below its warning floor. */
  lemma SeverityWarning(down: int, up: int, t: Thresholds)
    ensures Severity(down, up, t) == WARNING <==>
      down > t.dcritical && up > t.ucritical && (down <= t.dwarning || up <= t.uwarning)
  {
  }

  /** OK exactly when both directions are above both of their floors. */
  lemma SeverityOk(down: int, up: int, t: Thresholds)
    ensures Severity(down, up, t) == OK <==>
      down > t.dcritical && down > t.dwarning && up > t.ucritical && up > t.uwarning
  {
  }

  /** Lowering either reading never lowers the severity. */
  lemma SeverityMonotone(down: int, up: int, down': int, up': int, t: Thresholds)
    requires down' <= down && up' <= up
    ensures Severity(down, up, t) <= Severity(down', up', t) <= CRITICAL
  {
  }

  // ---------------------------------------------------------------------
  // The status line

  function Prefix(severity: nat): string {
    if severity == WARNING then "WARNING "
    else if severity == CRITICAL then "CRITICAL "
    else ""
  }

  /** One performance-data entry, `Label=value;warning;critical;;`. */
  function PerfEntry(name: string, value: int, warning: int, critical: int): string {
    name + FormatInt(value) + ";" + FormatInt(warning) + ";" + FormatInt(critical) + ";;"
  }

  /** The performance data: the normalised values with the thresholds as given. */
  function PerfData(down: int, up: int, t: Thresholds): string {
    PerfEntry("Download=", down, t.dwarning, t.dcritical) + PerfEntry(" Upload=", up, t.uwarning, t.ucritical)
  }

  /** The human-readable part: the raw readings under the unit label. */
  function Summary(unit: string, rawDown: int, rawUp: int): string {
    "Bandwidth (" + unit + "): " + FormatInt(rawDown) + "/" + FormatInt(rawUp)
  }

  /** The line a check prints: prefix, summary, then the performance data. */
  function StatusLine(severity: nat, unit: string, rawDown: int, rawUp: int, down: int, up: int, t: Thresholds): string {
    Prefix(severity) + Summary(unit, rawDown, rawUp) + " | " + PerfData(down, up, t)
  }

  /** How a run with a usable reading ends: the status line, and the
      severity as exit code. */
  function Verdict(unit: string, rawDown: int, rawUp: int, down: int, up: int, t: Thresholds): Outcome {
    var severity := Severity(down, up, t);
    Exit(StatusLine(severity, unit, rawDown, rawUp, down, up, t), severity)
  }

  /** Computes the severity step by step as the source does, then prints. */
  method Report(unit: string, rawDown: int, rawUp: int, down: int, up: int, t: Thresholds) returns (o: Outcome)
    ensures o == Verdict(unit, rawDown, rawUp, down, up, t)
    ensures o.Exit? && o.code <= CRITICAL
  {
    var status := EvaluateSeverity(down, up, t);
    o := Exit(StatusLine(status, unit, rawDown, rawUp, down, up, t), status);
  }

  /** A verdict is never UNKNOWN, and its message opens with 'C' (CRITICAL),
      'W' (WARNING) or 'B' (OK), so it cannot be mistaken for the messages
      of the checks' other exits. */
  lemma VerdictMessage(unit: string, rawDown: int, rawUp: int, down: int, up: int, t: Thresholds)
    ensures var o := Verdict(unit, rawDown, rawUp, down, up, t);
      && o.Exit? && o.code == Severity(down, up, t) <= CRITICAL && o.message != []
      && (o.message[0] == 'C' || o.message[0] == 'W' || o.message[0] == 'B')
  {
    var severity := Severity(down, up, t);
    StatusLinePrefix(severity, unit, rawDown, rawUp, down, up, t);
  }

  /** The line starts with "CRITICAL " exactly for CRITICAL, with "WARNING "
      exactly for WARNING, and directly with "Bandwidth (" exactly for OK. */
  lemma StatusLinePrefix(severity: nat, unit: string, rawDown: int, rawUp: int, down: int, up: int, t: Thresholds)
    requires severity <= CRITICAL
    ensures var line := StatusLine(severity, unit, rawDown, rawUp, down, up, t);
      && (severity == CRITICAL <==> IsPrefix("CRITICAL ", line))
      && (severity == WARNING <==> IsPrefix("WARNING ", line))
      && (severity == OK <==> IsPrefix("Bandwidth (", line))
  {
    var body := Summary(unit, rawDown, rawUp) + " | " + PerfData(down, up, t);
    BodyStart(unit, rawDown, rawUp, PerfData(down, up, t));
    assert StatusLine(severity, unit, rawDown, rawUp, down, up, t) == Prefix(severity) + body;
    PrefixDecides(severity, body);
  }

  lemma BodyStart(unit: string, rawDown: int, rawUp: int, perf: string)
    ensures IsPrefix("Bandwidth (", Summary(unit, rawDown, rawUp) + " | " + perf)
  {
    var summary := Summary(unit, rawDown, rawUp);
    SummaryStart(unit, rawDown, rawUp);
    PrefixOfConcat("Bandwidth (", summary, " | ");
    PrefixOfConcat("Bandwidth (", summary + " | ", perf);
  }

  lemma PrefixOfConcat(p: string, a: string, b: string)
    requires IsPrefix(p, a)
    ensures IsPrefix(p, a + b)
  {
    assert (a + b)[..|p|] == a[..|p|];
  }

  lemma SummaryStart(unit: string, rawDown: int, rawUp: int)
    ensures IsPrefix("Bandwidth (", Summary(unit, rawDown, rawUp))
  {
    var p := "Bandwidth (";
    assert IsPrefix(p, p);
    PrefixOfConcat(p, p, unit);
    PrefixOfConcat(p, p + unit, "): ");
    PrefixOfConcat(p, p + unit + "): ", FormatInt(rawDown));
    PrefixOfConcat(p, p + unit + "): " + FormatInt(rawDown), "/");
    PrefixOfConcat(p, p + unit + "): " + FormatInt(rawDown) + "/", FormatInt(rawUp));
  }

  lemma PrefixDecides(severity: nat, body: string)
    requires severity <= CRITICAL && IsPrefix("Bandwidth (", body)
    ensures var line := Prefix(severity) + body;
      && (severity == CRITICAL <==> IsPrefix("CRITICAL ", line))
      && (severity == WARNING <==> IsPrefix("WARNING ", line))
      && (severity == OK <==> IsPrefix("Bandwidth (", line))
  {
    var line := Prefix(severity) + body;
    assert body[0] == 'B';
    if severity == CRITICAL {
      assert line[0] == 'C' && line[..9] == "CRITICAL ";
    } else if severity == WARNING {
      assert line[0] == 'W' && line[..8] == "WARNING ";
    } else {
      assert line == body;
    }
  }

  /** The line ends with the performance data, behind the plugin separator. */
  lemma StatusLineEndsWithPerfData(severity: nat, unit: string, rawDown: int, rawUp: int, down: int, up: int, t: Thresholds)
    ensures IsSuffix(" | " + PerfData(down, up, t), StatusLine(severity, unit, rawDown, rawUp, down, up, t))
  {
    var head := Prefix(severity) + Summary(unit, rawDown, rawUp);
    assert StatusLine(severity, unit, rawDown, rawUp, down, up, t) == head + (" | " + PerfData(down, up, t));
  }

  lemma NoSemicolon(n: int)
    ensures ';' !in FormatInt(n)
  {
  }

  /** One entry falls apart at its semicolons into label and value, warning,
      critical and the empty minimum field; what follows is split on its own. */
  lemma EntryFields(head: string, warning: string, critical: string, rest: string)
    requires ';' !in head && ';' !in warning && ';' !in critical
    ensures Split(head + ";" + warning + ";" + critical + ";;" + rest, ";") ==
      [head, warning, critical, ""] + Split(rest, ";")
  {
    var r3 := [] + [';'] + rest;
    var r2 := critical + [';'] + r3;
    var r1 := warning + [';'] + r2;
    assert head + ";" + warning + ";" + critical + ";;" + rest == head + [';'] + r1;
    SplitAt(head, ";", r1);
    SplitAt(warning, ";", r2);
    SplitAt(critical, ";", r3);
    SplitAt([], ";", rest);
  }

  /** The performance data falls apart at its semicolons into the nine fields
      a monitoring system reads: label and value, warning, critical, and the
      empty minimum field for each direction, then the empty remainder. */
  lemma PerfDataFields(down: int, up: int, t: Thresholds)
    ensures Split(PerfData(down, up, t), ";") ==
      ["Download=" + FormatInt(down), FormatInt(t.dwarning), FormatInt(t.dcritical), "",
       " Upload=" + FormatInt(up), FormatInt(t.uwarning), FormatInt(t.ucritical), "", ""]
  {
    NoSemicolon(down); NoSemicolon(t.dwarning); NoSemicolon(t.dcritical);
    NoSemicolon(up); NoSemicolon(t.uwarning); NoSemicolon(t.ucritical);
    var a, b := "Download=" + FormatInt(down), " Upload=" + FormatInt(up);
    assert ';' !in a && ';' !in b;
    var second := PerfEntry(" Upload=", up, t.uwarning, t.ucritical);
    assert second == second + [];
    EntryFields(b, FormatInt(t.uwarning), FormatInt(t.ucritical), []);
    SplitWhole([], ";");
    EntryFields(a, FormatInt(t.dwarning), FormatInt(t.dcritical), second);
  }

  /** A reader of the performance data gets the thresholds back exactly. */
  lemma PerfDataThresholds(down: int, up: int, t: Thresholds)
    ensures var fields := Split(PerfData(down, up, t), ";");
      && |fields| == 9
      && ParseInt(fields[1]) == Some(t.dwarning) && ParseInt(fields[2]) == Some(t.dcritical)
      && ParseInt(fields[5]) == Some(t.uwarning) && ParseInt(fields[6]) == Some(t.ucritical)
  {
    var fields := Split(PerfData(down, up, t), ";");
    PerfDataFields(down, up, t);
    assert fields[1] == FormatInt(t.dwarning) && fields[2] == FormatInt(t.dcritical);
    assert fields[5] == FormatInt(t.uwarning) && fields[6] == FormatInt(t.ucritical);
    ParseFormat(t.dwarning);
    ParseFormat(t.dcritical);
    ParseFormat(t.uwarning);
    ParseFormat(t.ucritical);
  }

  // ---------------------------------------------------------------------
  // Scaling

  /** Every raw value multiplied by the same factor. */
  function Scaled(raw: seq<int>, factor: int): seq<int> {
    seq(|raw|, i requires 0 <= i < |raw| => raw[i] * factor)
  }

  /** Scaling by a positive factor loses nothing: dividing by the factor
      gives every raw value back. */
  lemma ScaledReversible(raw: seq<int>, factor: int)
    requires factor > 0
    ensures |Scaled(raw, factor)| == |raw|
    ensures forall i | 0 <= i < |raw| :: Scaled(raw, factor)[i] / factor == raw[i]
  {
    forall i | 0 <= i < |raw|
      ensures Scaled(raw, factor)[i] / factor == raw[i]
    {
      DivideProduct(raw[i], factor);
    }
  }

  lemma DivideProduct(x: int, factor: int)
    requires factor > 0
    ensures (x * factor) / factor == x
  {
    var q, r := (x * factor) / factor, (x * factor) % factor;
    assert x * factor == q * factor + r && 0 <= r < factor;
    assert (x - q) * factor == r by {
      assert (x - q) * factor == x * factor - q * factor;
    }
    MultipleBound(x - q, factor);
  }

  lemma MultipleBound(d: int, factor: int)
    requires factor > 0
    ensures d >= 1 ==> d * factor >= factor
    ensures d <= -1 ==> d * factor <= -factor
  {
    if d >= 1 {
      MultipleAtLeast(d, factor);
    } else if d <= -1 {
      MultipleAtLeast(-d, factor);
      assert d * factor == -((-d) * factor);
    }
  }

  lemma {:induction false} MultipleAtLeast(a: nat, factor: int)
    requires a >= 1 && factor > 0
    ensures a * factor >= factor
  {
    if a > 1 {
      MultipleAtLeast(a - 1, factor);
      assert a * factor == (a - 1) * factor + factor;
    }
  }
}
