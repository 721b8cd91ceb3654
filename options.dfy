/**
 * What the option loops of both checks make of the `(option, argument)`
 * pairs that getopt returns: every recognised option overwrites its own
 * parameter, so a parameter ends up with the argument of its LAST
 * occurrence, or keeps its default when its option never occurs.
 */
module Options {
  import opened PyText
  import opened Bandwidth

  /** One pair as returned by getopt: the option as spelled, and its argument
      ("" for an option that takes none). */
  type Opt = (string, string)

  // The spellings each branch of the loops tests for. The long forms
  // "--host" and "--verbose" are tested by the loops, but getopt never
  // yields them, because its long-option list holds the single entry
  // "verbosehost=" instead.
  const HELP_FLAGS := {"-h", "--help"}
  const VERBOSE_FLAGS := {"-v", "--verbose"}
  const HOST_FLAGS := {"-H", "--host"}
  const PORT_FLAGS := {"-P", "--port"}
  const USERNAME_FLAGS := {"-u", "--username"}
  const PASSWORD_FLAGS := {"-p", "--password"}
  const DWARNING_FLAGS := {"-w", "--download-warning"}
  const DCRITICAL_FLAGS := {"-c", "--download-critical"}
  const UWARNING_FLAGS := {"-W", "--upload-warning"}
  const UCRITICAL_FLAGS := {"-C", "--upload-critical"}

  /** The options whose argument goes through `int()`. */
  const INT_FLAGS := PORT_FLAGS + DWARNING_FLAGS + DCRITICAL_FLAGS + UWARNING_FLAGS + UCRITICAL_FLAGS

  /** The argument of the last pair whose option is one of `flags`. */
  function LastArg(opts: seq<Opt>, flags: set<string>): Option<string> {
    if opts == [] then None
    else if opts[|opts| - 1].0 in flags then Some(opts[|opts| - 1].1)
    else LastArg(opts[..|opts| - 1], flags)
  }

  /** Some pair's option is one of `flags`. */
  predicate Mentioned(opts: seq<Opt>, flags: set<string>) {
    exists i | 0 <= i < |opts| :: opts[i].0 in flags
  }

  /** Every argument of an option in `flags` is accepted by `int()`. */
  predicate IntsParse(opts: seq<Opt>, flags: set<string>) {
    forall i | 0 <= i < |opts| :: opts[i].0 in flags ==> ParseInt(opts[i].1).Some?
  }

  /** The integer parameter set by `flags`, or its default. */
  function IntArg(opts: seq<Opt>, flags: set<string>, default: int): int {
    match LastArg(opts, flags)
    case None => default
    case Some(a) => ParseInt(a).GetOr(default)
  }

  /** The four thresholds, each defaulting to 0. */
  function ThresholdsOf(opts: seq<Opt>): Thresholds {
    Thresholds(IntArg(opts, DWARNING_FLAGS, 0), IntArg(opts, DCRITICAL_FLAGS, 0),
               IntArg(opts, UWARNING_FLAGS, 0), IntArg(opts, UCRITICAL_FLAGS, 0))
  }

  /** `LastArg` is the argument of the occurrence after which no other
      occurrence follows. */
  lemma LastArgIsLast(opts: seq<Opt>, flags: set<string>, v: string)
    ensures LastArg(opts, flags) == Some(v) <==>
      exists i | 0 <= i < |opts| :: opts[i].0 in flags && opts[i].1 == v &&
        forall j | i < j < |opts| :: opts[j].0 !in flags
  {
    if LastArg(opts, flags) == Some(v) {
      var i := LastArgIndex(opts, flags);
    }
    if exists i | 0 <= i < |opts| :: opts[i].0 in flags && opts[i].1 == v &&
         forall j | i < j < |opts| :: opts[j].0 !in flags {
      var i :| 0 <= i < |opts| && opts[i].0 in flags && opts[i].1 == v &&
               forall j | i < j < |opts| :: opts[j].0 !in flags;
      LastArgAt(opts, flags, i);
    }
  }

  /** The position `LastArg` takes its argument from. */
  lemma {:induction false} LastArgIndex(opts: seq<Opt>, flags: set<string>) returns (i: nat)
    requires LastArg(opts, flags).Some?
    ensures i < |opts| && opts[i].0 in flags && opts[i].1 == LastArg(opts, flags).value
    ensures forall j | i < j < |opts| :: opts[j].0 !in flags
    decreases |opts|
  {
    var n := |opts| - 1;
    if opts[n].0 in flags {
      i := n;
    } else {
      var init := opts[..n];
      i := LastArgIndex(init, flags);
      assert opts[i] == init[i];
      forall j | i < j < |opts| ensures opts[j].0 !in flags {
        if j < n { assert opts[j] == init[j]; }
      }
    }
  }

  /** An occurrence with no later one supplies `LastArg`. */
  lemma {:induction false} LastArgAt(opts: seq<Opt>, flags: set<string>, i: nat)
    requires i < |opts| && opts[i].0 in flags
    requires forall j | i < j < |opts| :: opts[j].0 !in flags
    ensures LastArg(opts, flags) == Some(opts[i].1)
    decreases |opts|
  {
    var n := |opts| - 1;
    if i < n {
      var init := opts[..n];
      assert init[i] == opts[i];
      forall j | i < j < |init| ensures init[j].0 !in flags {
        assert init[j] == opts[j];
      }
      LastArgAt(init, flags, i);
    }
  }

  /** An option never given leaves its parameter at the default. */
  lemma {:induction false} LastArgAbsent(opts: seq<Opt>, flags: set<string>)
    ensures LastArg(opts, flags) == None <==> !Mentioned(opts, flags)
    decreases |opts|
  {
    if opts != [] {
      var n := |opts| - 1;
      LastArgAbsent(opts[..n], flags);
      assert forall i | 0 <= i < n :: opts[..n][i] == opts[i];
    }
  }

  /** A later occurrence of an option wins over every earlier one. */
  lemma LaterOccurrenceWins(opts: seq<Opt>, o: string, a: string, flags: set<string>)
    requires o in flags
    ensures LastArg(opts + [(o, a)], flags) == Some(a)
  {
  }

  /** Appending a pair for another option keeps the parameter as it was. */
  lemma OtherOptionKeeps(opts: seq<Opt>, o: string, a: string, flags: set<string>)
    requires o !in flags
    ensures LastArg(opts + [(o, a)], flags) == LastArg(opts, flags)
  {
    assert (opts + [(o, a)])[..|opts|] == opts;
  }

  /** How one more pair changes what the loop has collected so far. */
  lemma Step(opts: seq<Opt>, i: nat, flags: set<string>)
    requires i < |opts|
    ensures LastArg(opts[..i + 1], flags) ==
      if opts[i].0 in flags then Some(opts[i].1) else LastArg(opts[..i], flags)
    ensures Mentioned(opts[..i + 1], flags) == (Mentioned(opts[..i], flags) || opts[i].0 in flags)
    ensures IntsParse(opts[..i + 1], flags) ==
      (IntsParse(opts[..i], flags) && (opts[i].0 in flags ==> ParseInt(opts[i].1).Some?))
  {
    assert opts[..i + 1][..i] == opts[..i];
    assert opts[..i + 1][i] == opts[i];
    if Mentioned(opts[..i], flags) {
      var k :| 0 <= k < i && opts[..i][k].0 in flags;
      assert opts[..i + 1][k] == opts[..i][k];
    }
    if Mentioned(opts[..i + 1], flags) && opts[i].0 !in flags {
      var k :| 0 <= k < i + 1 && opts[..i + 1][k].0 in flags;
      assert opts[..i][k] == opts[..i + 1][k];
    }
  }
}
