/**
 * check_zyxel_bandwidth: reads the xDSL rates of a Zyxel router through its
 * HTTP/JSON management API. The three HTTP exchanges are not modelled; the
 * device's answers are an input (`Device`), and the requests the check
 * would issue are recorded in order, so that a run says both what it sent
 * and how it ended.
 */
module Zyxel {
  import opened PyText
  import opened Bandwidth
  import opened Options

  const SSL_FLAGS := {"-s", "--ssl"}
  const NO_CHECK_CERTIFICATE := "--no-check-certificate"

  /** The parameter record the option loop fills in. The password is kept in
      the encoded form that goes over the wire. */
  datatype Params = Params(host: string, port: int, ssl: bool, checkCertificate: bool,
                           username: string, password: string, limits: Thresholds, verbose: bool)

  const DEFAULTS := Params("", 443, false, true, "", "", NO_THRESHOLDS, false)

  // ---------------------------------------------------------------------
  // Parameters

  /** The record after every pair has been read: each parameter from the last
      occurrence of its option, or its default. `encode` stands for the
      base64 encoding of the password's UTF-8 bytes. */
  function Collected(opts: seq<Opt>, encode: string -> string): Params {
    Params(
      LastArg(opts, HOST_FLAGS).GetOr(DEFAULTS.host),
      IntArg(opts, PORT_FLAGS, DEFAULTS.port),
      DEFAULTS.ssl || Mentioned(opts, SSL_FLAGS),
      DEFAULTS.checkCertificate && !Mentioned(opts, {NO_CHECK_CERTIFICATE}),
      LastArg(opts, USERNAME_FLAGS).GetOr(DEFAULTS.username),
      match LastArg(opts, PASSWORD_FLAGS) case Some(a) => encode(a) case None => DEFAULTS.password,
      ThresholdsOf(opts),
      DEFAULTS.verbose || Mentioned(opts, VERBOSE_FLAGS))
  }

  /** The parameters, or the UNKNOWN exit: a port or threshold that `int()`
      rejects, then an empty host, username or password. */
  function Configure(opts: seq<Opt>, encode: string -> string): Result<Params> {
    if !IntsParse(opts, INT_FLAGS) then Stop(BAD_PARAMETERS)
    else
      var p := Collected(opts, encode);
      if p.host == "" || p.username == "" || p.password == "" then Stop(MISSING_PARAMETER)
      else Ok(p)
  }

  /** `q` is `p` after the pair `(o, a)`: a field changes only when `o` is one
      of that field's spellings, and then takes the argument (through `int()`
      or the encoding where the source converts it). */
  predicate Overwrites(p: Params, o: string, a: string, encode: string -> string, q: Params) {
    && q.host == (if o in HOST_FLAGS then a else p.host)
    && q.port == (if o in PORT_FLAGS then ParseInt(a).GetOr(DEFAULTS.port) else p.port)
    && q.ssl == (p.ssl || o in SSL_FLAGS)
    && q.checkCertificate == (p.checkCertificate && o != NO_CHECK_CERTIFICATE)
    && q.username == (if o in USERNAME_FLAGS then a else p.username)
    && q.password == (if o in PASSWORD_FLAGS then encode(a) else p.password)
    && q.limits.dwarning == (if o in DWARNING_FLAGS then ParseInt(a).GetOr(0) else p.limits.dwarning)
    && q.limits.dcritical == (if o in DCRITICAL_FLAGS then ParseInt(a).GetOr(0) else p.limits.dcritical)
    && q.limits.uwarning == (if o in UWARNING_FLAGS then ParseInt(a).GetOr(0) else p.limits.uwarning)
    && q.limits.ucritical == (if o in UCRITICAL_FLAGS then ParseInt(a).GetOr(0) else p.limits.ucritical)
    && q.verbose == (p.verbose || o in VERBOSE_FLAGS)
  }

  /** A pair leaves only one possible record. */
  lemma OverwritesUnique(p: Params, o: string, a: string, encode: string -> string, q1: Params, q2: Params)
    requires Overwrites(p, o, a, encode, q1) && Overwrites(p, o, a, encode, q2)
    ensures q1 == q2
  {
    assert q1.limits == q2.limits;
  }

  /** One more pair overwrites the collected record as `Overwrites` says,
      and must be an integer when its option takes one. */
  lemma CollectedStep(opts: seq<Opt>, i: nat, encode: string -> string)
    requires i < |opts|
    ensures IntsParse(opts[..i + 1], INT_FLAGS) ==
      (IntsParse(opts[..i], INT_FLAGS) && (opts[i].0 in INT_FLAGS ==> ParseInt(opts[i].1).Some?))
    ensures Overwrites(Collected(opts[..i], encode), opts[i].0, opts[i].1, encode, Collected(opts[..i + 1], encode))
  {
    Step(opts, i, INT_FLAGS);
    TextStep(opts, i, encode);
    NumberStep(opts, i, encode);
  }

  lemma TextStep(opts: seq<Opt>, i: nat, encode: string -> string)
    requires i < |opts|
    ensures var (o, a) := opts[i];
      var p := Collected(opts[..i], encode);
      var q := Collected(opts[..i + 1], encode);
      && q.host == (if o in HOST_FLAGS then a else p.host)
      && q.ssl == (p.ssl || o in SSL_FLAGS)
      && q.checkCertificate == (p.checkCertificate && o != NO_CHECK_CERTIFICATE)
      && q.username == (if o in USERNAME_FLAGS then a else p.username)
      && q.password == (if o in PASSWORD_FLAGS then encode(a) else p.password)
      && q.verbose == (p.verbose || o in VERBOSE_FLAGS)
  {
    Step(opts, i, HOST_FLAGS); Step(opts, i, SSL_FLAGS); Step(opts, i, {NO_CHECK_CERTIFICATE});
    Step(opts, i, USERNAME_FLAGS); Step(opts, i, PASSWORD_FLAGS); Step(opts, i, VERBOSE_FLAGS);
  }

  lemma NumberStep(opts: seq<Opt>, i: nat, encode: string -> string)
    requires i < |opts|
    ensures var (o, a) := opts[i];
      var p := Collected(opts[..i], encode);
      var q := Collected(opts[..i + 1], encode);
      && q.port == (if o in PORT_FLAGS then ParseInt(a).GetOr(DEFAULTS.port) else p.port)
      && q.limits.dwarning == (if o in DWARNING_FLAGS then ParseInt(a).GetOr(0) else p.limits.dwarning)
      && q.limits.dcritical == (if o in DCRITICAL_FLAGS then ParseInt(a).GetOr(0) else p.limits.dcritical)
      && q.limits.uwarning == (if o in UWARNING_FLAGS then ParseInt(a).GetOr(0) else p.limits.uwarning)
      && q.limits.ucritical == (if o in UCRITICAL_FLAGS then ParseInt(a).GetOr(0) else p.limits.ucritical)
  {
    Step(opts, i, PORT_FLAGS); Step(opts, i, DWARNING_FLAGS); Step(opts, i, DCRITICAL_FLAGS);
    Step(opts, i, UWARNING_FLAGS); Step(opts, i, UCRITICAL_FLAGS);
  }

  /** The branches of the option loop test disjoint sets of spellings: an
      option selected by one branch is not tested for by any later one. */
  lemma BranchesDisjoint(o: string)
    ensures o in HELP_FLAGS ==>
      o !in VERBOSE_FLAGS && o !in HOST_FLAGS && o !in PORT_FLAGS && o !in SSL_FLAGS &&
      o !in {NO_CHECK_CERTIFICATE} && o !in USERNAME_FLAGS && o !in PASSWORD_FLAGS &&
      o !in DWARNING_FLAGS && o !in DCRITICAL_FLAGS && o !in UWARNING_FLAGS &&
      o !in UCRITICAL_FLAGS
    ensures o in VERBOSE_FLAGS ==>
      o !in HOST_FLAGS && o !in PORT_FLAGS && o !in SSL_FLAGS && o !in {NO_CHECK_CERTIFICATE} &&
      o !in USERNAME_FLAGS && o !in PASSWORD_FLAGS && o !in DWARNING_FLAGS &&
      o !in DCRITICAL_FLAGS && o !in UWARNING_FLAGS && o !in UCRITICAL_FLAGS
    ensures o in HOST_FLAGS ==>
      o !in PORT_FLAGS && o !in SSL_FLAGS && o !in {NO_CHECK_CERTIFICATE} &&
      o !in USERNAME_FLAGS && o !in PASSWORD_FLAGS && o !in DWARNING_FLAGS &&
      o !in DCRITICAL_FLAGS && o !in UWARNING_FLAGS && o !in UCRITICAL_FLAGS
    ensures o in PORT_FLAGS ==>
      o !in SSL_FLAGS && o !in {NO_CHECK_CERTIFICATE} && o !in USERNAME_FLAGS &&
      o !in PASSWORD_FLAGS && o !in DWARNING_FLAGS && o !in DCRITICAL_FLAGS &&
      o !in UWARNING_FLAGS && o !in UCRITICAL_FLAGS
    ensures o in SSL_FLAGS ==>
      o !in {NO_CHECK_CERTIFICATE} && o !in USERNAME_FLAGS && o !in PASSWORD_FLAGS &&
      o !in DWARNING_FLAGS && o !in DCRITICAL_FLAGS && o !in UWARNING_FLAGS &&
      o !in UCRITICAL_FLAGS
    ensures o in {NO_CHECK_CERTIFICATE} ==>
      o !in USERNAME_FLAGS && o !in PASSWORD_FLAGS && o !in DWARNING_FLAGS &&
      o !in DCRITICAL_FLAGS && o !in UWARNING_FLAGS && o !in UCRITICAL_FLAGS
    ensures o in USERNAME_FLAGS ==>
      o !in PASSWORD_FLAGS && o !in DWARNING_FLAGS && o !in DCRITICAL_FLAGS &&
      o !in UWARNING_FLAGS && o !in UCRITICAL_FLAGS
    ensures o in PASSWORD_FLAGS ==>
      o !in DWARNING_FLAGS && o !in DCRITICAL_FLAGS && o !in UWARNING_FLAGS &&
      o !in UCRITICAL_FLAGS
    ensures o in DWARNING_FLAGS ==> o !in DCRITICAL_FLAGS && o !in UWARNING_FLAGS && o !in UCRITICAL_FLAGS
    ensures o in DCRITICAL_FLAGS ==> o !in UWARNING_FLAGS && o !in UCRITICAL_FLAGS
    ensures o in UWARNING_FLAGS ==> o !in UCRITICAL_FLAGS
  {
  }

  /** The body of the option loop: the elif chain on one pair. An argument
      that `int()` rejects raises the ValueError that ends the loop. */
  method ApplyOption(p: Params, o: string, a: string, encode: string -> string) returns (r: Result<Params>)
    ensures r.Stop? <==> o in INT_FLAGS && ParseInt(a).None?
    ensures r.Stop? ==> r.outcome == BAD_PARAMETERS
    ensures r.Ok? ==> Overwrites(p, o, a, encode, r.value)
  {
    BranchesDisjoint(o);
    var q := p;
    if o in HELP_FLAGS {
      // prints the full usage text and carries on
    } else if o in VERBOSE_FLAGS {
      q := q.(verbose := true);
    } else if o in HOST_FLAGS {
      q := q.(host := a);
    } else if o in PORT_FLAGS {
      var n := ParseInt(a);
      if n.None? { return Stop(BAD_PARAMETERS); }
      q := q.(port := n.value);
    } else if o in SSL_FLAGS {
      q := q.(ssl := true);
    } else if o == NO_CHECK_CERTIFICATE {
      q := q.(checkCertificate := false);
    } else if o in USERNAME_FLAGS {
      q := q.(username := a);
    } else if o in PASSWORD_FLAGS {
      q := q.(password := encode(a));
    } else if o in DWARNING_FLAGS {
      var n := ParseInt(a);
      if n.None? { return Stop(BAD_PARAMETERS); }
      q := q.(limits := q.limits.(dwarning := n.value));
    } else if o in DCRITICAL_FLAGS {
      var n := ParseInt(a);
      if n.None? { return Stop(BAD_PARAMETERS); }
      q := q.(limits := q.limits.(dcritical := n.value));
    } else if o in UWARNING_FLAGS {
      var n := ParseInt(a);
      if n.None? { return Stop(BAD_PARAMETERS); }
      q := q.(limits := q.limits.(uwarning := n.value));
    } else if o in UCRITICAL_FLAGS {
      var n := ParseInt(a);
      if n.None? { return Stop(BAD_PARAMETERS); }
      q := q.(limits := q.limits.(ucritical := n.value));
    }
    return Ok(q);
  }

  /** The loop invariant survives one more pair: a rejected integer means
      the whole option list is rejected, and otherwise the new record is the
      one collected from one more pair. */
  lemma Advance(opts: seq<Opt>, i: nat, encode: string -> string, next: Result<Params>)
    requires i < |opts| && IntsParse(opts[..i], INT_FLAGS)
    requires next.Stop? <==> opts[i].0 in INT_FLAGS && ParseInt(opts[i].1).None?
    requires next.Ok? ==> Overwrites(Collected(opts[..i], encode), opts[i].0, opts[i].1, encode, next.value)
    ensures next.Stop? ==> !IntsParse(opts, INT_FLAGS)
    ensures next.Ok? ==> IntsParse(opts[..i + 1], INT_FLAGS) && next.value == Collected(opts[..i + 1], encode)
  {
    CollectedStep(opts, i, encode);
    if next.Ok? {
      OverwritesUnique(Collected(opts[..i], encode), opts[i].0, opts[i].1, encode, next.value, Collected(opts[..i + 1], encode));
    } else {
      assert opts[i].0 in INT_FLAGS && ParseInt(opts[i].1).None?;
    }
  }

  /** The option loop, then the mandatory-parameter test. */
  method ParseOptions(opts: seq<Opt>, encode: string -> string) returns (r: Result<Params>)
    ensures r == Configure(opts, encode)
  {
    var p := DEFAULTS;
    for i := 0 to |opts|
      invariant IntsParse(opts[..i], INT_FLAGS)
      invariant p == Collected(opts[..i], encode)
    {
      var next := ApplyOption(p, opts[i].0, opts[i].1, encode);
      Advance(opts, i, encode, next);
      if next.Stop? {
        return next;
      }
      p := next.value;
    }
    assert opts[..|opts|] == opts;
    if p.host == "" || p.username == "" || p.password == "" {
      return Stop(MISSING_PARAMETER);
    }
    return Ok(p);
  }

  /** A parameter whose options never occur keeps its default: port 443,
      plain http, certificates checked, thresholds 0, not verbose, and empty
      host, username and password. */
  lemma DefaultsKept(opts: seq<Opt>, encode: string -> string)
    ensures var p := Collected(opts, encode);
      && (!Mentioned(opts, HOST_FLAGS) ==> p.host == "")
      && (!Mentioned(opts, PORT_FLAGS) ==> p.port == 443)
      && (!Mentioned(opts, SSL_FLAGS) ==> !p.ssl)
      && (!Mentioned(opts, {NO_CHECK_CERTIFICATE}) ==> p.checkCertificate)
      && (!Mentioned(opts, USERNAME_FLAGS) ==> p.username == "")
      && (!Mentioned(opts, PASSWORD_FLAGS) ==> p.password == "")
      && (!Mentioned(opts, DWARNING_FLAGS) ==> p.limits.dwarning == 0)
      && (!Mentioned(opts, DCRITICAL_FLAGS) ==> p.limits.dcritical == 0)
      && (!Mentioned(opts, UWARNING_FLAGS) ==> p.limits.uwarning == 0)
      && (!Mentioned(opts, UCRITICAL_FLAGS) ==> p.limits.ucritical == 0)
      && (!Mentioned(opts, VERBOSE_FLAGS) ==> !p.verbose)
  {
    LastArgAbsent(opts, HOST_FLAGS); LastArgAbsent(opts, PORT_FLAGS);
    LastArgAbsent(opts, USERNAME_FLAGS); LastArgAbsent(opts, PASSWORD_FLAGS);
    LastArgAbsent(opts, DWARNING_FLAGS); LastArgAbsent(opts, DCRITICAL_FLAGS);
    LastArgAbsent(opts, UWARNING_FLAGS); LastArgAbsent(opts, UCRITICAL_FLAGS);
  }

  /** A port or threshold argument that `int()` rejects ends the run as "Bad
      parameters", wherever it stands among the options and whatever the
      other options say. */
  lemma BadIntegerRejected(opts: seq<Opt>, encode: string -> string, i: nat)
    requires i < |opts| && opts[i].0 in INT_FLAGS && ParseInt(opts[i].1).None?
    ensures Configure(opts, encode) == Stop(BAD_PARAMETERS)
  {
  }

  /** A run without any `-H` option never gets past the parameters: it
      sends no request and ends UNKNOWN. */
  lemma NoHostNoRequest(opts: seq<Opt>, encode: string -> string, device: Device)
    requires !Mentioned(opts, HOST_FLAGS)
    ensures Configure(opts, encode) == Stop(BAD_PARAMETERS) || Configure(opts, encode) == Stop(MISSING_PARAMETER)
    ensures Expected(opts, encode, device).requests == []
    ensures Expected(opts, encode, device).outcome.code == UNKNOWN
  {
    LastArgAbsent(opts, HOST_FLAGS);
  }

  /** An empty `-p` argument, as the last password given, counts as missing:
      the encoding of the empty text is empty. */
  lemma EmptyPasswordMissing(opts: seq<Opt>, encode: string -> string)
    requires IntsParse(opts, INT_FLAGS) && encode("") == ""
    requires LastArg(opts, PASSWORD_FLAGS) == Some("")
    ensures Configure(opts, encode) == Stop(MISSING_PARAMETER)
  {
  }

  // ---------------------------------------------------------------------
  // Request text

  function Scheme(ssl: bool): string {
    if ssl then "https" else "http"
  }

  /** `protocol://host:port/` */
  function BaseUrl(ssl: bool, host: string, port: int): string {
    Scheme(ssl) + "://" + host + ":" + FormatInt(port) + "/"
  }

  /** The URL is https exactly when ssl is set, and http otherwise. */
  lemma BaseUrlScheme(ssl: bool, host: string, port: int)
    ensures IsPrefix("https://", BaseUrl(ssl, host, port)) <==> ssl
    ensures !ssl ==> IsPrefix("http://", BaseUrl(ssl, host, port))
  {
    var tail := host + ":" + FormatInt(port) + "/";
    assert BaseUrl(ssl, host, port) == Scheme(ssl) + "://" + tail;
    if ssl {
      assert BaseUrl(ssl, host, port)[..8] == "https://";
    } else {
      assert BaseUrl(ssl, host, port)[..7] == "http://";
      assert BaseUrl(ssl, host, port)[4] == ':';
    }
  }

  /** Whatever the host, the text after the URL's last colon is the port in
      decimal and the closing slash, and it reads back as the port. */
  lemma BaseUrlPort(ssl: bool, host: string, port: int)
    ensures var pieces := Split(BaseUrl(ssl, host, port), ":");
      var last := pieces[|pieces| - 1];
      last == FormatInt(port) + "/" && ParseInt(last[..|last| - 1]) == Some(port)
  {
    var digits := FormatInt(port);
    forall i | 0 <= i < |digits + "/"| ensures (digits + "/")[i] != ':' {
      if i < |digits| {
        assert IsDigit(digits[i]) || digits[i] == '-';
      }
    }
    assert BaseUrl(ssl, host, port) == Scheme(ssl) + "://" + host + [':'] + (digits + "/");
    SplitLast(Scheme(ssl) + "://" + host, ':', digits + "/");
    assert (digits + "/")[..|digits|] == digits;
    ParseFormat(port);
  }

  const ACCOUNT_OPEN := "{\"Input_Account\": \""
  const PASSWD_OPEN := "\",\"Input_Passwd\": \""
  const OBJECT_CLOSE := "\"}"

  /** The JSON credential object, built by text substitution without
      escaping. */
  function AuthObject(username: string, password: string): string {
    ACCOUNT_OPEN + username + PASSWD_OPEN + password + OBJECT_CLOSE
  }

  /** The index of the first double quote in `s`, or `|s|` when there is
      none. */
  function FirstQuote(s: string): (k: nat)
    ensures k <= |s|
    ensures forall i | 0 <= i < k :: s[i] != '"'
    ensures k < |s| ==> s[k] == '"'
  {
    if s == [] || s[0] == '"' then 0 else 1 + FirstQuote(s[1..])
  }

  /** A quote-free name is delimited by the first quote after it. */
  lemma {:induction false} FirstQuoteAfter(u: string, rest: string)
    requires '"' !in u && rest != [] && rest[0] == '"'
    ensures FirstQuote(u + rest) == |u|
    decreases |u|
  {
    if u != [] {
      assert (u + rest)[1..] == u[1..] + rest;
      FirstQuoteAfter(u[1..], rest);
    }
  }

  /** A quote-free text followed by a quote splits back uniquely. */
  lemma QuoteDelimited(u1: string, r1: string, u2: string, r2: string)
    requires '"' !in u1 && '"' !in u2
    requires r1 != [] && r1[0] == '"' && r2 != [] && r2[0] == '"'
    requires u1 + r1 == u2 + r2
    ensures u1 == u2 && r1 == r2
  {
    var x := u1 + r1;
    FirstQuoteAfter(u1, r1);
    FirstQuoteAfter(u2, r2);
    assert u1 == x[..|u1|] && r1 == x[|u1|..];
    assert u2 == x[..|u2|] && r2 == x[|u2|..];
  }

  /** Text between a fixed opening and a fixed closing is determined by the
      whole. */
  lemma Enclosed(open: string, a: string, b: string, close: string)
    requires open + a + close == open + b + close
    ensures a == b
  {
    var x := open + a + close;
    assert a == x[|open|..|open| + |a|];
    assert b == x[|open|..|open| + |b|];
  }

  /** For names without a double quote, the credential object determines the
      username and the (encoded) password it was built from. */
  lemma AuthObjectInjective(u1: string, p1: string, u2: string, p2: string)
    requires '"' !in u1 && '"' !in u2
    requires AuthObject(u1, p1) == AuthObject(u2, p2)
    ensures u1 == u2 && p1 == p2
  {
    var r1 := PASSWD_OPEN + p1 + OBJECT_CLOSE;
    var r2 := PASSWD_OPEN + p2 + OBJECT_CLOSE;
    var x1, x2 := u1 + r1, u2 + r2;
    assert AuthObject(u1, p1) == ACCOUNT_OPEN + x1 + [] by {
      assert ACCOUNT_OPEN + u1 + PASSWD_OPEN + p1 + OBJECT_CLOSE == ACCOUNT_OPEN + u1 + r1;
    }
    assert AuthObject(u2, p2) == ACCOUNT_OPEN + x2 + [] by {
      assert ACCOUNT_OPEN + u2 + PASSWD_OPEN + p2 + OBJECT_CLOSE == ACCOUNT_OPEN + u2 + r2;
    }
    Enclosed(ACCOUNT_OPEN, x1, x2, []);
    QuoteDelimited(u1, r1, u2, r2);
    Enclosed(PASSWD_OPEN, p1, p2, OBJECT_CLOSE);
  }

  // ---------------------------------------------------------------------
  // The device's answers

  /** The answer to the login check: HTTP status and the `result` field of
      the first element of its JSON body. */
  datatype AuthReply = AuthReply(status: int, result: string)

  /** One element of the `DslChannelInfo` list, rates in kilobits. */
  datatype Channel = Channel(status: string, downstream: int, upstream: int)

  /** Everything the check reads from the router. */
  datatype Device = Device(login: AuthReply, addEntryStatus: int, channels: seq<Channel>)

  datatype Request = Put(url: string, body: string, verify: bool) | Get(url: string, verify: bool)

  /** The requests issued, in order, and how the run ended. */
  datatype Run = Run(requests: seq<Request>, outcome: Outcome)

  const AUTHENTICATION_FAILED := Exit("Authentication failed", UNKNOWN)
  const NO_CONNECTION := Exit("UNKNOWN, No connection", UNKNOWN)

  predicate LoginAccepted(reply: AuthReply) {
    reply.status == 200 && reply.result == "0"
  }

  // ---------------------------------------------------------------------
  // Channel selection and normalisation

  /** The last channel whose status is "Up". */
  function LastUp(channels: seq<Channel>): Option<Channel> {
    if channels == [] then None
    else if channels[|channels| - 1].status == "Up" then Some(channels[|channels| - 1])
    else LastUp(channels[..|channels| - 1])
  }

  /** The loop without `break`: every "Up" channel overwrites the rates taken
      from the ones before it. */
  method SelectChannel(channels: seq<Channel>) returns (selected: Option<Channel>)
    ensures selected == LastUp(channels)
  {
    selected := None;
    for i := 0 to |channels|
      invariant selected == LastUp(channels[..i])
    {
      assert channels[..i + 1][..i] == channels[..i];
      if channels[i].status == "Up" {
        selected := Some(channels[i]);
      }
    }
    assert channels[..|channels|] == channels;
  }

  /** The selected channel is an "Up" one with no "Up" channel after it;
      there is none exactly when no channel is "Up". */
  lemma LastUpIsLast(channels: seq<Channel>)
    ensures LastUp(channels).None? <==> forall i | 0 <= i < |channels| :: channels[i].status != "Up"
    ensures LastUp(channels).Some? ==>
      exists i | 0 <= i < |channels| :: channels[i] == LastUp(channels).value && channels[i].status == "Up" &&
        forall j | i < j < |channels| :: channels[j].status != "Up"
  {
    LastUpNone(channels);
    if LastUp(channels).Some? {
      var i := LastUpIndex(channels);
    }
  }

  lemma {:induction false} LastUpNone(channels: seq<Channel>)
    ensures LastUp(channels).None? <==> forall i | 0 <= i < |channels| :: channels[i].status != "Up"
    decreases |channels|
  {
    if channels != [] {
      var n := |channels| - 1;
      LastUpNone(channels[..n]);
      assert forall i | 0 <= i < n :: channels[..n][i] == channels[i];
    }
  }

  /** The position the selected channel comes from. */
  lemma {:induction false} LastUpIndex(channels: seq<Channel>) returns (i: nat)
    requires LastUp(channels).Some?
    ensures i < |channels| && channels[i] == LastUp(channels).value && channels[i].status == "Up"
    ensures forall j | i < j < |channels| :: channels[j].status != "Up"
    decreases |channels|
  {
    var n := |channels| - 1;
    if channels[n].status == "Up" {
      i := n;
    } else {
      var init := channels[..n];
      i := LastUpIndex(init);
      assert channels[i] == init[i];
      forall j | i < j < |channels| ensures channels[j].status != "Up" {
        if j < n { assert channels[j] == init[j]; }
      }
    }
  }

  /** `values = originalValues[:]`, then every element multiplied by 1024 in
      place: kilobits to bits. */
  method Normalise(raw: seq<int>) returns (values: seq<int>)
    ensures values == Scaled(raw, 1024)
  {
    var a := new int[|raw|](i requires 0 <= i < |raw| => raw[i]);
    for i := 0 to a.Length
      invariant forall k | 0 <= k < i :: a[k] == raw[k] * 1024
      invariant forall k | i <= k < a.Length :: a[k] == raw[k]
    {
      a[i] := a[i] * 1024;
    }
    values := a[..];
  }

  // ---------------------------------------------------------------------
  // The whole run

  /** How a logged-in run ends, given the channel list. */
  function Rates(channels: seq<Channel>, t: Thresholds): Outcome {
    match LastUp(channels)
    case None => NO_CONNECTION
    case Some(c) => Verdict("kbps", c.downstream, c.upstream, c.downstream * 1024, c.upstream * 1024, t)
  }

  /** Reference definition of a run. */
  function Expected(opts: seq<Opt>, encode: string -> string, device: Device): Run {
    match Configure(opts, encode)
    case Stop(o) => Run([], o)
    case Ok(p) =>
      var base := BaseUrl(p.ssl, p.host, p.port);
      var body := AuthObject(p.username, p.password);
      var check := Put(base + "UserLoginCheck?action=check", body, p.checkCertificate);
      var add := Put(base + "UserLoginCheck?action=add_login_entry", body, p.checkCertificate);
      var stats := Get(base + "cgi-bin/Status?oid=status", p.checkCertificate);
      if !LoginAccepted(device.login) then Run([check], AUTHENTICATION_FAILED)
      else if device.addEntryStatus != 200 then Run([check, add], AUTHENTICATION_FAILED)
      else Run([check, add, stats], Rates(device.channels, p.limits))
  }

  /** From the status reply to the exit: channel selection, normalisation,
      severity and report. */
  method Conclude(channels: seq<Channel>, limits: Thresholds) returns (outcome: Outcome)
    ensures outcome == Rates(channels, limits)
  {
    var channel := SelectChannel(channels);
    if channel.None? {
      return NO_CONNECTION;
    }
    var originalValues := [channel.value.downstream, channel.value.upstream];
    var values := Normalise(originalValues);
    outcome := Report("kbps", originalValues[0], originalValues[1], values[0], values[1], limits);
  }

  /** `main()` after getopt. */
  method Check(opts: seq<Opt>, encode: string -> string, device: Device) returns (run: Run)
    ensures run == Expected(opts, encode, device)
  {
    var configured := ParseOptions(opts, encode);
    if configured.Stop? {
      return Run([], configured.outcome);
    }
    var p := configured.value;
    var base := BaseUrl(p.ssl, p.host, p.port);
    var body := AuthObject(p.username, p.password);
    var requests := [Put(base + "UserLoginCheck?action=check", body, p.checkCertificate)];
    if !LoginAccepted(device.login) {
      return Run(requests, AUTHENTICATION_FAILED);
    }
    requests := requests + [Put(base + "UserLoginCheck?action=add_login_entry", body, p.checkCertificate)];
    if device.addEntryStatus != 200 {
      return Run(requests, AUTHENTICATION_FAILED);
    }
    requests := requests + [Get(base + "cgi-bin/Status?oid=status", p.checkCertificate)];
    var outcome := Conclude(device.channels, p.limits);
    return Run(requests, outcome);
  }

  /** No request is issued exactly when the parameters are rejected, and the
      run then ends UNKNOWN. */
  lemma NoRequestUnlessConfigured(opts: seq<Opt>, encode: string -> string, device: Device)
    ensures Expected(opts, encode, device).requests == [] <==> Configure(opts, encode).Stop?
    ensures Configure(opts, encode).Stop? ==> Expected(opts, encode, device).outcome.code == UNKNOWN
  {
  }

  /** Authentication fails, after one or two requests, exactly when the login
      check is not a 200 with result "0" or the session registration is not
      a 200. */
  lemma AuthenticationFailure(opts: seq<Opt>, encode: string -> string, device: Device)
    requires Configure(opts, encode).Ok?
    ensures var run := Expected(opts, encode, device);
      && (run.outcome == AUTHENTICATION_FAILED <==>
          !LoginAccepted(device.login) || device.addEntryStatus != 200)
      && (run.outcome == AUTHENTICATION_FAILED ==> 1 <= |run.requests| <= 2)
  {
  }

  /** Once logged in, the run ends UNKNOWN exactly when no channel is "Up";
      otherwise its exit code is the severity of the last "Up" channel's
      rates times 1024, and its line reports that channel's raw rates. */
  lemma ConnectionOutcome(opts: seq<Opt>, encode: string -> string, device: Device)
    requires Configure(opts, encode).Ok?
    requires LoginAccepted(device.login) && device.addEntryStatus == 200
    ensures var run := Expected(opts, encode, device);
      && |run.requests| == 3
      && (run.outcome == NO_CONNECTION <==> forall i | 0 <= i < |device.channels| :: device.channels[i].status != "Up")
      && (run.outcome != NO_CONNECTION ==>
          exists i | 0 <= i < |device.channels| ::
            var c := device.channels[i];
            && c.status == "Up"
            && (forall j | i < j < |device.channels| :: device.channels[j].status != "Up")
            && run.outcome == Verdict("kbps", c.downstream, c.upstream, c.downstream * 1024, c.upstream * 1024,
                                      Configure(opts, encode).value.limits)
            && run.outcome.code == Severity(c.downstream * 1024, c.upstream * 1024, Configure(opts, encode).value.limits))
  {
    LastUpIsLast(device.channels);
  }
}
