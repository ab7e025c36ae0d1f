/** util/docker.go after `docker inspect` and json.Unmarshal: the env list
    turned into `--env` arguments, and the host port bindings turned into
    numbers. The inspect call and the JSON decoding arrive as outcomes. */
module DockerUtil {
  import opened Wrappers

  datatype DockerError = CouldNotRunInspect | CouldNotParseJson

  /** What `docker inspect --format '{{json .Config.Env}}'` and the decoding of its output gave. */
  datatype EnvInspect = EnvInspectFailed | EnvJsonInvalid | EnvJson(env: seq<string>)

  // ---------------------------------------------------------------------
  // GetEnvCliCallsForDockerRunFromContainerMetadata
  // ---------------------------------------------------------------------

  /** The arguments built from a decoded env list: "--env", E[i] for each i. */
  function EnvArgs(env: seq<string>): (r: seq<string>)
    ensures |r| == 2 * |env|
    ensures forall i :: 0 <= i < |env| ==> r[2 * i] == "--env" && r[2 * i + 1] == env[i]
  {
    if env == [] then []
    else EnvArgs(env[..|env| - 1]) + ["--env", env[|env| - 1]]
  }

  /** GetEnvCliCallsForDockerRunFromContainerMetadata (util/docker.go:35-52). */
  function EnvCliCalls(inspect: EnvInspect): (r: Result<seq<string>, DockerError>)
    ensures inspect.EnvInspectFailed? ==> r == Failure(CouldNotRunInspect)
    ensures inspect.EnvJsonInvalid? ==> r == Failure(CouldNotParseJson)
    ensures inspect.EnvJson? ==> r.Success? && |r.value| == 2 * |inspect.env|
    ensures inspect.EnvJson? && inspect.env == [] ==> r == Success([])
  {
    match inspect
    case EnvInspectFailed => Failure(CouldNotRunInspect)
    case EnvJsonInvalid => Failure(CouldNotParseJson)
    case EnvJson(env) => Success(EnvArgs(env))
  }

  /** The loop at util/docker.go:47-49 and the error returns before it. */
  method GetEnvCliCallsForDockerRunFromContainerMetadata(inspect: EnvInspect) returns (r: Result<seq<string>, DockerError>)
    ensures r == EnvCliCalls(inspect)
  {
    if inspect.EnvInspectFailed? {
      return Failure(CouldNotRunInspect);
    }
    if inspect.EnvJsonInvalid? {
      return Failure(CouldNotParseJson);
    }
    var parsedEnv := inspect.env;
    var dockerRunCommand: seq<string> := [];
    var k := 0;
    while k < |parsedEnv|
      invariant 0 <= k <= |parsedEnv|
      invariant dockerRunCommand == EnvArgs(parsedEnv[..k])
    {
      assert parsedEnv[..k + 1][..k] == parsedEnv[..k];
      dockerRunCommand := dockerRunCommand + ["--env", parsedEnv[k]];
      k := k + 1;
    }
    assert parsedEnv[..k] == parsedEnv;
    return Success(dockerRunCommand);
  }

  // ---------------------------------------------------------------------
  // strconv.Atoi, for a 64-bit int
  // ---------------------------------------------------------------------

  const MaxInt64: int := 0x7fff_ffff_ffff_ffff
  const MinInt64: int := -0x8000_0000_0000_0000

  /** Atoi's results: the value it returns and whether the error was nil.
      A syntax error returns 0; an out-of-range number returns the nearest bound. */
  datatype AtoiResult = AtoiResult(value: int, ok: bool)

  predicate IsDigit(ch: char) { '0' <= ch <= '9' }

  predicate AllDigits(s: string) {
    s == [] || (AllDigits(s[..|s| - 1]) && IsDigit(s[|s| - 1]))
  }

  lemma {:induction false} AllDigitsIndex(s: string, i: int)
    requires AllDigits(s) && 0 <= i < |s|
    ensures IsDigit(s[i])
  {
    if i < |s| - 1 {
      AllDigitsIndex(s[..|s| - 1], i);
    }
  }

  function DigitsValue(s: string): nat
    requires AllDigits(s)
  {
    if s == [] then 0 else DigitsValue(s[..|s| - 1]) * 10 + (s[|s| - 1] as int - '0' as int)
  }

  const MaxUint64: int := 0xffff_ffff_ffff_ffff

  /** The text after one optional leading sign. */
  function Body(s: string): string {
    if |s| > 0 && (s[0] == '+' || s[0] == '-') then s[1..] else s
  }

  predicate Negative(s: string) {
    |s| > 0 && s[0] == '-'
  }

  /** The length of the longest prefix of s made of digits. */
  function DigitRun(s: string): (n: nat)
    ensures n <= |s| && AllDigits(s[..n])
    ensures n < |s| ==> !IsDigit(s[n])
  {
    if s == [] then 0
    else
      var k := DigitRun(s[..|s| - 1]);
      assert s[..|s| - 1][..k] == s[..k];
      if k == |s| - 1 && IsDigit(s[|s| - 1]) then
        assert s[..|s|] == s;
        |s|
      else k
  }

  /** The digit run is the only all-digit prefix that ends at the end of s
      or at a non-digit. */
  lemma DigitRunUnique(s: string, m: nat)
    requires m <= |s| && AllDigits(s[..m])
    requires m < |s| ==> !IsDigit(s[m])
    ensures DigitRun(s) == m
  {
    var n := DigitRun(s);
    if n < m {
      assert s[..m][n] == s[n];
      AllDigitsIndex(s[..m], n);
    } else if n > m {
      assert s[..n][m] == s[m];
      AllDigitsIndex(s[..n], m);
    }
  }

  /** The digits ParseUint consumes before it meets a non-digit. */
  function LeadingDigits(s: string): (r: string)
    ensures AllDigits(r)
  {
    Body(s)[..DigitRun(Body(s))]
  }

  /** ParseUint's running value passes 2^64 - 1 before any non-digit is
      reached; it then stops with a range error, whatever follows. */
  predicate Overflows(s: string) {
    DigitsValue(LeadingDigits(s)) > MaxUint64
  }

  /** A decimal with an optional sign: what Atoi accepts without error when
      it is in range. */
  predicate IsDecimal(s: string) {
    Body(s) != [] && AllDigits(Body(s))
  }

  /** The mathematical value of a decimal. */
  function SignedValue(s: string): int
    requires IsDecimal(s)
  {
    var d: int := DigitsValue(Body(s));
    if Negative(s) then -d else d
  }

  lemma DecimalDigits(s: string)
    ensures IsDecimal(s) ==> LeadingDigits(s) == Body(s)
  {
    if IsDecimal(s) {
      assert Body(s)[..|Body(s)|] == Body(s);
      DigitRunUnique(Body(s), |Body(s)|);
    }
  }

  /** How ParseUint's digit loop ends. */
  datatype Scan = Value(n: nat) | SyntaxError | RangeError

  /** ParseUint's digit loop, base 10 and 64 bits, over the text still to
      read, with `n` the value read so far: a non-digit is a syntax error,
      and a digit that takes the value past 2^64 - 1 a range error at once. */
  function ParseDigits(s: string, n: nat): Scan
    decreases |s|
  {
    if s == [] then Value(n)
    else if !IsDigit(s[0]) then SyntaxError
    else
      var m := n * 10 + (s[0] as int - '0' as int);
      if m > MaxUint64 then RangeError else ParseDigits(s[1..], m)
  }

  /** strconv.Atoi as ParseInt(s, 10, 64) computes it: one sign is taken off,
      an empty rest is a syntax error, ParseUint scans the digits, a syntax
      error gives 0 and a range error the bound of the sign; a value that
      does not fit int64 is clamped with a range error. AtoiMeaning states
      the cases. */
  function Atoi(s: string): (r: AtoiResult)
    ensures MinInt64 <= r.value <= MaxInt64
  {
    var body := Body(s);
    if body == [] then AtoiResult(0, false)
    else
      match ParseDigits(body, 0)
      case SyntaxError => AtoiResult(0, false)
      case RangeError => AtoiResult(if Negative(s) then MinInt64 else MaxInt64, false)
      case Value(u) =>
        var w: int := u;
        var v := if Negative(s) then -w else w;
        if v > MaxInt64 then AtoiResult(MaxInt64, false)
        else if v < MinInt64 then AtoiResult(MinInt64, false)
        else AtoiResult(v, true)
  }

  /** A prefix of digits denotes no more than the whole. */
  lemma {:induction false} DigitsValuePrefix(x: string, k: int)
    requires AllDigits(x) && 0 <= k <= |x|
    ensures AllDigits(x[..k]) && DigitsValue(x[..k]) <= DigitsValue(x)
  {
    if k < |x| {
      var init := x[..|x| - 1];
      assert x[..k] == init[..k];
      DigitsValuePrefix(init, k);
    } else {
      assert x[..k] == x;
    }
  }

  /** The longest all-digit prefix of s. */
  function Lead(s: string): (r: string)
    ensures AllDigits(r) && |r| <= |s| && r == s[..|r|]
  {
    s[..DigitRun(s)]
  }

  /** The digit run reaches past any all-digit prefix. */
  lemma DigitRunAtLeast(s: string, k: int)
    requires 0 <= k <= |s| && AllDigits(s[..k])
    ensures DigitRun(s) >= k
  {
    var n := DigitRun(s);
    if n < k {
      assert s[..k][n] == s[n];
      AllDigitsIndex(s[..k], n);
    }
  }

  /** How the scan of t ends when the digits p were read before it. */
  predicate ScanEnds(p: string, t: string)
    requires AllDigits(p)
  {
    var lead := Lead(p + t);
    && (DigitsValue(lead) > MaxUint64 ==> ParseDigits(t, DigitsValue(p)) == RangeError)
    && (DigitsValue(lead) <= MaxUint64 && |lead| < |p + t| ==> ParseDigits(t, DigitsValue(p)) == SyntaxError)
    && (DigitsValue(lead) <= MaxUint64 && |lead| == |p + t| ==> ParseDigits(t, DigitsValue(p)) == Value(DigitsValue(lead)))
  }

  /** The scan, started after the digits p, ends as the leading digits of
      p + t say: a range error when they exceed 2^64 - 1, else a syntax error
      when a non-digit follows them, else their value. */
  lemma {:induction false} ParseDigitsMeaning(p: string, t: string)
    requires AllDigits(p) && DigitsValue(p) <= MaxUint64
    ensures ScanEnds(p, t)
    decreases |t|
  {
    if t == [] || !IsDigit(t[0]) {
      ScanStops(p, t);
    } else {
      var p' := p + [t[0]];
      assert p'[..|p|] == p;
      assert p + t == p' + t[1..];
      if DigitsValue(p') > MaxUint64 {
        ScanOverflows(p, t);
      } else {
        assert ParseDigits(t, DigitsValue(p)) == ParseDigits(t[1..], DigitsValue(p'));
        ParseDigitsMeaning(p', t[1..]);
      }
    }
  }

  /** The scan stops at the end of the text or at a non-digit. */
  lemma ScanStops(p: string, t: string)
    requires AllDigits(p) && DigitsValue(p) <= MaxUint64
    requires t == [] || !IsDigit(t[0])
    ensures ScanEnds(p, t)
  {
    var s := p + t;
    assert s[..|p|] == p;
    if t != [] {
      assert s[|p|] == t[0];
    }
    DigitRunUnique(s, |p|);
    assert Lead(s) == p;
  }

  /** The digit after p takes the value past 2^64 - 1. */
  lemma ScanOverflows(p: string, t: string)
    requires AllDigits(p) && t != [] && IsDigit(t[0])
    requires DigitsValue(p + [t[0]]) > MaxUint64
    ensures ScanEnds(p, t)
  {
    var s, p' := p + t, p + [t[0]];
    assert p'[..|p|] == p;
    assert DigitsValue(p') == DigitsValue(p) * 10 + (t[0] as int - '0' as int);
    assert ParseDigits(t, DigitsValue(p)) == RangeError;
    assert s[..|p'|] == p';
    DigitRunAtLeast(s, |p'|);
    assert Lead(s)[..|p'|] == p';
    DigitsValuePrefix(Lead(s), |p'|);
  }

  /** What Atoi returns, case by case: the nearest int64 bound with an error
      once the leading digits overflow 64 bits, 0 with an error for any other
      text that is not a decimal, and for a decimal its value without error
      when it fits in int64, else the nearest bound with an error. */
  lemma AtoiMeaning(s: string)
    ensures Overflows(s) ==> Atoi(s) == AtoiResult(if Negative(s) then MinInt64 else MaxInt64, false)
    ensures !Overflows(s) && !IsDecimal(s) ==> Atoi(s) == AtoiResult(0, false)
    ensures IsDecimal(s) ==> (Atoi(s).ok <==> MinInt64 <= SignedValue(s) <= MaxInt64)
    ensures IsDecimal(s) && Atoi(s).ok ==> Atoi(s).value == SignedValue(s)
    ensures IsDecimal(s) && SignedValue(s) > MaxInt64 ==> Atoi(s) == AtoiResult(MaxInt64, false)
    ensures IsDecimal(s) && SignedValue(s) < MinInt64 ==> Atoi(s) == AtoiResult(MinInt64, false)
  {
    DecimalDigits(s);
    var body := Body(s);
    assert [] + body == body;
    ParseDigitsMeaning([], body);
    assert LeadingDigits(s) == Lead(body);
    if |LeadingDigits(s)| == |body| {
      assert LeadingDigits(s) == body[..|body|] == body;
    }
  }

  /** Once the leading digits exceed 2^64 - 1, what follows them does not
      matter: "99999999999999999999x" gives MaxInt64 with an error, and with
      a leading '-' MinInt64. */
  lemma AtoiOverflowIgnoresRest(digits: string, rest: string)
    requires AllDigits(digits) && DigitsValue(digits) > MaxUint64
    requires rest == [] || !IsDigit(rest[0])
    ensures Atoi(digits + rest) == AtoiResult(MaxInt64, false)
    ensures Atoi("-" + digits + rest) == AtoiResult(MinInt64, false)
  {
    assert digits != [];
    AllDigitsIndex(digits, 0);
    var t := digits + rest;
    assert t[..|digits|] == digits;
    DigitRunUnique(t, |digits|);
    assert Body(t) == t;
    var n := "-" + digits + rest;
    assert n[1..] == t;
    assert Body(n) == t;
    AtoiMeaning(t);
    AtoiMeaning(n);
  }

  /** The decimal digits of n (strconv.Itoa for n >= 0). */
  function Decimal(n: nat): (s: string)
    ensures s != [] && AllDigits(s)
  {
    var d := [('0' as int + n % 10) as char];
    if n < 10 then d else Decimal(n / 10) + d
  }

  lemma {:induction false} DecimalValue(n: nat)
    ensures DigitsValue(Decimal(n)) == n
  {
    var d := [('0' as int + n % 10) as char];
    if n >= 10 {
      DecimalValue(n / 10);
      var s := Decimal(n / 10) + d;
      assert s[..|s| - 1] == Decimal(n / 10);
    } else {
      assert Decimal(n)[..0] == [];
    }
  }

  /** Atoi reads back what Decimal writes: a port number printed by docker
      is the number Atoi returns. */
  lemma AtoiDecimal(n: nat)
    requires n <= MaxInt64
    ensures Atoi(Decimal(n)) == AtoiResult(n, true)
  {
    DecimalValue(n);
    var s := Decimal(n);
    assert s[0] != '+' && s[0] != '-' by {
      AllDigitsIndex(s, 0);
    }
    assert Body(s) == s;
    AtoiMeaning(s);
  }

  // ---------------------------------------------------------------------
  // GetHostPorts
  // ---------------------------------------------------------------------

  datatype DockerPort = DockerPort(hostIp: string, hostPort: string)

  /** What `docker inspect --format '{{json .NetworkSettings.Ports}}'` and the decoding gave. */
  datatype PortsInspect = PortsInspectFailed | PortsJsonInvalid | PortsJson(ports: map<string, seq<DockerPort>>)

  /** The numbers for one key's bindings, in order; a non-numeric port is 0. */
  function BindingPorts(bindings: seq<DockerPort>): (r: seq<int>)
    ensures |r| == |bindings|
  {
    if bindings == [] then []
    else BindingPorts(bindings[..|bindings| - 1]) + [Atoi(bindings[|bindings| - 1].hostPort).value]
  }

  /** The i-th number is Atoi's value for the i-th binding's host port. */
  lemma {:induction false} BindingPortsAt(bindings: seq<DockerPort>, i: int)
    requires 0 <= i < |bindings|
    ensures BindingPorts(bindings)[i] == Atoi(bindings[i].hostPort).value
  {
    var init := bindings[..|bindings| - 1];
    if i < |init| {
      BindingPortsAt(init, i);
      assert init[i] == bindings[i];
    }
  }

  /** One step of a Go map range: a key and its value. */
  type Entry = (string, seq<DockerPort>)

  /** The ports collected when the map entries are visited in the given order. */
  function PortsInOrder(entries: seq<Entry>): seq<int> {
    if entries == [] then []
    else PortsInOrder(entries[..|entries| - 1]) + BindingPorts(entries[|entries| - 1].1)
  }

  /** The sum of the binding-list lengths. */
  function BindingCount(entries: seq<Entry>): nat {
    if entries == [] then 0 else BindingCount(entries[..|entries| - 1]) + |entries[|entries| - 1].1|
  }

  /** A Go map range: every entry of the map once, in some order. */
  ghost predicate IsIterationOrder(entries: seq<Entry>, ports: map<string, seq<DockerPort>>) {
    && (forall i :: 0 <= i < |entries| ==> entries[i].0 in ports && ports[entries[i].0] == entries[i].1)
    && (forall k :: k in ports ==> exists i :: 0 <= i < |entries| && entries[i].0 == k)
    && (forall i, j :: 0 <= i < j < |entries| ==> entries[i].0 != entries[j].0)
  }

  /** GetHostPorts (util/docker.go:59-80) for one iteration order of the map. */
  function HostPorts(inspect: PortsInspect, entries: seq<Entry>): (r: Result<seq<int>, DockerError>)
    ensures inspect.PortsInspectFailed? ==> r == Failure(CouldNotRunInspect)
    ensures inspect.PortsJsonInvalid? ==> r == Failure(CouldNotParseJson)
    ensures inspect.PortsJson? ==> r.Success?
  {
    match inspect
    case PortsInspectFailed => Failure(CouldNotRunInspect)
    case PortsJsonInvalid => Failure(CouldNotParseJson)
    case PortsJson(_) => Success(PortsInOrder(entries))
  }

  /** The inner loop of GetHostPorts (util/docker.go:73-76). */
  method BindingPortsOf(bindings: seq<DockerPort>) returns (result: seq<int>)
    ensures result == BindingPorts(bindings)
  {
    result := [];
    var j := 0;
    while j < |bindings|
      invariant 0 <= j <= |bindings|
      invariant result == BindingPorts(bindings[..j])
    {
      assert bindings[..j + 1][..j] == bindings[..j];
      var tmp := Atoi(bindings[j].hostPort).value;
      result := result + [tmp];
      j := j + 1;
    }
    assert bindings[..j] == bindings;
  }

  /** GetHostPorts, with the order in which the map is ranged over as a parameter. */
  method GetHostPorts(inspect: PortsInspect, entries: seq<Entry>) returns (r: Result<seq<int>, DockerError>)
    requires inspect.PortsJson? ==> IsIterationOrder(entries, inspect.ports)
    ensures r == HostPorts(inspect, entries)
  {
    if inspect.PortsInspectFailed? {
      return Failure(CouldNotRunInspect);
    }
    if inspect.PortsJsonInvalid? {
      return Failure(CouldNotParseJson);
    }
    var result: seq<int> := [];
    var k := 0;
    while k < |entries|
      invariant 0 <= k <= |entries|
      invariant result == PortsInOrder(entries[..k])
    {
      assert entries[..k + 1][..k] == entries[..k];
      var inner := BindingPortsOf(entries[k].1);
      result := result + inner;
      k := k + 1;
    }
    assert entries[..k] == entries;
    return Success(result);
  }

  lemma PortsInOrderSingle(e: Entry)
    ensures PortsInOrder([e]) == BindingPorts(e.1)
  {
    assert [e][..0] == [];
  }

  lemma {:induction false} PortsInOrderAppend(a: seq<Entry>, b: seq<Entry>)
    ensures PortsInOrder(a + b) == PortsInOrder(a) + PortsInOrder(b)
    decreases |b|
  {
    if b != [] {
      var init, last := b[..|b| - 1], b[|b| - 1];
      PortsInOrderAppend(a, init);
      assert (a + b)[..|a + b| - 1] == a + init && (a + b)[|a + b| - 1] == last;
    } else {
      assert a + b == a;
    }
  }

  /** One number per binding: the count is the sum of the list lengths. */
  lemma {:induction false} PortsCount(entries: seq<Entry>)
    ensures |PortsInOrder(entries)| == BindingCount(entries)
  {
    if entries != [] {
      PortsCount(entries[..|entries| - 1]);
    }
  }

  /** Taking one entry out of the visiting order takes out exactly its bindings. */
  lemma PortsRemoveOne(entries: seq<Entry>, j: int)
    requires 0 <= j < |entries|
    ensures multiset(PortsInOrder(entries))
         == multiset(PortsInOrder(entries[..j] + entries[j + 1..])) + multiset(BindingPorts(entries[j].1))
  {
    var head, e, tail := entries[..j], entries[j], entries[j + 1..];
    assert entries == head + ([e] + tail);
    var h, p, t := PortsInOrder(head), BindingPorts(e.1), PortsInOrder(tail);
    PortsInOrderSingle(e);
    PortsInOrderAppend([e], tail);
    PortsInOrderAppend(head, [e] + tail);
    PortsInOrderAppend(head, tail);
    assert multiset(h + (p + t)) == multiset(h + t) + multiset(p);
  }

  /** Reordering the entries permutes the result and changes nothing else. */
  lemma {:induction false} PortsPermutation(o1: seq<Entry>, o2: seq<Entry>)
    requires multiset(o1) == multiset(o2)
    ensures multiset(PortsInOrder(o1)) == multiset(PortsInOrder(o2))
    decreases |o1|
  {
    if o1 != [] {
      var last := o1[|o1| - 1];
      var init := o1[..|o1| - 1];
      assert o1 == init + [last];
      assert last in multiset(o2);
      var j :| 0 <= j < |o2| && o2[j] == last;
      var rest := o2[..j] + o2[j + 1..];
      assert o2 == o2[..j] + [last] + o2[j + 1..];
      assert multiset(init) == multiset(o1) - multiset{last};
      assert multiset(rest) == multiset(o2) - multiset{last};
      PortsRemoveOne(o2, j);
      PortsPermutation(init, rest);
    } else {
      assert |o2| == |multiset(o2)| == 0;
    }
  }

  /** In a range over a map every entry of the map occurs exactly once. */
  lemma {:induction false} IterationMultiplicity(entries: seq<Entry>, ports: map<string, seq<DockerPort>>, x: Entry)
    requires forall i :: 0 <= i < |entries| ==> entries[i].0 in ports && ports[entries[i].0] == entries[i].1
    requires forall i, j :: 0 <= i < j < |entries| ==> entries[i].0 != entries[j].0
    ensures multiset(entries)[x] == if x in entries then 1 else 0
  {
    if entries != [] {
      var init := entries[..|entries| - 1];
      assert entries == init + [entries[|entries| - 1]];
      IterationMultiplicity(init, ports, x);
      if x == entries[|entries| - 1] {
        assert x !in init;
      }
    }
  }

  lemma EntryInIteration(entries: seq<Entry>, ports: map<string, seq<DockerPort>>, x: Entry)
    requires IsIterationOrder(entries, ports)
    ensures x in entries <==> x.0 in ports && ports[x.0] == x.1
  {
    if x.0 in ports && ports[x.0] == x.1 {
      var i :| 0 <= i < |entries| && entries[i].0 == x.0;
      assert entries[i] == x;
    }
  }

  /** The order in which Go happens to range over the map does not change
      which numbers GetHostPorts returns, nor how many times each. */
  lemma HostPortsOrderIrrelevant(inspect: PortsInspect, o1: seq<Entry>, o2: seq<Entry>)
    requires inspect.PortsJson?
    requires IsIterationOrder(o1, inspect.ports) && IsIterationOrder(o2, inspect.ports)
    ensures multiset(HostPorts(inspect, o1).value) == multiset(HostPorts(inspect, o2).value)
  {
    forall x ensures multiset(o1)[x] == multiset(o2)[x] {
      IterationMultiplicity(o1, inspect.ports, x);
      IterationMultiplicity(o2, inspect.ports, x);
      EntryInIteration(o1, inspect.ports, x);
      EntryInIteration(o2, inspect.ports, x);
    }
    assert multiset(o1) == multiset(o2);
    PortsPermutation(o1, o2);
  }

  /** The total number of ports is the number of bindings in the map, whatever the order. */
  lemma HostPortsCount(inspect: PortsInspect, entries: seq<Entry>)
    requires inspect.PortsJson?
    ensures |HostPorts(inspect, entries).value| == BindingCount(entries)
  {
    PortsCount(entries);
  }
}
