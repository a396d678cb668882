/** Input validation at start-up: the integer guards of `parse_arguments` and the address
    pattern of `validate_ip` (bitaxe_status_logger.py). */
module Arguments {
  import opened Common
  import opened Settings
  import opened Sweep

  predicate IsDigit(c: char) {
    '0' <= c <= '9'
  }

  /** `\d{1,3}`: one to three digits. */
  predicate IsGroup(g: string) {
    1 <= |g| <= 3 && forall i :: 0 <= i < |g| ==> IsDigit(g[i])
  }

  /** Four strings joined by dots. */
  function Join(a: string, b: string, c: string, d: string): string {
    a + ("." + (b + ("." + (c + ("." + d)))))
  }

  /** `\d{1,3}\.\d{1,3}\.\d{1,3}\.\d{1,3}`: four digit groups joined by dots (no octet range). */
  ghost predicate IsDottedQuad(s: string) {
    exists a, b, c, d :: IsGroup(a) && IsGroup(b) && IsGroup(c) && IsGroup(d) && s == Join(a, b, c, d)
  }

  /** `re.match("^...$", s)`: the whole string is a dotted quad, where `$` also matches just
      before one final newline. */
  ghost predicate MatchesIpPattern(s: string) {
    || IsDottedQuad(s)
    || (|s| > 0 && s[|s| - 1] == '\n' && IsDottedQuad(s[..|s| - 1]))
  }

  /** A left-to-right matcher for the pattern: `groups` dots seen so far and `digits` digits in
      the current group. */
  function Scan(s: string, groups: nat, digits: nat): bool
    decreases |s|
  {
    if s == [] then groups == 3 && 1 <= digits
    else if IsDigit(s[0]) then digits < 3 && Scan(s[1..], groups, digits + 1)
    else if s[0] == '.' then 1 <= digits && groups < 3 && Scan(s[1..], groups + 1, 0)
    else false
  }

  lemma {:induction false} ScanDigits(g: string, rest: string, groups: nat, digits: nat)
    requires forall i :: 0 <= i < |g| ==> IsDigit(g[i])
    requires digits + |g| <= 3
    ensures Scan(g + rest, groups, digits) == Scan(rest, groups, digits + |g|)
    decreases |g|
  {
    if g == [] {
      assert g + rest == rest;
    } else {
      assert (g + rest)[0] == g[0];
      assert (g + rest)[1..] == g[1..] + rest;
      ScanDigits(g[1..], rest, groups, digits + 1);
    }
  }

  lemma ScanDot(rest: string, groups: nat, digits: nat)
    ensures Scan("." + rest, groups, digits) == (1 <= digits && groups < 3 && Scan(rest, groups + 1, 0))
  {
    assert ("." + rest)[0] == '.';
    assert ("." + rest)[1..] == rest;
  }

  /** Every dotted quad is accepted by the matcher. */
  lemma ScanComplete(a: string, b: string, c: string, d: string)
    requires IsGroup(a) && IsGroup(b) && IsGroup(c) && IsGroup(d)
    ensures Scan(Join(a, b, c, d), 0, 0)
  {
    var r3 := "." + d;
    var r2 := "." + (c + r3);
    var r1 := "." + (b + r2);
    ScanDigits(a, r1, 0, 0);
    ScanDot(b + r2, 0, |a|);
    ScanDigits(b, r2, 1, 0);
    ScanDot(c + r3, 1, |b|);
    ScanDigits(c, r3, 2, 0);
    ScanDot(d, 2, |c|);
    assert d == d + [];
    ScanDigits(d, [], 3, 0);
  }

  /** What an accepting run of the matcher consumes for one group: `n` digits, then either the
      end of the input (in the last group) or a dot and the rest of the input. */
  lemma {:induction false} ScanGroup(s: string, groups: nat, digits: nat) returns (n: nat)
    requires digits <= 3 && Scan(s, groups, digits)
    ensures n <= |s| && digits + n <= 3
    ensures forall i :: 0 <= i < n ==> IsDigit(s[i])
    ensures n == |s| ==> groups == 3 && 1 <= digits + n
    ensures n < |s| ==> s[n] == '.' && 1 <= digits + n && groups < 3 && Scan(s[n + 1..], groups + 1, 0)
    decreases |s|
  {
    if s == [] {
      n := 0;
    } else if IsDigit(s[0]) {
      var m := ScanGroup(s[1..], groups, digits + 1);
      n := m + 1;
      if n < |s| {
        assert s[n + 1..] == s[1..][m + 1..];
      }
    } else {
      n := 0;
    }
  }

  /** An accepting run from the start of a group that is not the last: a group, a dot, and
      an accepting run from the start of the next group. */
  lemma ScanInnerGroup(s: string, groups: nat) returns (g: string, rest: string)
    requires groups < 3 && Scan(s, groups, 0)
    ensures IsGroup(g) && s == g + ("." + rest) && Scan(rest, groups + 1, 0)
  {
    var n := ScanGroup(s, groups, 0);
    g, rest := s[..n], s[n + 1..];
    assert s == s[..n] + ("." + s[n + 1..]);
  }

  /** An accepting run from the start of the last group: the rest is one group. */
  lemma ScanLastGroup(s: string)
    requires Scan(s, 3, 0)
    ensures IsGroup(s)
  {
    var n := ScanGroup(s, 3, 0);
    assert s[..n] == s;
  }

  /** Every input the matcher accepts is a dotted quad. */
  lemma ScanSound(s: string)
    requires Scan(s, 0, 0)
    ensures IsDottedQuad(s)
  {
    var a, s1 := ScanInnerGroup(s, 0);
    var b, s2 := ScanInnerGroup(s1, 1);
    var c, d := ScanInnerGroup(s2, 2);
    ScanLastGroup(d);
    assert s == Join(a, b, c, d);
  }

  /** The matcher decides exactly the pattern. */
  lemma ScanCorrect(s: string)
    ensures Scan(s, 0, 0) <==> IsDottedQuad(s)
  {
    if Scan(s, 0, 0) {
      ScanSound(s);
    }
    if IsDottedQuad(s) {
      var a, b, c, d :| IsGroup(a) && IsGroup(b) && IsGroup(c) && IsGroup(d)
        && s == Join(a, b, c, d);
      ScanComplete(a, b, c, d);
    }
  }

  /** The pattern, decided by the matcher on the whole string or on it without a final newline. */
  lemma MatchesIpPatternScan(ip: string)
    ensures MatchesIpPattern(ip) <==>
      Scan(ip, 0, 0) || (|ip| > 0 && ip[|ip| - 1] == '\n' && Scan(ip[..|ip| - 1], 0, 0))
  {
    ScanCorrect(ip);
    if |ip| > 0 {
      ScanCorrect(ip[..|ip| - 1]);
    }
  }

  /** Why start-up stops: `parser.error` for a failed guard, or the `ValueError` of
      `validate_ip`. */
  datatype ArgError = UsageError(message: string) | InvalidIp(message: string)

  const InvalidIpMessage: string := "Invalid IP address format. Use format like 192.168.2.205"

  /** `validate_ip`: the base URL `http://<ip>` when the address matches the pattern. */
  function ValidateIp(ip: string): (r: Result<string, ArgError>)
    ensures r.Ok? <==> MatchesIpPattern(ip)
    ensures r.Ok? ==> r.value == "http://" + ip
    ensures r.Err? ==> r.error == InvalidIp(InvalidIpMessage)
  {
    MatchesIpPatternScan(ip);
    if Scan(ip, 0, 0) || (|ip| > 0 && ip[|ip| - 1] == '\n' && Scan(ip[..|ip| - 1], 0, 0)) then
      Ok("http://" + ip)
    else
      Err(InvalidIp(InvalidIpMessage))
  }

  /** The documented address is accepted. */
  lemma ValidateIpDocumented()
    ensures var ip := "192.168.2.205"; ValidateIp(ip) == Ok("http://" + ip)
  {
    assert IsGroup("192") && IsGroup("168") && IsGroup("2") && IsGroup("205");
    assert "192.168.2.205" == Join("192", "168", "2", "205");
    assert IsDottedQuad("192.168.2.205");
  }

  /** Groups are not range-checked: 999.999.999.999 is accepted. */
  lemma ValidateIpNoOctetRange()
    ensures ValidateIp("999.999.999.999").Ok?
  {
    assert IsGroup("999");
    assert "999.999.999.999" == Join("999", "999", "999", "999");
  }

  /** The `$` rule lets one trailing newline through, and it stays in the URL. */
  lemma ValidateIpTrailingNewline()
    ensures var ip := "10.0.0.1\n"; ValidateIp(ip) == Ok("http://" + ip)
  {
    var s := "10.0.0.1\n";
    assert IsGroup("10") && IsGroup("0") && IsGroup("1");
    assert s[..|s| - 1] == "10.0.0.1" == Join("10", "0", "0", "1");
    assert IsDottedQuad(s[..|s| - 1]);
  }

  /** Three groups are not enough. */
  lemma ValidateIpThreeGroups()
    ensures ValidateIp("1.2.3") == Err(InvalidIp(InvalidIpMessage))
  {
    var s := "1.2.3";
    assert s[1..] == ".2.3" && s[1..][1..] == "2.3" && s[1..][1..][1..] == ".3";
    assert s[1..][1..][1..][1..] == "3" && s[1..][1..][1..][1..][1..] == "";
    assert !Scan(s, 0, 0);
    ScanCorrect(s);
    assert s[|s| - 1] != '\n';
  }

  /** The command line after argparse's type conversion (`-reboot` is optional). */
  datatype Args = Args(
    coreVoltage: int, frequency: int, ipAddress: string, range: int, step: int,
    reboot: Option<int>, monitor: bool)

  /** The validated configuration `parse_arguments` returns. */
  datatype Config = Config(
    coreVoltage: int, frequency: int, baseUrl: string, range: int, step: int,
    rebootThreshold: Option<int>, monitor: bool)

  predicate ValidConfig(c: Config) {
    && c.coreVoltage >= MinCoreVoltage && c.frequency >= MinFrequency
    && c.range >= 0 && c.step > 0
    && (c.rebootThreshold.Some? ==> c.rebootThreshold.value >= 1)
  }

  const VoltageMessage: string := "Voltage must be at least 1000 mV"
  const FrequencyMessage: string := "Frequency must be at least 400 MHz"
  const RangeMessage: string := "Range must be non-negative"
  const StepMessage: string := "Step must be positive"
  const RebootMessage: string := "Reboot threshold must be positive"

  /** The guards of `parse_arguments`, checked in order, then `validate_ip`. */
  function ParseArguments(a: Args): (r: Result<Config, ArgError>)
    ensures r.Ok? <==>
      && a.coreVoltage >= MinCoreVoltage && a.frequency >= MinFrequency && a.range >= 0 && a.step > 0
      && (a.reboot.Some? ==> a.reboot.value > 0) && MatchesIpPattern(a.ipAddress)
    ensures r.Ok? ==> (ValidConfig(r.value)
      && r.value == Config(a.coreVoltage, a.frequency, "http://" + a.ipAddress, a.range, a.step, a.reboot, a.monitor))
    ensures a.coreVoltage < MinCoreVoltage ==> r == Err(UsageError(VoltageMessage))
    ensures a.coreVoltage >= MinCoreVoltage && a.frequency < MinFrequency ==> r == Err(UsageError(FrequencyMessage))
    ensures a.coreVoltage >= MinCoreVoltage && a.frequency >= MinFrequency && a.range < 0
            ==> r == Err(UsageError(RangeMessage))
    ensures a.coreVoltage >= MinCoreVoltage && a.frequency >= MinFrequency && a.range >= 0 && a.step <= 0
            ==> r == Err(UsageError(StepMessage))
    ensures (a.coreVoltage >= MinCoreVoltage && a.frequency >= MinFrequency && a.range >= 0 && a.step > 0
             && a.reboot.Some? && a.reboot.value <= 0) ==> r == Err(UsageError(RebootMessage))
    ensures (a.coreVoltage >= MinCoreVoltage && a.frequency >= MinFrequency && a.range >= 0 && a.step > 0
             && (a.reboot.Some? ==> a.reboot.value > 0) && !MatchesIpPattern(a.ipAddress))
            ==> r == Err(InvalidIp(InvalidIpMessage))
  {
    if a.coreVoltage < MinCoreVoltage then Err(UsageError(VoltageMessage))
    else if a.frequency < MinFrequency then Err(UsageError(FrequencyMessage))
    else if a.range < 0 then Err(UsageError(RangeMessage))
    else if a.step <= 0 then Err(UsageError(StepMessage))
    else if a.reboot.Some? && a.reboot.value <= 0 then Err(UsageError(RebootMessage))
    else match ValidateIp(a.ipAddress)
      case Ok(url) => Ok(Config(a.coreVoltage, a.frequency, url, a.range, a.step, a.reboot, a.monitor))
      case Err(e) => Err(e)
  }

  /** Every accepted command line yields a sweep with at least one candidate, exactly
      `total_tests` of them, the first being the start frequency. */
  lemma AcceptedConfigSweeps(a: Args)
    requires ParseArguments(a).Ok?
    ensures var c := ParseArguments(a).value;
      && |Candidates(c.frequency, c.range, c.step)| == TotalTests(c.frequency, c.range, c.step, false) >= 1
      && Candidates(c.frequency, c.range, c.step)[0] == StartFrequency(c.frequency, c.range, false)
  {
    var c := ParseArguments(a).value;
    CandidatesCount(c.frequency, c.range, c.step);
    CandidateAt(c.frequency, c.range, c.step, 0);
  }
}
