/**
 * The statistics viewer's reading of `psp_drp.ini`: the companion address
 * as four dotted octets, the port, and the two switches.  Rust's `trim` and
 * `lines` are taken on single bytes.
 */
module StatsConfig {
  import opened Common
  import StatsApp

  /** `str::trim`: leading and trailing whitespace removed. */
  function Trim(s: seq<CChar>): (r: seq<CChar>)
    ensures |r| <= |s|
    ensures r == [] || (!StatsApp.IsWhite(r[0]) && !StatsApp.IsWhite(r[|r| - 1]))
  {
    StatsApp.TrimEnd(StatsApp.TrimStart(s))
  }

  /** The pieces of `s` between the separators, as `split` yields them (at least one). */
  function Split(s: seq<CChar>, sep: CChar): (r: seq<seq<CChar>>)
    ensures |r| >= 1
  {
    if s == [] then [[]]
    else
      var t := Split(s[..|s| - 1], sep);
      if s[|s| - 1] == sep then t + [[]]
      else t[..|t| - 1] + [t[|t| - 1] + [s[|s| - 1]]]
  }

  // ---------------------------------------------------------------------
  // Addresses
  // ---------------------------------------------------------------------

  const DOT: seq<CChar> := "."
  const PLUS: seq<CChar> := "+"

  predicate AllDigits(f: seq<CChar>)
  {
    forall i :: 0 <= i < |f| ==> IsDigit(f[i])
  }

  /** A field of an address: one or more decimal digits worth at most 255. */
  predicate Octet(f: seq<CChar>)
  {
    f != [] && AllDigits(f) && DecimalValue(f) <= 255
  }

  /** The byte an octet's digits stand for. */
  function OctetValue(f: seq<CChar>): (b: Byte)
    requires Octet(f)
    ensures b == DecimalValue(f)
  {
    DecimalValue(f)
  }

  /** The address `s` names: exactly four dot-separated octets once trimmed, and nothing else. */
  function IpOf(s: seq<CChar>): (r: Option<seq<Byte>>)
    ensures r.Some? ==> |r.value| == 4
  {
    var f := Split(Trim(s), '.');
    if |f| == 4 && Octet(f[0]) && Octet(f[1]) && Octet(f[2]) && Octet(f[3]) then
      Some([OctetValue(f[0]), OctetValue(f[1]), OctetValue(f[2]), OctetValue(f[3])])
    else None
  }

  /** `a` is `b` so far: `b`'s fields continue `a`'s, the last one perhaps longer. */
  predicate Extends(a: seq<seq<CChar>>, b: seq<seq<CChar>>)
  {
    0 < |a| <= |b| && (forall k :: 0 <= k < |a| - 1 ==> b[k] == a[k]) && a[|a| - 1] <= b[|a| - 1]
  }

  lemma {:induction false} SplitExtends(s: seq<CChar>, i: nat, sep: CChar)
    requires i <= |s|
    ensures Extends(Split(s[..i], sep), Split(s, sep))
    decreases |s| - i
  {
    if i < |s| {
      SplitExtends(s, i + 1, sep);
      var a, b, c := Split(s[..i], sep), Split(s[..i + 1], sep), Split(s, sep);
      assert s[..i + 1][..i] == s[..i];
      assert Extends(a, b);
      forall k | 0 <= k < |a| - 1 ensures c[k] == a[k] {
        assert b[k] == a[k];
      }
      if |a| < |b| {
        assert a[|a| - 1] == b[|a| - 1];
      }
    } else {
      assert s[..i] == s;
    }
  }

  lemma {:induction false} DecimalGrows(p: seq<CChar>, q: seq<CChar>)
    requires AllDigits(p + q)
    ensures AllDigits(p) && DecimalValue(p + q) >= DecimalValue(p)
  {
    assert forall i :: 0 <= i < |p| ==> p[i] == (p + q)[i];
    if q != [] {
      var q' := q[..|q| - 1];
      assert (p + q)[..|p + q| - 1] == p + q';
      assert AllDigits(p + q') by {
        forall i | 0 <= i < |p + q'| ensures IsDigit((p + q')[i]) {
          assert (p + q')[i] == (p + q)[i];
        }
      }
      DecimalGrows(p, q');
    } else {
      assert p + q == p;
    }
  }

  /** A field that starts with `p` is no octet when `p` is not the start of one. */
  lemma NotOctet(p: seq<CChar>, f: seq<CChar>)
    requires p <= f
    requires !AllDigits(p) || DecimalValue(p) > 255
    ensures !Octet(f)
  {
    var q := f[|p|..];
    assert f == p + q;
    if AllDigits(f) {
      DecimalGrows(p, q);
    }
  }

  /**
   * What the loop of `parse_ip` knows after reading a prefix split into
   * `fields`: the finished octets are in `parts`, and the field being read
   * is digits worth `current`, at most 255.
   */
  predicate Scanned(fields: seq<seq<CChar>>, parts: seq<Byte>, partIdx: nat, current: nat, hasDigits: bool)
  {
    |parts| == 4 && partIdx <= 3 && |fields| == partIdx + 1
    && (forall k :: 0 <= k < partIdx ==> Octet(fields[k]) && parts[k] == DecimalValue(fields[k]))
    && AllDigits(fields[partIdx]) && current == DecimalValue(fields[partIdx]) && current <= 255
    && (hasDigits <==> fields[partIdx] != [])
  }

  lemma SplitSnoc(t: seq<CChar>, i: nat, sep: CChar)
    requires i < |t|
    ensures var a, b := Split(t[..i], sep), Split(t[..i + 1], sep);
      if t[i] == sep then b == a + [[]] else b == a[..|a| - 1] + [a[|a| - 1] + [t[i]]]
  {
    assert t[..i + 1][..i] == t[..i];
  }

  lemma DigitStep(t: seq<CChar>, i: nat, parts: seq<Byte>, partIdx: nat, current: nat, hasDigits: bool)
    requires i < |t| && IsDigit(t[i]) && current * 10 + DigitValue(t[i]) <= 255
    requires Scanned(Split(t[..i], '.'), parts, partIdx, current, hasDigits)
    ensures Scanned(Split(t[..i + 1], '.'), parts, partIdx, current * 10 + DigitValue(t[i]), true)
  {
    SplitSnoc(t, i, '.');
    var a, b := Split(t[..i], '.'), Split(t[..i + 1], '.');
    assert t[i] != '.' && |a| - 1 == partIdx;
    var f := a[partIdx] + [t[i]];
    DigitAppend(a[partIdx], t[i]);
    ScannedLast(a, b, parts, partIdx, current, hasDigits, f);
  }

  /** The field being read replaced by a longer run of digits still worth at most 255. */
  lemma ScannedLast(a: seq<seq<CChar>>, b: seq<seq<CChar>>, parts: seq<Byte>, partIdx: nat, current: nat, hasDigits: bool,
                    f: seq<CChar>)
    requires Scanned(a, parts, partIdx, current, hasDigits)
    requires b == a[..partIdx] + [f]
    requires f != [] && AllDigits(f) && DecimalValue(f) <= 255
    ensures Scanned(b, parts, partIdx, DecimalValue(f), true)
  {
    assert forall k :: 0 <= k < partIdx ==> b[k] == a[k];
  }

  /** A digit appended to a run of digits: ten times the value, plus the digit. */
  lemma DigitAppend(p: seq<CChar>, c: CChar)
    requires AllDigits(p) && IsDigit(c)
    ensures AllDigits(p + [c]) && DecimalValue(p + [c]) == DecimalValue(p) * 10 + DigitValue(c)
  {
    var f := p + [c];
    assert f[..|f| - 1] == p && f[|f| - 1] == c;
  }

  lemma DotStep(t: seq<CChar>, i: nat, parts: seq<Byte>, partIdx: nat, current: nat)
    requires i < |t| && t[i] == '.' && partIdx < 3
    requires Scanned(Split(t[..i], '.'), parts, partIdx, current, true)
    ensures Scanned(Split(t[..i + 1], '.'), parts[partIdx := current], partIdx + 1, 0, false)
  {
    SplitSnoc(t, i, '.');
  }

  /** The loop gives up: the prefix read so far cannot start an address. */
  lemma Rejected(s: seq<CChar>, i: nat, parts: seq<Byte>, partIdx: nat, current: nat, hasDigits: bool)
    requires i < |Trim(s)|
    requires Scanned(Split(Trim(s)[..i], '.'), parts, partIdx, current, hasDigits)
    requires var c := Trim(s)[i];
      (IsDigit(c) && current * 10 + DigitValue(c) > 255)
      || (c == '.' && (!hasDigits || partIdx >= 3))
      || (!IsDigit(c) && c != '.')
    ensures IpOf(s) == None
  {
    var t := Trim(s);
    SplitSnoc(t, i, '.');
    SplitExtends(t, i + 1, '.');
    var before, after, all := Split(t[..i], '.'), Split(t[..i + 1], '.'), Split(t, '.');
    var c := t[i];
    if c == '.' {
      if partIdx < 3 {
        assert after[partIdx] == all[partIdx];
      }
    } else {
      var f := after[partIdx];
      assert f == before[partIdx] + [c];
      FieldRejected(before[partIdx], c, current);
      NotOctet(f, all[partIdx]);
    }
    NoAddress(s, partIdx);
  }

  /** Without four fields, or with field `k` no octet, the text names no address. */
  lemma NoAddress(s: seq<CChar>, k: nat)
    requires k < 4
    requires var f := Split(Trim(s), '.'); |f| != 4 || !Octet(f[k])
    ensures IpOf(s) == None
  {
  }

  /** A field that goes past 255 or takes a character other than a digit is no octet's start. */
  lemma FieldRejected(p: seq<CChar>, c: CChar, current: nat)
    requires AllDigits(p) && current == DecimalValue(p)
    requires IsDigit(c) ==> current * 10 + DigitValue(c) > 255
    ensures !AllDigits(p + [c]) || DecimalValue(p + [c]) > 255
  {
    var f := p + [c];
    assert f[|f| - 1] == c;
    if IsDigit(c) {
      assert f[..|f| - 1] == p;
    }
  }

  /** The loop has read everything: the last field decides. */
  lemma Finished(s: seq<CChar>, parts: seq<Byte>, partIdx: nat, current: nat, hasDigits: bool)
    requires Scanned(Split(Trim(s), '.'), parts, partIdx, current, hasDigits)
    ensures !hasDigits || partIdx != 3 ==> IpOf(s) == None
    ensures hasDigits && partIdx == 3 ==> IpOf(s) == Some(parts[3 := current])
  {
    if hasDigits && partIdx == 3 {
      assert parts[3 := current] == [parts[0], parts[1], parts[2], current];
    }
  }

  /**
   * `parse_ip`: the character loop that collects the octets into a
   * four-byte buffer, giving up at the first character that cannot belong
   * to an address.
   */
  method ParseIp(s: seq<CChar>) returns (r: Option<seq<Byte>>)
    ensures r == IpOf(s)
  {
    var t := Trim(s);
    if t == [] {
      return None;
    }
    var parts := new Byte[4](_ => 0);
    var partIdx: nat := 0;
    var current: nat := 0;
    var hasDigits := false;
    for i := 0 to |t|
      invariant Scanned(Split(t[..i], '.'), parts[..], partIdx, current, hasDigits)
    {
      var stop;
      stop, partIdx, current, hasDigits := ScanChar(s, i, parts, partIdx, current, hasDigits);
      if stop {
        return None;
      }
    }
    assert t[..|t|] == t;
    Finished(s, parts[..], partIdx, current, hasDigits);
    if !hasDigits || partIdx != 3 {
      return None;
    }
    parts[3] := current;
    return Some(parts[..]);
  }

  /**
   * One step of `parse_ip`'s loop: the character at `i` of the trimmed text
   * extends the field being read, ends it at a dot, or stops the loop when
   * no address can start with what has been read.
   */
  method ScanChar(s: seq<CChar>, i: nat, parts: array<Byte>, partIdx: nat, current: nat, hasDigits: bool)
    returns (stop: bool, partIdx': nat, current': nat, hasDigits': bool)
    requires i < |Trim(s)| && parts.Length == 4
    requires Scanned(Split(Trim(s)[..i], '.'), parts[..], partIdx, current, hasDigits)
    modifies parts
    ensures stop ==> IpOf(s) == None
    ensures !stop ==> Scanned(Split(Trim(s)[..i + 1], '.'), parts[..], partIdx', current', hasDigits')
  {
    var t := Trim(s);
    var c := t[i];
    if IsDigit(c) {
      if current * 10 + DigitValue(c) > 255 {
        Rejected(s, i, parts[..], partIdx, current, hasDigits);
        return true, partIdx, current, hasDigits;
      }
      DigitStep(t, i, parts[..], partIdx, current, hasDigits);
      return false, partIdx, current * 10 + DigitValue(c), true;
    } else if c == '.' {
      if !hasDigits || partIdx >= 3 {
        Rejected(s, i, parts[..], partIdx, current, hasDigits);
        return true, partIdx, current, hasDigits;
      }
      DotStep(t, i, parts[..], partIdx, current);
      parts[partIdx] := current;
      return false, partIdx + 1, 0, false;
    } else {
      Rejected(s, i, parts[..], partIdx, current, hasDigits);
      return true, partIdx, current, hasDigits;
    }
  }

  lemma {:induction false} SplitWithout(s: seq<CChar>, sep: CChar)
    requires sep !in s
    ensures Split(s, sep) == [s]
  {
    if s != [] {
      var p := s[..|s| - 1];
      assert s == p + [s[|s| - 1]];
      assert sep !in p;
      SplitWithout(p, sep);
    }
  }

  lemma {:induction false} SplitJoin(p: seq<CChar>, q: seq<CChar>, sep: CChar)
    ensures Split(p + [sep] + q, sep) == Split(p, sep) + Split(q, sep)
    decreases |q|
  {
    var pre := p + [sep];
    if q == [] {
      assert pre + q == pre;
      SplitAppend(p, sep, sep);
    } else {
      var q', c := q[..|q| - 1], q[|q| - 1];
      assert q == q' + [c];
      ConcatAssoc(pre, q', [c]);
      SplitJoin(p, q', sep);
      SplitAppend(pre + q', c, sep);
      SplitAppend(q', c, sep);
      var a, u := Split(p, sep), Split(q', sep);
      if c == sep {
        ConcatAssoc(a, u, [[]]);
      } else {
        DropLast(a, u);
        ConcatAssoc(a, u[..|u| - 1], [u[|u| - 1] + [c]]);
      }
    }
  }

  /** Splitting text extended by one character. */
  lemma SplitAppend(s: seq<CChar>, c: CChar, sep: CChar)
    ensures var t := Split(s, sep);
      Split(s + [c], sep) == if c == sep then t + [[]] else t[..|t| - 1] + [t[|t| - 1] + [c]]
  {
    assert (s + [c])[..|s|] == s;
  }

  lemma DropLast<T>(a: seq<T>, u: seq<T>)
    requires u != []
    ensures (a + u)[..|a + u| - 1] == a + u[..|u| - 1] && (a + u)[|a + u| - 1] == u[|u| - 1]
  {
  }

  lemma FourFields(f0: seq<CChar>, f1: seq<CChar>, f2: seq<CChar>, f3: seq<CChar>)
    requires '.' !in f0 && '.' !in f1 && '.' !in f2 && '.' !in f3
    ensures Split(f0 + DOT + f1 + DOT + f2 + DOT + f3, '.') == [f0, f1, f2, f3]
  {
    SplitWithout(f0, '.');
    SplitWithout(f1, '.');
    SplitWithout(f2, '.');
    SplitWithout(f3, '.');
    SplitJoin(f0, f1, '.');
    SplitJoin(f0 + DOT + f1, f2, '.');
    SplitJoin(f0 + DOT + f1 + DOT + f2, f3, '.');
  }

  lemma DecimalOctet(n: Byte)
    ensures Octet(Decimal(n)) && DecimalValue(Decimal(n)) == n && '.' !in Decimal(n)
  {
  }

  /** An address written as `a.b.c.d` reads back as those four bytes. */
  lemma IpRoundTrip(a: Byte, b: Byte, c: Byte, d: Byte)
    ensures IpOf(Decimal(a) + DOT + Decimal(b) + DOT + Decimal(c) + DOT + Decimal(d)) == Some([a, b, c, d])
  {
    var da, db, dc, dd := Decimal(a), Decimal(b), Decimal(c), Decimal(d);
    var s := da + DOT + db + DOT + dc + DOT + dd;
    DecimalOctet(a);
    DecimalOctet(b);
    DecimalOctet(c);
    DecimalOctet(d);
    DottedOctets(da, db, dc, dd);
    IpOfFields(s, da, db, dc, dd, a, b, c, d);
  }

  /** Four octets joined by dots need no trimming and split back into themselves. */
  lemma DottedOctets(f0: seq<CChar>, f1: seq<CChar>, f2: seq<CChar>, f3: seq<CChar>)
    requires Octet(f0) && Octet(f1) && Octet(f2) && Octet(f3)
    ensures Split(Trim(f0 + DOT + f1 + DOT + f2 + DOT + f3), '.') == [f0, f1, f2, f3]
  {
    var s := f0 + DOT + f1 + DOT + f2 + DOT + f3;
    assert s[0] == f0[0] && s[|s| - 1] == f3[|f3| - 1];
    assert IsDigit(f0[0]) && IsDigit(f3[|f3| - 1]);
    TrimUntouched(s);
    DigitsHaveNoDot(f0);
    DigitsHaveNoDot(f1);
    DigitsHaveNoDot(f2);
    DigitsHaveNoDot(f3);
    FourFields(f0, f1, f2, f3);
  }

  /** Text that starts and ends with something other than whitespace is its own trim. */
  lemma TrimUntouched(s: seq<CChar>)
    requires s != [] && !StatsApp.IsWhite(s[0]) && !StatsApp.IsWhite(s[|s| - 1])
    ensures Trim(s) == s
  {
  }

  lemma DigitsHaveNoDot(f: seq<CChar>)
    requires AllDigits(f)
    ensures '.' !in f
  {
  }

  /** Four octet fields between the dots give the address they spell. */
  lemma IpOfFields(s: seq<CChar>, f0: seq<CChar>, f1: seq<CChar>, f2: seq<CChar>, f3: seq<CChar>,
                   a: Byte, b: Byte, c: Byte, d: Byte)
    requires Split(Trim(s), '.') == [f0, f1, f2, f3]
    requires Octet(f0) && Octet(f1) && Octet(f2) && Octet(f3)
    requires DecimalValue(f0) == a && DecimalValue(f1) == b && DecimalValue(f2) == c && DecimalValue(f3) == d
    ensures IpOf(s) == Some([a, b, c, d])
  {
  }

  /** A blank value names no address. */
  lemma BlankIp(s: seq<CChar>)
    requires forall i :: 0 <= i < |s| ==> StatsApp.IsWhite(s[i])
    ensures IpOf(s) == None
  {
    BlankTrims(s);
  }

  lemma {:induction false} BlankTrims(s: seq<CChar>)
    requires forall i :: 0 <= i < |s| ==> StatsApp.IsWhite(s[i])
    ensures StatsApp.TrimStart(s) == []
  {
    if s != [] {
      BlankTrims(s[1..]);
    }
  }

  // ---------------------------------------------------------------------
  // The configuration file
  // ---------------------------------------------------------------------

  datatype Config = Config(desktopIp: seq<Byte>, port: nat, hasIp: bool, offlineMode: bool, enableLogging: bool)

  /** The values used when the file is missing or says nothing. */
  const DEFAULT_CONFIG: Config := Config([192, 168, 1, 100], 9276, false, false, false)

  /** `str::parse::<u16>`: an optional `+`, then one or more digits worth less than 65536. */
  function ParseU16(v: seq<CChar>): (r: Option<nat>)
    ensures r.Some? ==> r.value < U16_LIMIT
  {
    var d := if v != [] && v[0] == '+' then v[1..] else v;
    if d != [] && AllDigits(d) && DecimalValue(d) < U16_LIMIT then Some(DecimalValue(d)) else None
  }

  /** A port written in decimal reads back unchanged. */
  lemma PortRoundTrip(p: nat)
    requires p < U16_LIMIT
    ensures ParseU16(Decimal(p)) == Some(p)
    ensures ParseU16(PLUS + Decimal(p)) == Some(p)
  {
    assert (PLUS + Decimal(p))[1..] == Decimal(p);
  }

  function ToLowerAscii(c: CChar): CChar
  {
    if 'A' <= c <= 'Z' then (c as int + 32) as char else c
  }

  /** `eq_ignore_ascii_case`. */
  predicate EqIgnoreAsciiCase(a: seq<CChar>, b: seq<CChar>)
  {
    |a| == |b| && forall i :: 0 <= i < |a| ==> ToLowerAscii(a[i]) == ToLowerAscii(b[i])
  }

  /** A switch is on for "1" or "true" in any letter case. */
  predicate Flag(v: seq<CChar>)
  {
    v == ONE || EqIgnoreAsciiCase(v, TRUE)
  }

  // The text the configuration file is read against.
  const EQUALS: seq<CChar> := "="
  const ONE: seq<CChar> := "1"
  const TRUE: seq<CChar> := "true"
  const DESKTOP_IP_KEY: seq<CChar> := "desktop_ip"
  const PORT_KEY: seq<CChar> := "port"
  const OFFLINE_MODE_KEY: seq<CChar> := "offline_mode"
  const ENABLE_LOGGING_KEY: seq<CChar> := "enable_logging"

  /** The key and value of a setting line; `None` for a blank line, a comment or a line without `=`. */
  function Setting(rawLine: seq<CChar>): (r: Option<(seq<CChar>, seq<CChar>)>)
  {
    var line := Trim(rawLine);
    if line == [] || line[0] == ';' then None
    else match IndexOf(line, EQUALS)
      case None => None
      case Some(eq) => Some((Trim(line[..eq]), Trim(line[eq + 1..])))
  }

  /** What one line does to the configuration. */
  function ApplyLine(config: Config, rawLine: seq<CChar>): Config
  {
    match Setting(rawLine)
    case None => config
    case Some((key, value)) => Assign(config, key, value)
  }

  /** What a setting does: a known key with a value it accepts changes its field. */
  function Assign(config: Config, key: seq<CChar>, value: seq<CChar>): Config
  {
    if key == DESKTOP_IP_KEY then
      (if IpOf(value).Some? then config.(desktopIp := IpOf(value).value, hasIp := true) else config)
    else if key == PORT_KEY then
      (if ParseU16(value).Some? then config.(port := ParseU16(value).value) else config)
    else if key == OFFLINE_MODE_KEY then config.(offlineMode := Flag(value))
    else if key == ENABLE_LOGGING_KEY then config.(enableLogging := Flag(value))
    else config
  }

  function ApplyLines(config: Config, lines: seq<seq<CChar>>): Config
  {
    if lines == [] then config else ApplyLine(ApplyLines(config, lines[..|lines| - 1]), lines[|lines| - 1])
  }

  /**
   * `load_config`: the defaults, then every line of the file in order;
   * `None` stands for a file that cannot be read or is not UTF-8.
   */
  method LoadConfig(content: Option<seq<CChar>>) returns (config: Config)
    ensures content.None? ==> config == DEFAULT_CONFIG
    ensures content.Some? ==> config == ApplyLines(DEFAULT_CONFIG, Split(content.value, '\n'))
  {
    config := DEFAULT_CONFIG;
    if content.None? {
      return;
    }
    var lines := Split(content.value, '\n');
    for n := 0 to |lines|
      invariant config == ApplyLines(DEFAULT_CONFIG, lines[..n])
    {
      assert lines[..n + 1][..n] == lines[..n];
      config := HandleLine(config, lines[n]);
    }
    assert lines[..|lines|] == lines;
  }

  /** The body of the loop of `load_config`: one line's setting, if any. */
  method HandleLine(config: Config, rawLine: seq<CChar>) returns (config': Config)
    ensures config' == ApplyLine(config, rawLine)
  {
    var line := Trim(rawLine);
    if line == [] || line[0] == ';' {
      SkippedLine(config, rawLine);
      return config;
    }
    var eqPos := IndexOf(line, EQUALS);
    if eqPos.None? {
      SkippedLine(config, rawLine);
      return config;
    }
    var key := Trim(line[..eqPos.value]);
    var value := Trim(line[eqPos.value + 1..]);
    SettingLine(config, rawLine, key, value);
    config' := AssignSetting(config, key, value);
  }

  /** A blank line, a comment or a line without '=' leaves the configuration as it is. */
  lemma SkippedLine(config: Config, rawLine: seq<CChar>)
    requires var line := Trim(rawLine); line == [] || line[0] == ';' || IndexOf(line, EQUALS).None?
    ensures ApplyLine(config, rawLine) == config
  {
  }

  /** A `key = value` line assigns its trimmed value to its trimmed key. */
  lemma SettingLine(config: Config, rawLine: seq<CChar>, key: seq<CChar>, value: seq<CChar>)
    requires var line := Trim(rawLine);
      line != [] && line[0] != ';' && IndexOf(line, EQUALS).Some?
      && key == Trim(line[..IndexOf(line, EQUALS).value]) && value == Trim(line[IndexOf(line, EQUALS).value + 1..])
    ensures ApplyLine(config, rawLine) == Assign(config, key, value)
  {
    assert Setting(rawLine) == Some((key, value));
  }

  /** The `match key` of `load_config`. */
  method AssignSetting(config: Config, key: seq<CChar>, value: seq<CChar>) returns (config': Config)
    ensures config' == Assign(config, key, value)
  {
    config' := config;
    if key == DESKTOP_IP_KEY {
      var ip := ParseIp(value);
      if ip.Some? {
        config' := config'.(desktopIp := ip.value, hasIp := true);
      }
    } else if key == PORT_KEY {
      var p := ParseU16(value);
      if p.Some? {
        config' := config'.(port := p.value);
      }
    } else if key == OFFLINE_MODE_KEY {
      config' := config'.(offlineMode := value == ONE || EqIgnoreAsciiCase(value, TRUE));
    } else if key == ENABLE_LOGGING_KEY {
      config' := config'.(enableLogging := value == ONE || EqIgnoreAsciiCase(value, TRUE));
    }
  }

  function KeyIp(key: seq<CChar>, value: seq<CChar>): Option<seq<Byte>>
  {
    if key == DESKTOP_IP_KEY then IpOf(value) else None
  }

  function KeyPort(key: seq<CChar>, value: seq<CChar>): Option<nat>
  {
    if key == PORT_KEY then ParseU16(value) else None
  }

  function KeyFlag(key: seq<CChar>, value: seq<CChar>, name: seq<CChar>): Option<bool>
  {
    if key == name then Some(Flag(value)) else None
  }

  /** The address a line validly sets, if any. */
  function IpSetting(line: seq<CChar>): Option<seq<Byte>>
  {
    match Setting(line)
    case Some((key, value)) => KeyIp(key, value)
    case None => None
  }

  /** The port a line validly sets, if any. */
  function PortSetting(line: seq<CChar>): Option<nat>
  {
    match Setting(line)
    case Some((key, value)) => KeyPort(key, value)
    case None => None
  }

  /** The switch value a line gives the key `name`, if it names it. */
  function FlagSetting(line: seq<CChar>, name: seq<CChar>): Option<bool>
  {
    match Setting(line)
    case Some((key, value)) => KeyFlag(key, value, name)
    case None => None
  }

  /** The address set by the last line that validly sets one. */
  function LastIp(lines: seq<seq<CChar>>): Option<seq<Byte>>
  {
    if lines == [] then None
    else if IpSetting(lines[|lines| - 1]).Some? then IpSetting(lines[|lines| - 1])
    else LastIp(lines[..|lines| - 1])
  }

  /** The port set by the last line that validly sets one. */
  function LastPort(lines: seq<seq<CChar>>): Option<nat>
  {
    if lines == [] then None
    else if PortSetting(lines[|lines| - 1]).Some? then PortSetting(lines[|lines| - 1])
    else LastPort(lines[..|lines| - 1])
  }

  /** The value given to the switch `name` by the last line naming it. */
  function LastFlag(lines: seq<seq<CChar>>, name: seq<CChar>): Option<bool>
  {
    if lines == [] then None
    else if FlagSetting(lines[|lines| - 1], name).Some? then FlagSetting(lines[|lines| - 1], name)
    else LastFlag(lines[..|lines| - 1], name)
  }

  function OrDefault<T>(a: Option<T>, d: T): T
  {
    if a.Some? then a.value else d
  }

  /** A setting decides the field its key names, when the value is accepted, and leaves the rest. */
  lemma AssignSettings(config: Config, key: seq<CChar>, value: seq<CChar>)
    ensures Assign(config, key, value) == Config(
      OrDefault(KeyIp(key, value), config.desktopIp),
      OrDefault(KeyPort(key, value), config.port),
      config.hasIp || KeyIp(key, value).Some?,
      OrDefault(KeyFlag(key, value, OFFLINE_MODE_KEY), config.offlineMode),
      OrDefault(KeyFlag(key, value, ENABLE_LOGGING_KEY), config.enableLogging))
  {
    if key == DESKTOP_IP_KEY {
      assert key != PORT_KEY && key != OFFLINE_MODE_KEY && key != ENABLE_LOGGING_KEY;
    } else if key == PORT_KEY {
      assert key != OFFLINE_MODE_KEY && key != ENABLE_LOGGING_KEY;
    } else if key == OFFLINE_MODE_KEY {
      assert key != ENABLE_LOGGING_KEY;
    }
  }

  /** A line changes the address, and sets `has_ip`, only with an address that parses. */
  lemma LineIp(config: Config, line: seq<CChar>)
    ensures ApplyLine(config, line).desktopIp == OrDefault(IpSetting(line), config.desktopIp)
    ensures ApplyLine(config, line).hasIp == (config.hasIp || IpSetting(line).Some?)
  {
    match Setting(line)
    case None =>
    case Some((key, value)) => AssignSettings(config, key, value);
  }

  /** A line changes the port only with a valid `u16`. */
  lemma LinePort(config: Config, line: seq<CChar>)
    ensures ApplyLine(config, line).port == OrDefault(PortSetting(line), config.port)
  {
    match Setting(line)
    case None =>
    case Some((key, value)) => AssignSettings(config, key, value);
  }

  /** A line naming a switch sets it, whatever its value. */
  lemma LineFlags(config: Config, line: seq<CChar>)
    ensures ApplyLine(config, line).offlineMode == OrDefault(FlagSetting(line, OFFLINE_MODE_KEY), config.offlineMode)
    ensures ApplyLine(config, line).enableLogging == OrDefault(FlagSetting(line, ENABLE_LOGGING_KEY), config.enableLogging)
  {
    match Setting(line)
    case None =>
    case Some((key, value)) => AssignSettings(config, key, value);
  }

  /**
   * Each setting is decided by the last line that validly sets it: the
   * address and the port by the last line whose value parses (`has_ip`
   * only if there is one), a switch by the last line naming it.
   */
  lemma {:induction false} LastSettingWins(config: Config, lines: seq<seq<CChar>>)
    ensures ApplyLines(config, lines) == Config(
      OrDefault(LastIp(lines), config.desktopIp),
      OrDefault(LastPort(lines), config.port),
      config.hasIp || LastIp(lines).Some?,
      OrDefault(LastFlag(lines, OFFLINE_MODE_KEY), config.offlineMode),
      OrDefault(LastFlag(lines, ENABLE_LOGGING_KEY), config.enableLogging))
  {
    if lines != [] {
      var init := lines[..|lines| - 1];
      var line := lines[|lines| - 1];
      LastSettingWins(config, init);
      LineIp(ApplyLines(config, init), line);
      LinePort(ApplyLines(config, init), line);
      LineFlags(ApplyLines(config, init), line);
    }
  }

  /** A file that sets nothing leaves the configuration as it was. */
  lemma {:induction false} NothingSet(config: Config, lines: seq<seq<CChar>>)
    requires forall k :: 0 <= k < |lines| ==> Setting(lines[k]).None?
    ensures ApplyLines(config, lines) == config
  {
    if lines != [] {
      NothingSet(config, lines[..|lines| - 1]);
    }
  }
}
