// The plugin loader's small parsers: case-insensitive token comparison,
// the skip-button setting, signed decimal reading, the hexadecimal
// formatter of its log lines, and the three scans of `psp_drp.ini` for
// `SKIP_BUTTON`, `STARTUP_DELAY_MS` and `ENABLE_LOGGING`.

module Loader {
  import opened Common

  const HEX_CHARS: seq<CChar> := "0123456789ABCDEF"

  /** The delay used when the file gives none, or a negative one. */
  const AUTO_START_DELAY_MS: nat := 500

  /** The loader reads at most this many bytes of the file. */
  const READ_LIMIT: nat := 2047

  /** The longest skip-button token kept (the buffer holds 32 with its NUL). */
  const TOKEN_MAX: nat := 31

  // Button bits of the controller, as the PSP SDK numbers them.
  const PSP_CTRL_SELECT: nat := 0x0001
  const PSP_CTRL_START: nat := 0x0008
  const PSP_CTRL_UP: nat := 0x0010
  const PSP_CTRL_RIGHT: nat := 0x0020
  const PSP_CTRL_DOWN: nat := 0x0040
  const PSP_CTRL_LEFT: nat := 0x0080
  const PSP_CTRL_LTRIGGER: nat := 0x0100
  const PSP_CTRL_RTRIGGER: nat := 0x0200
  const PSP_CTRL_TRIANGLE: nat := 0x1000
  const PSP_CTRL_CIRCLE: nat := 0x2000
  const PSP_CTRL_CROSS: nat := 0x4000
  const PSP_CTRL_SQUARE: nat := 0x8000

  const DEFAULT_SKIP_BUTTON: nat := PSP_CTRL_LTRIGGER

  // ---------------------------------------------------------------------
  // Tokens
  // ---------------------------------------------------------------------

  /** `to_upper_char`: ASCII lower-case letters to upper case. */
  function ToUpperChar(c: CChar): (r: CChar)
    ensures 'a' <= c <= 'z' ==> r as int == c as int - 32
    ensures !('a' <= c <= 'z') ==> r == c
  {
    if 'a' <= c <= 'z' then (c as int - 'a' as int + 'A' as int) as char else c
  }

  function UpperAll(s: seq<CChar>): (r: seq<CChar>)
    ensures |r| == |s| && forall i :: 0 <= i < |s| ==> r[i] == ToUpperChar(s[i])
  {
    if s == [] then [] else [ToUpperChar(s[0])] + UpperAll(s[1..])
  }

  /**
   * `token_equals` over the contents of two C strings: the characters are
   * compared upper-cased until one string ends, and both must end together.
   */
  function TokenEquals(a: seq<CChar>, b: seq<CChar>): (r: bool)
    ensures r <==> |a| == |b| && forall i :: 0 <= i < |a| ==> ToUpperChar(a[i]) == ToUpperChar(b[i])
  {
    if a == [] || b == [] then a == [] && b == []
    else ToUpperChar(a[0]) == ToUpperChar(b[0]) && TokenEquals(a[1..], b[1..])
  }

  /** A character that ends the skip-button token. */
  predicate IsTokenStop(c: CChar)
  {
    c == '\0' || c == '\r' || c == '\n' || c == ' ' || c == '\t' || c == ';' || c == '#'
  }

  /** The longest prefix of `s` without a stop character. */
  function TakeToken(s: seq<CChar>): (r: seq<CChar>)
    ensures r <= s
    ensures forall i :: 0 <= i < |r| ==> !IsTokenStop(r[i])
    ensures |r| < |s| ==> IsTokenStop(s[|r|])
  {
    if s == [] || IsTokenStop(s[0]) then [] else [s[0]] + TakeToken(s[1..])
  }

  /** The token `parse_skip_button` reads: after the blanks, upper-cased, at most 31 characters. */
  function SkipToken(value: seq<CChar>): seq<CChar>
  {
    Truncate(UpperAll(TakeToken(SkipBlanks(value))), TOKEN_MAX)
  }

  /** The button a token names, the L trigger for any other token. */
  function ButtonFor(token: seq<CChar>): nat
  {
    if TokenEquals(token, "L") || TokenEquals(token, "LTRIGGER") then PSP_CTRL_LTRIGGER
    else if TokenEquals(token, "R") || TokenEquals(token, "RTRIGGER") then PSP_CTRL_RTRIGGER
    else if TokenEquals(token, "SELECT") then PSP_CTRL_SELECT
    else if TokenEquals(token, "START") then PSP_CTRL_START
    else if TokenEquals(token, "UP") then PSP_CTRL_UP
    else if TokenEquals(token, "DOWN") then PSP_CTRL_DOWN
    else if TokenEquals(token, "LEFT") then PSP_CTRL_LEFT
    else if TokenEquals(token, "RIGHT") then PSP_CTRL_RIGHT
    else if TokenEquals(token, "TRIANGLE") then PSP_CTRL_TRIANGLE
    else if TokenEquals(token, "CIRCLE") then PSP_CTRL_CIRCLE
    else if TokenEquals(token, "CROSS") then PSP_CTRL_CROSS
    else if TokenEquals(token, "SQUARE") then PSP_CTRL_SQUARE
    else DEFAULT_SKIP_BUTTON
  }

  /** The names the skip-button setting accepts, each with its button. */
  const BUTTON_NAMES: seq<(seq<CChar>, nat)> := [
    ("L", PSP_CTRL_LTRIGGER), ("LTRIGGER", PSP_CTRL_LTRIGGER),
    ("R", PSP_CTRL_RTRIGGER), ("RTRIGGER", PSP_CTRL_RTRIGGER),
    ("SELECT", PSP_CTRL_SELECT), ("START", PSP_CTRL_START),
    ("UP", PSP_CTRL_UP), ("DOWN", PSP_CTRL_DOWN), ("LEFT", PSP_CTRL_LEFT), ("RIGHT", PSP_CTRL_RIGHT),
    ("TRIANGLE", PSP_CTRL_TRIANGLE), ("CIRCLE", PSP_CTRL_CIRCLE),
    ("CROSS", PSP_CTRL_CROSS), ("SQUARE", PSP_CTRL_SQUARE)]

  /** Every accepted name, in any letter case, selects its own button. */
  lemma NamedButton(token: seq<CChar>, k: nat)
    requires k < |BUTTON_NAMES| && TokenEquals(token, BUTTON_NAMES[k].0)
    ensures ButtonFor(token) == BUTTON_NAMES[k].1
  {
  }

  /** A token that is none of the names selects the L trigger. */
  lemma UnknownButton(token: seq<CChar>)
    requires forall k :: 0 <= k < |BUTTON_NAMES| ==> !TokenEquals(token, BUTTON_NAMES[k].0)
    ensures ButtonFor(token) == DEFAULT_SKIP_BUTTON
  {
    assert !TokenEquals(token, BUTTON_NAMES[0].0) && !TokenEquals(token, BUTTON_NAMES[1].0);
    assert !TokenEquals(token, BUTTON_NAMES[2].0) && !TokenEquals(token, BUTTON_NAMES[3].0);
    assert !TokenEquals(token, BUTTON_NAMES[4].0) && !TokenEquals(token, BUTTON_NAMES[5].0);
    assert !TokenEquals(token, BUTTON_NAMES[6].0) && !TokenEquals(token, BUTTON_NAMES[7].0);
    assert !TokenEquals(token, BUTTON_NAMES[8].0) && !TokenEquals(token, BUTTON_NAMES[9].0);
    assert !TokenEquals(token, BUTTON_NAMES[10].0) && !TokenEquals(token, BUTTON_NAMES[11].0);
    assert !TokenEquals(token, BUTTON_NAMES[12].0) && !TokenEquals(token, BUTTON_NAMES[13].0);
  }

  /** The names are upper-case letters, at most eight of them. */
  lemma NameLetters(k: nat)
    requires k < |BUTTON_NAMES|
    ensures 0 < |BUTTON_NAMES[k].0| <= 8
    ensures forall i :: 0 <= i < |BUTTON_NAMES[k].0| ==> 'A' <= BUTTON_NAMES[k].0[i] <= 'Z'
  {
  }

  lemma {:induction false} TakeTokenWord(w: seq<CChar>, rest: seq<CChar>)
    requires forall i :: 0 <= i < |w| ==> !IsTokenStop(w[i])
    requires rest == [] || IsTokenStop(rest[0])
    ensures TakeToken(w + rest) == w
  {
    if w == [] {
      assert w + rest == rest;
    } else {
      assert (w + rest)[1..] == w[1..] + rest;
      TakeTokenWord(w[1..], rest);
    }
  }

  lemma {:induction false} SkipBlanksPrefix(ws: seq<CChar>, t: seq<CChar>)
    requires forall i :: 0 <= i < |ws| ==> IsBlank(ws[i])
    requires t == [] || !IsBlank(t[0])
    ensures SkipBlanks(ws + t) == t
  {
    if ws == [] {
      assert ws + t == t;
    } else {
      assert (ws + t)[1..] == ws[1..] + t;
      SkipBlanksPrefix(ws[1..], t);
    }
  }

  lemma UpperAllTokenEquals(w: seq<CChar>, name: seq<CChar>)
    requires TokenEquals(w, name)
    ensures TokenEquals(UpperAll(w), name)
  {
  }

  /**
   * A setting value made of blanks, a button name in any letter case and
   * then a terminator (or nothing) selects that button.
   */
  lemma SkipButtonNamed(ws: seq<CChar>, w: seq<CChar>, rest: seq<CChar>, k: nat)
    requires k < |BUTTON_NAMES| && TokenEquals(w, BUTTON_NAMES[k].0)
    requires forall i :: 0 <= i < |ws| ==> IsBlank(ws[i])
    requires rest == [] || IsTokenStop(rest[0])
    ensures ButtonFor(SkipToken(ws + w + rest)) == BUTTON_NAMES[k].1
  {
    var name := BUTTON_NAMES[k].0;
    NameLetters(k);
    assert forall i :: 0 <= i < |w| ==> !IsTokenStop(w[i]) by {
      forall i | 0 <= i < |w| ensures !IsTokenStop(w[i]) {
        assert ToUpperChar(w[i]) == ToUpperChar(name[i]);
      }
    }
    assert w != [] && !IsBlank(w[0]);
    ConcatAssoc(ws, w, rest);
    SkipBlanksPrefix(ws, w + rest);
    TakeTokenWord(w, rest);
    UpperAllTokenEquals(w, name);
    NamedButton(UpperAll(w), k);
  }

  /**
   * `parse_skip_button`: the blanks skipped, then the token copied
   * upper-cased into a 32-byte buffer until a terminator, and looked up.
   * `value` is the text of the C string (a NUL also ends it).
   */
  method ParseSkipButton(value: seq<CChar>) returns (button: nat)
    ensures button == ButtonFor(SkipToken(value))
  {
    var start := SkipBlankPrefix(value);
    var token, len := CopyToken(value, start);
    button := ButtonFor(token[..len]);
  }

  /** The token loop: from `start`, the characters up to a terminator, upper-cased, at most 31 kept. */
  method CopyToken(value: seq<CChar>, start: nat) returns (token: array<CChar>, len: nat)
    requires start <= |value|
    ensures len <= token.Length
    ensures token[..len] == Truncate(UpperAll(TakeToken(value[start..])), TOKEN_MAX)
  {
    var p := start;
    token := new CChar[TOKEN_MAX + 1](_ => '\0');
    len := 0;
    while p < |value| && !IsTokenStop(value[p])
      invariant start <= p <= |value| && token.Length == TOKEN_MAX + 1
      invariant forall i :: start <= i < p ==> !IsTokenStop(value[i])
      invariant len == Min(p - start, TOKEN_MAX)
      invariant forall j :: 0 <= j < len ==> token[j] == ToUpperChar(value[start + j])
    {
      len := PutUpper(token, len, value[p]);
      p := p + 1;
    }
    TokenRead(value, start, p, token[..len]);
  }

  /** One pass of the token loop: `c` upper-cased into the buffer while it has room. */
  method PutUpper(token: array<CChar>, len: nat, c: CChar) returns (next: nat)
    requires len <= TOKEN_MAX < token.Length
    modifies token
    ensures next == Min(len + 1, TOKEN_MAX)
    ensures forall j :: 0 <= j < len ==> token[j] == old(token[j])
    ensures len < TOKEN_MAX ==> token[len] == ToUpperChar(c)
  {
    next := len;
    if len < TOKEN_MAX {
      token[len] := ToUpperChar(c);
      next := len + 1;
    }
  }

  /** The blank-skipping loop shared by the loader's parsers: the index of the first non-blank. */
  method SkipBlankPrefix(value: seq<CChar>) returns (p: nat)
    ensures p <= |value| && SkipBlanks(value) == value[p..]
  {
    p := 0;
    while p < |value| && IsBlank(value[p])
      invariant p <= |value| && SkipBlanks(value) == SkipBlanks(value[p..])
    {
      assert value[p..][1..] == value[p + 1..];
      p := p + 1;
    }
  }

  lemma SliceSplit<T>(s: seq<T>, a: nat, b: nat)
    requires a <= b <= |s|
    ensures s[a..] == s[a..b] + s[b..]
  {
  }

  /** The token loop stopped at `p`: the buffer holds the token `SkipToken` describes. */
  lemma TokenRead(value: seq<CChar>, start: nat, p: nat, token: seq<CChar>)
    requires start <= p <= |value|
    requires p == |value| || IsTokenStop(value[p])
    requires forall i :: start <= i < p ==> !IsTokenStop(value[i])
    requires |token| == Min(p - start, TOKEN_MAX)
    requires forall j :: 0 <= j < |token| ==> token[j] == ToUpperChar(value[start + j])
    ensures token == Truncate(UpperAll(TakeToken(value[start..])), TOKEN_MAX)
  {
    var w := value[start..p];
    SliceSplit(value, start, p);
    assert forall i :: 0 <= i < |w| ==> !IsTokenStop(w[i]) by {
      forall i | 0 <= i < |w| ensures !IsTokenStop(w[i]) {
        assert w[i] == value[start + i];
      }
    }
    var rest := value[p..];
    assert rest == [] || IsTokenStop(rest[0]);
    TakeTokenWord(w, rest);
    var u := UpperAll(w);
    var v := Truncate(u, TOKEN_MAX);
    assert |v| == |token| && |token| <= |w|;
    forall j | 0 <= j < |token| ensures v[j] == token[j] {
      assert w[j] == value[start + j];
      assert u[j] == ToUpperChar(w[j]);
      assert v[j] == u[j];
    }
    assert v == token;
  }

  // ---------------------------------------------------------------------
  // Numbers
  // ---------------------------------------------------------------------

  /** What the loader's `parse_int` reads: blanks, an optional '-', then the leading digits. */
  function IntValue(val: seq<CChar>): int
  {
    var t := SkipBlanks(val);
    if t != [] && t[0] == '-' then -(DecimalValue(DigitPrefix(t[1..])) as int)
    else DecimalValue(DigitPrefix(t))
  }

  /**
   * `parse_int`: the accumulator loop.  The integer is unbounded here; the
   * C code overflows `int` on more than nine or ten digits.
   */
  method ParseInt(val: seq<CChar>) returns (result: int)
    ensures result == IntValue(val)
  {
    var p := SkipBlankPrefix(val);
    ghost var t := val[p..];
    var negative := false;
    if p < |val| && val[p] == '-' {
      negative := true;
      p := p + 1;
      assert t[1..] == val[p..];
    }
    var n := ReadDigits(val, p);
    result := if negative then -(n as int) else n;
  }

  /** The digit loop of `parse_int`: the value of the digits from `start` on. */
  method ReadDigits(val: seq<CChar>, start: nat) returns (n: nat)
    requires start <= |val|
    ensures n == DecimalValue(DigitPrefix(val[start..]))
  {
    var p := start;
    n := 0;
    while p < |val| && IsDigit(val[p])
      invariant start <= p <= |val|
      invariant forall i :: start <= i < p ==> IsDigit(val[i])
      invariant n == DecimalValue(val[start..p])
    {
      DecimalSnoc(val, start, p);
      n := n * 10 + DigitValue(val[p]);
      p := p + 1;
    }
    SliceSplit(val, start, p);
    DigitPrefixAll(val[start..p], val[p..]);
  }

  lemma DecimalSnoc(s: seq<CChar>, lo: nat, hi: nat)
    requires lo <= hi < |s| && forall i :: lo <= i <= hi ==> IsDigit(s[i])
    ensures DecimalValue(s[lo..hi + 1]) == DecimalValue(s[lo..hi]) * 10 + DigitValue(s[hi])
  {
    assert s[lo..hi + 1][..hi - lo] == s[lo..hi];
  }

  lemma {:induction false} DigitPrefixAll(s: seq<CChar>, rest: seq<CChar>)
    requires forall i :: 0 <= i < |s| ==> IsDigit(s[i])
    requires rest == [] || !IsDigit(rest[0])
    ensures DigitPrefix(s + rest) == s
  {
    if s == [] {
      assert s + rest == rest;
    } else {
      assert (s + rest)[1..] == s[1..] + rest;
      DigitPrefixAll(s[1..], rest);
    }
  }

  lemma NoBlankStart(s: seq<CChar>)
    requires s != [] && !IsBlank(s[0])
    ensures SkipBlanks(s) == s
  {
  }

  /** A number printed in decimal reads back. */
  lemma IntRoundTrip(n: nat, rest: seq<CChar>)
    requires rest == [] || !IsDigit(rest[0])
    ensures IntValue(Decimal(n) + rest) == n
  {
    var d := Decimal(n);
    DigitPrefixAll(d, rest);
    NoBlankStart(d + rest);
  }

  /** The minus sign, as text of the loader's character type. */
  const MINUS: seq<CChar> := "-"

  /** A number printed in decimal after a minus sign reads back negated. */
  lemma NegativeRoundTrip(n: nat, rest: seq<CChar>)
    requires rest == [] || !IsDigit(rest[0])
    ensures IntValue(MINUS + Decimal(n) + rest) == -(n as int)
  {
    var d := Decimal(n);
    DigitPrefixAll(d, rest);
    var x := d + rest;
    ConcatAssoc(MINUS, d, rest);
    assert |MINUS| == 1 && MINUS[0] == '-';
    assert (MINUS + x)[1..] == x;
    NoBlankStart(MINUS + x);
  }

  // ---------------------------------------------------------------------
  // Hexadecimal
  // ---------------------------------------------------------------------

  /** The last `n` hex digits of `v`, most significant first, upper case. */
  function HexDigits(v: nat, n: nat): (r: seq<CChar>)
    ensures |r| == n
  {
    if n == 0 then [] else HexDigits(v / 16, n - 1) + [HEX_CHARS[v % 16]]
  }

  function Pow16(n: nat): (r: nat)
    ensures r > 0
  {
    if n == 0 then 1 else 16 * Pow16(n - 1)
  }

  function HexDigitValue(c: CChar): nat
  {
    if '0' <= c <= '9' then c as int - '0' as int
    else if 'A' <= c <= 'F' then c as int - 'A' as int + 10
    else 0
  }

  /** The value of a run of hex digits, most significant first. */
  function HexNumber(s: seq<CChar>): nat
  {
    if s == [] then 0 else HexNumber(s[..|s| - 1]) * 16 + HexDigitValue(s[|s| - 1])
  }

  /** Digit `i` of `v`, scaled back: (v / 16 % P) * 16 + v % 16 is v % (16 P). */
  lemma ModStep(v: nat, p: nat)
    requires p > 0
    ensures (v / 16 % p) * 16 + v % 16 == v % (16 * p)
  {
    var q, r := v / 16, v % 16;
    var a, b := q / p, q % p;
    assert v == 16 * p * a + (16 * b + r) by {
      assert v == 16 * q + r;
      assert q == p * a + b;
    }
    DivUnique(v, 16 * p, a, 16 * b + r);
  }

  /** Reading the digits back gives the value modulo 16^n. */
  lemma {:induction false} HexDigitsValue(v: nat, n: nat)
    ensures HexNumber(HexDigits(v, n)) == v % Pow16(n)
  {
    if n > 0 {
      HexDigitsValue(v / 16, n - 1);
      var s := HexDigits(v, n);
      assert s[..|s| - 1] == HexDigits(v / 16, n - 1);
      assert HexDigitValue(HEX_CHARS[v % 16]) == v % 16;
      ModStep(v, Pow16(n - 1));
    }
  }

  /** Eight hex digits of a 32-bit value read back as that value. */
  lemma HexRoundTrip(v: nat)
    requires v < U32_LIMIT
    ensures HexNumber(HexDigits(v, 8)) == v
  {
    HexDigitsValue(v, 8);
    assert Pow16(8) == U32_LIMIT;
    ModBelow(v, U32_LIMIT);
  }

  /**
   * `u32_to_hex`: the nibbles written from the right, then the NUL at
   * index 8.
   */
  method U32ToHex(out: array<CChar>, value: nat)
    requires out.Length >= 9 && value < U32_LIMIT
    modifies out
    ensures out[..8] == HexDigits(value, 8) && out[8] == '\0'
    ensures out[9..] == old(out[9..])
  {
    var v := value;
    for i := 0 to 8
      invariant HexDigits(v, 8 - i) + out[8 - i..8] == HexDigits(value, 8)
      invariant out[8..] == old(out[8..])
    {
      ghost var tail := out[8 - i..8];
      out[7 - i] := HEX_CHARS[v % 16];
      assert out[7 - i..8] == [HEX_CHARS[v % 16]] + tail;
      assert HexDigits(v, 8 - i) == HexDigits(v / 16, 7 - i) + [HEX_CHARS[v % 16]];
      v := v / 16;
    }
    out[8] := '\0';
  }

  // ---------------------------------------------------------------------
  // The scans of psp_drp.ini
  // ---------------------------------------------------------------------

  /** The text the loaders scan: at most 2047 bytes of the file, up to a NUL. */
  function ConfigText(file: seq<CChar>): (r: seq<CChar>)
    ensures |r| <= READ_LIMIT && '\0' !in r
  {
    Before(Truncate(file, READ_LIMIT), '\0')
  }

  /** Characters skipped before a key. */
  predicate IsLead(c: CChar)
  {
    c == ' ' || c == '\t' || c == '\r'
  }

  function SkipLead(s: seq<CChar>): (r: seq<CChar>)
    ensures r == [] || !IsLead(r[0])
  {
    if s != [] && IsLead(s[0]) then SkipLead(s[1..]) else s
  }

  /** `s` without its trailing spaces and tabs. */
  function TrimEndBlanks(s: seq<CChar>): (r: seq<CChar>)
    ensures r <= s && (r == [] || !IsBlank(r[|r| - 1]))
  {
    if s != [] && IsBlank(s[|s| - 1]) then TrimEndBlanks(s[..|s| - 1]) else s
  }

  /** The separators of the configuration file, as text. */
  const EQUALS: seq<CChar> := "="
  const NEWLINE: seq<CChar> := "\n"

  /**
   * The value a line gives `key`: after the leading blanks and carriage
   * returns, a line that is not empty or a comment and has an '=' whose
   * left side, without trailing blanks, equals `key` in any letter case;
   * the value is the rest of the line after its leading blanks.  (The C
   * code never trims the first character of the key, which is not a blank
   * there anyway.)
   */
  function LineValue(line: seq<CChar>, key: seq<CChar>): Option<seq<CChar>>
  {
    var p := SkipLead(line);
    if p == [] || p[0] == '#' || p[0] == ';' then None
    else match IndexOf(p, EQUALS)
      case None => None
      case Some(e) => if TokenEquals(TrimEndBlanks(p[..e]), key) then Some(SkipBlanks(p[e + 1..])) else None
  }

  /** Where the line starting at `pos` ends: its newline, or the end of the text. */
  function LineEnd(text: seq<CChar>, pos: nat): (r: nat)
    requires pos <= |text|
    ensures pos <= r <= |text| && '\n' !in text[pos..r]
    ensures r < |text| ==> text[r] == '\n'
  {
    match IndexOfFrom(text, NEWLINE, pos)
    case Some(q) =>
      assert forall j :: pos <= j < q ==> text[j] != '\n' by {
        forall j | pos <= j < q ensures text[j] != '\n' {
          assert !OccursAt(text, NEWLINE, j);
          assert text[j..j + 1] == [text[j]];
        }
      }
      assert text[q..q + 1] == NEWLINE;
      q
    case None =>
      assert forall j :: pos <= j < |text| ==> text[j] != '\n' by {
        forall j | pos <= j < |text| ensures text[j] != '\n' {
          assert !OccursAt(text, NEWLINE, j);
          assert text[j..j + 1] == [text[j]];
        }
      }
      |text|
  }

  /** The value of the first line from `pos` on that sets `key`. */
  function SettingFrom(text: seq<CChar>, key: seq<CChar>, pos: nat): Option<seq<CChar>>
    decreases |text| - pos
  {
    if pos >= |text| then None
    else
      var v := LineValue(text[pos..LineEnd(text, pos)], key);
      if v.Some? then v else SettingFrom(text, key, LineEnd(text, pos) + 1)
  }

  /** One line of the scan: its value for `key`, if any, and where the next line starts. */
  method ReadLine(text: seq<CChar>, key: seq<CChar>, pos: nat) returns (found: Option<seq<CChar>>, next: nat)
    requires pos < |text|
    ensures pos < next <= |text| + 1
    ensures found.Some? ==> SettingFrom(text, key, pos) == found
    ensures found.None? ==> SettingFrom(text, key, pos) == SettingFrom(text, key, next)
  {
    SettingStep(text, key, pos);
    next := LineEnd(text, pos) + 1;
    found := LineValue(text[pos..next - 1], key);
  }

  lemma SettingStep(text: seq<CChar>, key: seq<CChar>, pos: nat)
    requires pos < |text|
    ensures var found := LineValue(text[pos..LineEnd(text, pos)], key);
      SettingFrom(text, key, pos) == if found.Some? then found else SettingFrom(text, key, LineEnd(text, pos) + 1)
  {
  }

  /**
   * The line loop the three loaders share: each line is cut at its
   * newline, and the first one setting `key` gives the value.
   */
  method FindSetting(text: seq<CChar>, key: seq<CChar>) returns (v: Option<seq<CChar>>)
    ensures v == SettingFrom(text, key, 0)
  {
    var pos := 0;
    while pos < |text|
      invariant SettingFrom(text, key, pos) == SettingFrom(text, key, 0)
      decreases |text| - pos
    {
      var found, next := ReadLine(text, key, pos);
      if found.Some? {
        return found;
      }
      pos := next;
    }
    return None;
  }

  /** A first line that sets `key` decides it, whatever follows. */
  lemma FirstLineWins(line: seq<CChar>, rest: seq<CChar>, key: seq<CChar>)
    requires '\n' !in line && LineValue(line, key).Some?
    ensures SettingFrom(line + NEWLINE + rest, key, 0) == LineValue(line, key)
  {
    FirstLineEnd(line, rest);
    SettingStep(line + NEWLINE + rest, key, 0);
  }

  lemma FirstLineEnd(line: seq<CChar>, rest: seq<CChar>)
    requires '\n' !in line
    ensures var text := line + NEWLINE + rest;
      LineEnd(text, 0) == |line| && text[0..|line|] == line
  {
    var text := line + NEWLINE + rest;
    assert text[0..|line|] == line;
    assert text[|line|] == '\n';
    LineEndAt(text, 0, |line|);
  }

  lemma LineEndAt(text: seq<CChar>, pos: nat, q: nat)
    requires pos <= q < |text| && text[q] == '\n' && '\n' !in text[pos..q]
    ensures LineEnd(text, pos) == q
  {
    var r := LineEnd(text, pos);
    forall j | pos <= j < q ensures text[j] != '\n' {
      assert text[pos..q][j - pos] == text[j];
    }
    forall j | pos <= j < r ensures text[j] != '\n' {
      assert text[pos..r][j - pos] == text[j];
    }
  }

  lemma {:induction false} SkipLeadPrefix(ws: seq<CChar>, t: seq<CChar>)
    requires forall i :: 0 <= i < |ws| ==> IsBlank(ws[i])
    requires t == [] || !IsLead(t[0])
    ensures SkipLead(ws + t) == t
  {
    if ws == [] {
      assert ws + t == t;
    } else {
      assert (ws + t)[1..] == ws[1..] + t;
      SkipLeadPrefix(ws[1..], t);
    }
  }

  lemma {:induction false} TrimEndBlanksSuffix(k: seq<CChar>, ws: seq<CChar>)
    requires k != [] && !IsBlank(k[|k| - 1])
    requires forall i :: 0 <= i < |ws| ==> IsBlank(ws[i])
    ensures TrimEndBlanks(k + ws) == k
  {
    if ws == [] {
      assert k + ws == k;
    } else {
      var ws' := ws[..|ws| - 1];
      assert (k + ws)[..|k + ws| - 1] == k + ws';
      TrimEndBlanksSuffix(k, ws');
    }
  }

  /**
   * A setting line written as blanks, the key, blanks, '=', blanks and
   * the value gives the value back, the key matched in any letter case.
   */
  lemma SettingLine(ws1: seq<CChar>, k: seq<CChar>, ws2: seq<CChar>, ws3: seq<CChar>, value: seq<CChar>, key: seq<CChar>)
    requires TokenEquals(k, key) && k != []
    requires '=' !in k && !IsLead(k[0]) && k[0] != '#' && k[0] != ';' && !IsBlank(k[|k| - 1])
    requires forall i :: 0 <= i < |ws1| ==> IsBlank(ws1[i])
    requires forall i :: 0 <= i < |ws2| ==> IsBlank(ws2[i])
    requires forall i :: 0 <= i < |ws3| ==> IsBlank(ws3[i])
    requires value == [] || !IsBlank(value[0])
    ensures LineValue(ws1 + k + ws2 + EQUALS + ws3 + value, key) == Some(value)
  {
    var a := k + ws2;
    var tail := a + EQUALS + (ws3 + value);
    LineShape(ws1, k, ws2, ws3, value);
    assert tail[0] == k[0];
    SkipLeadPrefix(ws1, tail);
    assert '=' !in a by {
      assert forall i :: 0 <= i < |a| ==> a[i] != '=' by {
        forall i | 0 <= i < |a| ensures a[i] != '=' {
          if i < |k| { assert a[i] == k[i]; } else { assert IsBlank(ws2[i - |k|]); }
        }
      }
    }
    FirstEqualSign(a, ws3 + value);
    TrimEndBlanksSuffix(k, ws2);
    SkipBlanksPrefix(ws3, value);
  }

  lemma LineShape(ws1: seq<CChar>, k: seq<CChar>, ws2: seq<CChar>, ws3: seq<CChar>, value: seq<CChar>)
    ensures ws1 + k + ws2 + EQUALS + ws3 + value == ws1 + (k + ws2 + EQUALS + (ws3 + value))
  {
  }

  /** The first '=' of `a`, the sign and `rest` when `a` has none, and what lies on either side. */
  lemma FirstEqualSign(a: seq<CChar>, rest: seq<CChar>)
    requires '=' !in a
    ensures IndexOf(a + EQUALS + rest, EQUALS) == Some(|a|)
    ensures (a + EQUALS + rest)[..|a|] == a && (a + EQUALS + rest)[|a| + 1..] == rest
  {
    var t := a + EQUALS + rest;
    assert t[|a|..|a| + 1] == EQUALS;
    assert OccursAt(t, EQUALS, |a|);
    forall j: nat | j < |a| ensures !OccursAt(t, EQUALS, j) {
      assert t[j..j + 1] == [a[j]];
    }
  }

  /** The skip button a configuration file selects (`None`: the file cannot be read). */
  function SkipButtonOf(file: Option<seq<CChar>>): nat
  {
    if file.None? then DEFAULT_SKIP_BUTTON
    else match SettingFrom(ConfigText(file.value), "SKIP_BUTTON", 0)
      case None => DEFAULT_SKIP_BUTTON
      case Some(v) => ButtonFor(SkipToken(v))
  }

  /** `load_skip_button`. */
  method LoadSkipButton(file: Option<seq<CChar>>) returns (button: nat)
    ensures button == SkipButtonOf(file)
  {
    if file.None? {
      return DEFAULT_SKIP_BUTTON;
    }
    var v := FindSetting(ConfigText(file.value), "SKIP_BUTTON");
    if v.None? {
      return DEFAULT_SKIP_BUTTON;
    }
    button := ParseSkipButton(v.value);
  }

  /** The delay a `STARTUP_DELAY_MS` value gives: negative values fall back to 500. */
  function DelayOf(v: seq<CChar>): (r: nat)
  {
    if IntValue(v) >= 0 then IntValue(v) else AUTO_START_DELAY_MS
  }

  /** The start-up delay a configuration file selects. */
  function StartupDelayOf(file: Option<seq<CChar>>): nat
  {
    if file.None? then AUTO_START_DELAY_MS
    else match SettingFrom(ConfigText(file.value), "STARTUP_DELAY_MS", 0)
      case None => AUTO_START_DELAY_MS
      case Some(v) => DelayOf(v)
  }

  /** `load_startup_delay`. */
  method LoadStartupDelay(file: Option<seq<CChar>>) returns (delay: int)
    ensures delay == StartupDelayOf(file)
  {
    if file.None? {
      return AUTO_START_DELAY_MS;
    }
    var v := FindSetting(ConfigText(file.value), "STARTUP_DELAY_MS");
    if v.None? {
      return AUTO_START_DELAY_MS;
    }
    delay := ParseInt(v.value);
    if delay < 0 {
      delay := AUTO_START_DELAY_MS;
    }
  }

  /** A non-negative number is taken as the delay; a negative one gives 500. */
  lemma DelayValues(n: nat, rest: seq<CChar>)
    requires rest == [] || !IsDigit(rest[0])
    ensures DelayOf(Decimal(n) + rest) == n
    ensures n > 0 ==> DelayOf(MINUS + Decimal(n) + rest) == AUTO_START_DELAY_MS
  {
    IntRoundTrip(n, rest);
    NegativeRoundTrip(n, rest);
  }

  /** Whether a configuration file turns the loader's log on: a value starting with '1'. */
  function LoggingOf(file: Option<seq<CChar>>): bool
  {
    if file.None? then false
    else match SettingFrom(ConfigText(file.value), "ENABLE_LOGGING", 0)
      case None => false
      case Some(v) => v != [] && v[0] == '1'
  }

  /** `load_logging_enabled`. */
  method LoadLoggingEnabled(file: Option<seq<CChar>>) returns (enabled: bool)
    ensures enabled == LoggingOf(file)
  {
    if file.None? {
      return false;
    }
    var v := FindSetting(ConfigText(file.value), "ENABLE_LOGGING");
    if v.None? {
      return false;
    }
    enabled := v.value != [] && v.value[0] == '1';
  }
}
