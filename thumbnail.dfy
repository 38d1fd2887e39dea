// The companion's title helpers for thumbnail lookup: normalising a game
// title for comparison, cutting the region tags off a thumbnail file name,
// and the percent-encoding used to build and read thumbnail URLs.
// Titles are Rust `&str`, modelled as sequences of Unicode scalar values.

module Thumbnail {
  import opened Common

  // ---------------------------------------------------------------------
  // Title normalisation
  // ---------------------------------------------------------------------

  /** `char::to_lowercase` on ASCII letters; other characters are kept. */
  function Lower(c: char): char
  {
    if 'A' <= c <= 'Z' then (c as int + 32) as char else c
  }

  /** The punctuation `normalize_title` removes. */
  predicate IsPunct(c: char)
  {
    c == ':' || c == '-' || c == '\'' || c == '"' || c == '!' || c == '?' || c == '.' || c == ','
  }

  /** `char::is_whitespace`: the Unicode White_Space property. */
  predicate IsSpace(c: char)
  {
    ('\t' <= c <= '\r') || c == ' ' || c == '\U{0085}' || c == '\U{00A0}' || c == '\U{1680}'
    || ('\U{2000}' <= c <= '\U{200A}') || c == '\U{2028}' || c == '\U{2029}' || c == '\U{202F}'
    || c == '\U{205F}' || c == '\U{3000}'
  }

  /** A clean character: no capital ASCII letter and none of the removed punctuation. */
  predicate Clean(c: char)
  {
    !('A' <= c <= 'Z') && !IsPunct(c)
  }

  /** Lower-cased, then stripped of the punctuation. */
  function Cleaned(s: string): (r: string)
    ensures |r| <= |s|
    ensures forall i :: 0 <= i < |r| ==> Clean(r[i])
  {
    if s == [] then []
    else (if IsPunct(Lower(s[0])) then [] else [Lower(s[0])]) + Cleaned(s[1..])
  }

  /** A word of `split_whitespace`: not empty, no whitespace. */
  predicate Word(w: string)
  {
    w != [] && forall i :: 0 <= i < |w| ==> !IsSpace(w[i])
  }

  /** The longest prefix of `s` without whitespace. */
  function WordAt(s: string): (r: string)
    ensures r <= s
    ensures forall i :: 0 <= i < |r| ==> !IsSpace(r[i])
    ensures |r| < |s| ==> IsSpace(s[|r|])
  {
    if s == [] || IsSpace(s[0]) then [] else [s[0]] + WordAt(s[1..])
  }

  /** `str::split_whitespace`: the words of `s`, in order. */
  function Words(s: string): (r: seq<string>)
    ensures forall k :: 0 <= k < |r| ==> Word(r[k])
    decreases |s|
  {
    if s == [] then []
    else if IsSpace(s[0]) then Words(s[1..])
    else
      var w := WordAt(s);
      [w] + Words(s[|w|..])
  }

  /** `join(" ")`. */
  function Join(ws: seq<string>): string
  {
    if ws == [] then []
    else if |ws| == 1 then ws[0]
    else ws[0] + " " + Join(ws[1..])
  }

  /**
   * `normalize_title`.  A normalised title holds no capital ASCII letter
   * and none of the removed punctuation, and its words are separated by
   * single spaces with none at either end.
   */
  function NormalizeTitle(title: string): (r: string)
    ensures SingleSpaced(r) && forall i :: 0 <= i < |r| ==> Clean(r[i])
  {
    var ws := Words(Cleaned(title));
    JoinShape(ws);
    WordsOfClean(Cleaned(title));
    JoinClean(ws);
    Join(ws)
  }

  /** Single spaces only, and none at either end. */
  predicate SingleSpaced(s: string)
  {
    forall i :: 0 <= i < |s| && IsSpace(s[i]) ==> s[i] == ' ' && 0 < i < |s| - 1 && !IsSpace(s[i + 1])
  }

  lemma {:induction false} JoinShape(ws: seq<string>)
    requires forall k :: 0 <= k < |ws| ==> Word(ws[k])
    ensures SingleSpaced(Join(ws))
    ensures ws != [] ==> Join(ws) != [] && !IsSpace(Join(ws)[0])
  {
    if |ws| > 1 {
      JoinShape(ws[1..]);
      var w, t := ws[0], Join(ws[1..]);
      var s := w + " " + t;
      forall i | 0 <= i < |s|
        ensures IsSpace(s[i]) ==> s[i] == ' ' && 0 < i < |s| - 1 && !IsSpace(s[i + 1])
      {
        if i < |w| {
          assert s[i] == w[i];
        } else if i == |w| {
          assert s[i + 1] == t[0];
        } else {
          assert s[i] == t[i - |w| - 1];
        }
      }
    }
  }

  lemma {:induction false} JoinClean(ws: seq<string>)
    requires forall k, i :: 0 <= k < |ws| && 0 <= i < |ws[k]| ==> Clean(ws[k][i])
    ensures forall i :: 0 <= i < |Join(ws)| ==> Clean(Join(ws)[i])
  {
    if |ws| > 1 {
      JoinClean(ws[1..]);
      var w, t := ws[0], Join(ws[1..]);
      var s := w + " " + t;
      forall i | 0 <= i < |s| ensures Clean(s[i]) {
        if i < |w| {
          assert s[i] == w[i];
        } else if i > |w| {
          assert s[i] == t[i - |w| - 1];
        }
      }
    }
  }

  /** Every word of a clean text is clean. */
  lemma {:induction false} WordsOfClean(s: string)
    requires forall i :: 0 <= i < |s| ==> Clean(s[i])
    ensures forall k, i :: 0 <= k < |Words(s)| && 0 <= i < |Words(s)[k]| ==> Clean(Words(s)[k][i])
    decreases |s|
  {
    if s != [] {
      if IsSpace(s[0]) {
        WordsOfClean(s[1..]);
        assert Words(s) == Words(s[1..]);
      } else {
        var w := WordAt(s);
        WordsOfClean(s[|w|..]);
        var ws := Words(s);
        assert ws == [w] + Words(s[|w|..]);
        forall k, i | 0 <= k < |ws| && 0 <= i < |ws[k]| ensures Clean(ws[k][i]) {
          if k == 0 {
            assert ws[k][i] == s[i];
          } else {
            assert ws[k] == Words(s[|w|..])[k - 1];
          }
        }
      }
    }
  }

  lemma {:induction false} WordAtWord(w: string, rest: string)
    requires forall i :: 0 <= i < |w| ==> !IsSpace(w[i])
    requires rest == [] || IsSpace(rest[0])
    ensures WordAt(w + rest) == w
  {
    if w == [] {
      assert w + rest == rest;
    } else {
      assert (w + rest)[1..] == w[1..] + rest;
      WordAtWord(w[1..], rest);
    }
  }

  /** Joined words split back into the same words. */
  lemma {:induction false} WordsJoin(ws: seq<string>)
    requires forall k :: 0 <= k < |ws| ==> Word(ws[k])
    ensures Words(Join(ws)) == ws
  {
    if |ws| == 1 {
      WordAtWord(ws[0], []);
      assert ws[0] + [] == ws[0];
      assert ws[0][|ws[0]|..] == [];
    } else if |ws| > 1 {
      WordsCons(ws[0], Join(ws[1..]));
      WordsJoin(ws[1..]);
      assert ws == [ws[0]] + ws[1..];
    }
  }

  /** A word, a space and a text split into the word and the text's words. */
  lemma WordsCons(w: string, t: string)
    requires Word(w)
    ensures Words(w + " " + t) == [w] + Words(t)
  {
    var s := w + " " + t;
    assert s == w + (" " + t);
    WordAtWord(w, " " + t);
    assert s[|w|..] == " " + t;
    assert (" " + t)[1..] == t;
  }

  /** Cleaning a clean text changes nothing. */
  lemma {:induction false} CleanedClean(s: string)
    requires forall i :: 0 <= i < |s| ==> Clean(s[i])
    ensures Cleaned(s) == s
  {
    if s != [] {
      CleanedClean(s[1..]);
      assert s == [s[0]] + s[1..];
    }
  }

  /** Normalising twice is normalising once. */
  lemma NormalizeIdempotent(title: string)
    ensures NormalizeTitle(NormalizeTitle(title)) == NormalizeTitle(title)
  {
    var r := NormalizeTitle(title);
    var ws := Words(Cleaned(title));
    CleanedClean(r);
    WordsJoin(ws);
  }

  /** The normalised title keeps exactly the words of the cleaned title, in order. */
  lemma NormalizeKeepsWords(title: string)
    ensures Words(NormalizeTitle(title)) == Words(Cleaned(title))
  {
    WordsJoin(Words(Cleaned(title)));
  }

  // ---------------------------------------------------------------------
  // Game names from thumbnail file names
  // ---------------------------------------------------------------------

  const REGION_OPEN: string := " ("

  /** `str::rfind`: the last position of `needle` in `hay`. */
  function LastIndexOf(hay: string, needle: string): (r: Option<nat>)
    ensures r.Some? ==> OccursAt(hay, needle, r.value)
    ensures r.Some? ==> forall j: nat :: r.value < j ==> !OccursAt(hay, needle, j)
    ensures r.None? ==> forall j: nat :: !OccursAt(hay, needle, j)
    decreases |hay|
  {
    if |hay| < |needle| then None
    else if OccursAt(hay, needle, |hay| - |needle|) then Some(|hay| - |needle|)
    else
      var r := LastIndexOf(hay[..|hay| - 1], needle);
      OccursInPrefix(hay, needle);
      r
  }

  lemma OccursInPrefix(hay: string, needle: string)
    requires |hay| >= |needle| && !OccursAt(hay, needle, |hay| - |needle|)
    ensures forall j: nat :: OccursAt(hay[..|hay| - 1], needle, j) <==> OccursAt(hay, needle, j)
  {
    forall j: nat ensures OccursAt(hay[..|hay| - 1], needle, j) <==> OccursAt(hay, needle, j) {
      if j + |needle| <= |hay| - 1 {
        assert hay[..|hay| - 1][j..j + |needle|] == hay[j..j + |needle|];
      }
    }
  }

  /**
   * `extract_game_name` as written: the file name up to the LAST " (", or
   * the whole name when there is none.
   */
  function ExtractGameNameAsWritten(filename: string): (r: string)
    ensures r <= filename
    ensures r == filename <==> forall j: nat :: !OccursAt(filename, REGION_OPEN, j)
    ensures r != filename ==> OccursAt(filename, REGION_OPEN, |r|)
                              && forall j: nat :: |r| < j ==> !OccursAt(filename, REGION_OPEN, j)
  {
    match LastIndexOf(filename, REGION_OPEN)
    case Some(p) => filename[..p]
    case None => filename
  }

  /**
   * `extract_game_name` as its tests expect it: the file name up to the
   * FIRST " (", where the region tags begin.
   */
  function ExtractGameName(filename: string): (r: string)
    ensures r <= filename
    ensures r == filename <==> forall j: nat :: !OccursAt(filename, REGION_OPEN, j)
    ensures r != filename ==> OccursAt(filename, REGION_OPEN, |r|)
                              && forall j: nat :: j < |r| ==> !OccursAt(filename, REGION_OPEN, j)
  {
    match IndexOf(filename, REGION_OPEN)
    case Some(p) => filename[..p]
    case None => filename
  }

  /** No '(' means no " (". */
  lemma NoOpenIn(s: string)
    requires '(' !in s
    ensures forall j: nat :: !OccursAt(s, REGION_OPEN, j)
  {
    forall j: nat ensures !OccursAt(s, REGION_OPEN, j) {
      if j + 2 <= |s| {
        assert s[j..j + 2][1] == s[j + 1];
      }
    }
  }

  /** In `name + " (" + tail`, with no '(' in the name, the first " (" ends the name. */
  lemma FirstRegion(name: string, tail: string)
    requires '(' !in name
    ensures ExtractGameName(name + REGION_OPEN + tail) == name
  {
    var s := name + REGION_OPEN + tail;
    assert OccursAt(s, REGION_OPEN, |name|) by {
      assert s[|name|..|name| + 2] == REGION_OPEN;
    }
    forall j: nat | j < |name| ensures !OccursAt(s, REGION_OPEN, j) {
      assert s[j..j + 2][1] == s[j + 1];
      if j + 1 < |name| {
        assert s[j + 1] == name[j + 1];
      } else {
        assert s[j + 1] == ' ';
      }
    }
    assert s[..|name|] == name;
  }

  /** With two parenthesised tags, the code as written keeps the first one. */
  lemma LastRegion(name: string, a: string, b: string)
    requires '(' !in b
    ensures ExtractGameNameAsWritten(name + REGION_OPEN + a + REGION_OPEN + b) == name + REGION_OPEN + a
  {
    var head := name + REGION_OPEN + a;
    var s := head + REGION_OPEN + b;
    assert OccursAt(s, REGION_OPEN, |head|) by {
      assert s[|head|..|head| + 2] == REGION_OPEN;
    }
    forall j: nat | |head| < j ensures !OccursAt(s, REGION_OPEN, j) {
      if j + 2 <= |s| {
        assert s[j..j + 2][1] == s[j + 1];
        assert s[j + 1] == b[j + 1 - |head| - 2];
      }
    }
    assert s[..|head|] == head;
  }

  /** The tagged file name of the source's test. */
  const MHFU_NAME: string := "Monster Hunter Freedom Unite"
  const MHFU_FILE: string := MHFU_NAME + REGION_OPEN + "Europe)" + REGION_OPEN + "En,Fr,De,Es,It)"

  /**
   * The source's test expects the bare game name from a file name with two
   * tags; the code as written returns the name with the first tag still on.
   */
  lemma ExtractTestAsWritten()
    ensures ExtractGameNameAsWritten(MHFU_FILE) == MHFU_NAME + " (Europe)"
    ensures ExtractGameNameAsWritten(MHFU_FILE) != MHFU_NAME
  {
    LastRegion(MHFU_NAME, "Europe)", "En,Fr,De,Es,It)");
    assert MHFU_NAME + REGION_OPEN + "Europe)" == MHFU_NAME + " (Europe)";
  }

  /** The corrected cut passes the source's test with two tags. */
  lemma ExtractTestTwoTags()
    ensures ExtractGameName(MHFU_FILE) == MHFU_NAME
  {
    var tail := "Europe)" + REGION_OPEN + "En,Fr,De,Es,It)";
    assert MHFU_FILE == MHFU_NAME + REGION_OPEN + tail;
    FirstRegion(MHFU_NAME, tail);
  }

  /** The corrected cut passes the source's test with one tag. */
  lemma ExtractTestOneTag()
    ensures ExtractGameName("God of War - Chains of Olympus" + REGION_OPEN + "USA)") == "God of War - Chains of Olympus"
  {
    FirstRegion("God of War - Chains of Olympus", "USA)");
  }

  // ---------------------------------------------------------------------
  // Percent-encoding
  // ---------------------------------------------------------------------

  /** The unreserved characters of section 2.3 of RFC 3986. */
  predicate Unreserved(c: char)
  {
    ('A' <= c <= 'Z') || ('a' <= c <= 'z') || ('0' <= c <= '9') || c == '-' || c == '_' || c == '.' || c == '~'
  }

  /** The UTF-8 encoding of a Unicode scalar value. */
  function Utf8(c: char): (r: seq<Byte>)
    ensures 1 <= |r| <= 4
    ensures c as int < 0x80 ==> r == [c as int]
  {
    var n := c as int;
    if n < 0x80 then [n]
    else if n < 0x800 then [0xC0 + n / 64, 0x80 + n % 64]
    else if n < 0x1_0000 then [0xE0 + n / 4096, 0x80 + (n / 64) % 64, 0x80 + n % 64]
    else [0xF0 + n / 0x4_0000, 0x80 + (n / 4096) % 64, 0x80 + (n / 64) % 64, 0x80 + n % 64]
  }

  const HEX_UPPER: string := "0123456789ABCDEF"

  /** `%{:02X}`: a percent sign and two upper-case hex digits. */
  function Escape(b: Byte): (r: string)
    ensures |r| == 3 && r[0] == '%'
  {
    ['%', HEX_UPPER[b / 16], HEX_UPPER[b % 16]]
  }

  function EscapeAll(bytes: seq<Byte>): (r: string)
    ensures |r| == 3 * |bytes|
  {
    if bytes == [] then [] else Escape(bytes[0]) + EscapeAll(bytes[1..])
  }

  /** What `urlencoding_encode` writes for one character. */
  function EncodeChar(c: char): (r: string)
    ensures r != []
  {
    if Unreserved(c) then [c]
    else if c == ' ' then "%20"
    else EscapeAll(Utf8(c))
  }

  function Encode(s: string): (r: string)
    ensures |r| >= |s|
  {
    if s == [] then [] else EncodeChar(s[0]) + Encode(s[1..])
  }

  lemma {:induction false} EncodeSnoc(s: string, c: char)
    ensures Encode(s + [c]) == Encode(s) + EncodeChar(c)
  {
    if s == [] {
      assert s + [c] == [c];
    } else {
      assert (s + [c])[1..] == s[1..] + [c];
      EncodeSnoc(s[1..], c);
    }
  }

  /** `urlencoding_encode`: the string built one character at a time. */
  method UrlEncode(s: string) returns (result: string)
    ensures result == Encode(s)
  {
    result := [];
    for i := 0 to |s|
      invariant result == Encode(s[..i])
    {
      assert s[..i + 1] == s[..i] + [s[i]];
      EncodeSnoc(s[..i], s[i]);
      result := result + EncodeChar(s[i]);
    }
    assert s[..|s|] == s;
  }

  /** The value of a hex digit of either case, as `from_str_radix(_, 16)` reads it. */
  function HexValue(c: char): Option<nat>
  {
    if '0' <= c <= '9' then Some(c as int - '0' as int)
    else if 'a' <= c <= 'f' then Some(c as int - 'a' as int + 10)
    else if 'A' <= c <= 'F' then Some(c as int - 'A' as int + 10)
    else None
  }

  /**
   * `u8::from_str_radix(hex, 16)` on the (at most two) characters after a
   * '%', when they take two bytes: two hex digits, or '+' and one digit.
   * Characters outside ASCII are never digits, so the byte-length test of
   * the source and a character count agree on every accepted input.
   */
  function HexByte(hex: string): (r: Option<Byte>)
    ensures r.Some? ==> |hex| == 2
  {
    if |hex| != 2 then None
    else if hex[0] == '+' then
      (if HexValue(hex[1]).Some? then Some(HexValue(hex[1]).value) else None)
    else if HexValue(hex[0]).Some? && HexValue(hex[1]).Some? then
      Some(16 * HexValue(hex[0]).value + HexValue(hex[1]).value)
    else None
  }

  /**
   * What `urlencoding_decode` produces: a valid escape becomes the
   * character with that code; after a malformed one the '%' and the (up to
   * two) characters it consumed are copied as they are, and decoding goes
   * on after them.
   */
  function Decode(s: string): (r: string)
    ensures |r| <= |s|
    decreases |s|
  {
    if s == [] then []
    else if s[0] != '%' then [s[0]] + Decode(s[1..])
    else
      var hex := s[1..Min(3, |s|)];
      match HexByte(hex)
      case Some(b) => [b as char] + Decode(s[3..])
      case None => ['%'] + hex + Decode(s[1 + |hex|..])
  }

  /** Text without '%' decodes to itself. */
  lemma {:induction false} DecodePlain(s: string)
    requires '%' !in s
    ensures Decode(s) == s
    decreases |s|
  {
    if s != [] {
      assert s[0] in s;
      assert '%' !in s[1..] by {
        forall i | 0 <= i < |s[1..]|
          ensures s[1..][i] != '%'
        {
          assert s[1..][i] == s[i + 1];
        }
      }
      DecodePlain(s[1..]);
    }
  }

  /** `urlencoding_decode`: the character loop with its two-character lookahead. */
  method UrlDecode(s: string) returns (result: string)
    ensures result == Decode(s)
  {
    result := [];
    var i := 0;
    while i < |s|
      invariant 0 <= i <= |s|
      invariant result + Decode(s[i..]) == Decode(s)
    {
      var c := s[i];
      if c == '%' {
        var hex := s[i + 1..Min(i + 3, |s|)];
        DecodeEscapeAt(s, i, hex);
        var b := HexByte(hex);
        if b.Some? {
          AppendPiece(result, [b.value as char], Decode(s[i + 3..]), Decode(s[i..]));
          result := result + [b.value as char];
          i := i + 3;
          continue;
        }
        AppendPiece(result, ['%'] + hex, Decode(s[i + 1 + |hex|..]), Decode(s[i..]));
        result := result + (['%'] + hex);
        i := i + 1 + |hex|;
      } else {
        DecodePlainAt(s, i);
        AppendPiece(result, [c], Decode(s[i + 1..]), Decode(s[i..]));
        result := result + [c];
        i := i + 1;
      }
    }
  }

  /** Moving a decoded piece from the rest onto the result keeps the whole. */
  lemma AppendPiece(result: string, piece: string, rest: string, whole: string)
    requires whole == piece + rest
    ensures (result + piece) + rest == result + whole
  {
  }

  lemma DecodePlainAt(s: string, i: nat)
    requires i < |s| && s[i] != '%'
    ensures Decode(s[i..]) == [s[i]] + Decode(s[i + 1..])
  {
    assert s[i..][1..] == s[i + 1..];
  }

  lemma DecodeEscapeAt(s: string, i: nat, hex: string)
    requires i < |s| && s[i] == '%' && hex == s[i + 1..Min(i + 3, |s|)]
    ensures HexByte(hex).Some? ==> i + 3 <= |s| && Decode(s[i..]) == [HexByte(hex).value as char] + Decode(s[i + 3..])
    ensures HexByte(hex).None? ==> Decode(s[i..]) == (['%'] + hex) + Decode(s[i + 1 + |hex|..])
  {
    var t := s[i..];
    assert hex == t[1..Min(3, |t|)];
    if HexByte(hex).Some? {
      assert t[3..] == s[i + 3..];
    } else {
      assert t[1 + |hex|..] == s[i + 1 + |hex|..];
    }
  }

  lemma HexDigitValue(d: nat)
    requires d < 16
    ensures HexValue(HEX_UPPER[d]) == Some(d)
  {
  }

  /** An escape of a byte decodes back to the character with that code. */
  lemma EscapeDecodes(b: Byte, rest: string)
    ensures Decode(Escape(b) + rest) == [b as char] + Decode(rest)
  {
    var s := Escape(b) + rest;
    HexDigitValue(b / 16);
    HexDigitValue(b % 16);
    assert s[1..Min(3, |s|)] == Escape(b)[1..];
    assert s[3..] == rest;
  }

  /** An ASCII character survives encoding and decoding. */
  lemma DecodeEncodeChar(c: char, rest: string)
    requires c as int < 0x80
    ensures Decode(EncodeChar(c) + rest) == [c] + Decode(rest)
  {
    if Unreserved(c) {
      assert (EncodeChar(c) + rest)[1..] == rest;
    } else if c == ' ' {
      assert Escape(32) == "%20";
      EscapeDecodes(32, rest);
    } else {
      assert EncodeChar(c) == Escape(c as int) + [];
      assert EncodeChar(c) + rest == Escape(c as int) + rest;
      EscapeDecodes(c as int, rest);
    }
  }

  /** `urlencoding_decode(urlencoding_encode(s)) == s` for ASCII text. */
  lemma {:induction false} DecodeEncode(s: string)
    requires forall i :: 0 <= i < |s| ==> s[i] as int < 0x80
    ensures Decode(Encode(s)) == s
  {
    if s != [] {
      DecodeEncode(s[1..]);
      DecodeEncodeChar(s[0], Encode(s[1..]));
    }
  }

  /** Encoded text holds only unreserved characters and '%'. */
  lemma {:induction false} EncodedCharset(s: string)
    ensures forall i :: 0 <= i < |Encode(s)| ==> Unreserved(Encode(s)[i]) || Encode(s)[i] == '%'
  {
    if s != [] {
      EncodedCharset(s[1..]);
      var e, t := EncodeChar(s[0]), Encode(s[1..]);
      EscapedCharset(if Unreserved(s[0]) || s[0] == ' ' then [] else Utf8(s[0]));
      forall i | 0 <= i < |e + t| ensures Unreserved((e + t)[i]) || (e + t)[i] == '%' {
        if i >= |e| {
          assert (e + t)[i] == t[i - |e|];
        }
      }
    }
  }

  lemma {:induction false} EscapedCharset(bytes: seq<Byte>)
    ensures forall i :: 0 <= i < |EscapeAll(bytes)| ==> Unreserved(EscapeAll(bytes)[i]) || EscapeAll(bytes)[i] == '%'
  {
    if bytes != [] {
      EscapedCharset(bytes[1..]);
      var e, t := Escape(bytes[0]), EscapeAll(bytes[1..]);
      forall i | 0 <= i < |e + t| ensures Unreserved((e + t)[i]) || (e + t)[i] == '%' {
        if i >= |e| {
          assert (e + t)[i] == t[i - |e|];
        }
      }
    }
  }

  /** A character outside ASCII comes back as one character per UTF-8 byte. */
  lemma NonAsciiSplit()
    ensures Encode(['\U{00E9}']) == "%C3%A9"
    ensures Decode(Encode(['\U{00E9}'])) == ['\U{00C3}', '\U{00A9}']
  {
    assert Utf8('\U{00E9}') == [0xC3, 0xA9];
    assert EscapeAll([0xC3, 0xA9]) == Escape(0xC3) + EscapeAll([0xA9]);
    assert Encode(['\U{00E9}']) == EncodeChar('\U{00E9}') + Encode([]);
    EscapeDecodes(0xA9, []);
    EscapeDecodes(0xC3, Escape(0xA9));
    assert Escape(0xC3) == "%C3" && Escape(0xA9) == "%A9";
    assert Escape(0xC3) + Escape(0xA9) == "%C3%A9";
  }
}
