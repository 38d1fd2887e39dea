/**
 * Shared vocabulary of the PSP client and the desktop companion: bytes,
 * optional and fallible results, little-endian integer fields, NUL-terminated
 * fields of fixed size, the truncating string copy of the C plugins, the
 * splitting of a blob into transfer chunks, and a substring search.
 */
module Common {

  /** One octet of a packet or file. */
  type Byte = b: int | 0 <= b < 256

  const U16_LIMIT: int := 0x1_0000
  const U32_LIMIT: int := 0x1_0000_0000
  const U64_LIMIT: int := 0x1_0000_0000_0000_0000

  datatype Option<T> = None | Some(value: T)

  /** The error side of the companion's `Result<T, String>` decoders. */
  datatype Result<T> = Ok(value: T) | Err(msg: string)
  {
    predicate IsOk() { Ok? }
  }

  // ---------------------------------------------------------------------
  // Little-endian fields
  // ---------------------------------------------------------------------

  function U16At(s: seq<Byte>, i: nat): (r: nat)
    requires i + 2 <= |s|
    ensures r < U16_LIMIT
  {
    s[i] as nat + 256 * s[i + 1] as nat
  }

  function U32At(s: seq<Byte>, i: nat): (r: nat)
    requires i + 4 <= |s|
    ensures r < U32_LIMIT
  {
    U16At(s, i) + U16_LIMIT * U16At(s, i + 2)
  }

  function U64At(s: seq<Byte>, i: nat): (r: nat)
    requires i + 8 <= |s|
    ensures r < U64_LIMIT
  {
    U32At(s, i) + U32_LIMIT * U32At(s, i + 4)
  }

  function U16Bytes(v: nat): (r: seq<Byte>)
    requires v < U16_LIMIT
    ensures |r| == 2
  {
    [v % 256, v / 256]
  }

  function U32Bytes(v: nat): (r: seq<Byte>)
    requires v < U32_LIMIT
    ensures |r| == 4
  {
    U16Bytes(v % U16_LIMIT) + U16Bytes(v / U16_LIMIT)
  }

  function U64Bytes(v: nat): (r: seq<Byte>)
    requires v < U64_LIMIT
    ensures |r| == 8
  {
    U32Bytes(v % U32_LIMIT) + U32Bytes(v / U32_LIMIT)
  }

  /** A 16-bit field written at offset i reads back as the same value. */
  lemma U16RoundTrip(s: seq<Byte>, i: nat, v: nat)
    requires v < U16_LIMIT && i + 2 <= |s| && s[i..i + 2] == U16Bytes(v)
    ensures U16At(s, i) == v
  {
    assert s[i] == s[i..i + 2][0] && s[i + 1] == s[i..i + 2][1];
  }

  lemma U32RoundTrip(s: seq<Byte>, i: nat, v: nat)
    requires v < U32_LIMIT && i + 4 <= |s| && s[i..i + 4] == U32Bytes(v)
    ensures U32At(s, i) == v
  {
    assert s[i..i + 2] == s[i..i + 4][..2];
    assert s[i + 2..i + 4] == s[i..i + 4][2..];
    U16RoundTrip(s, i, v % U16_LIMIT);
    U16RoundTrip(s, i + 2, v / U16_LIMIT);
  }

  lemma U64RoundTrip(s: seq<Byte>, i: nat, v: nat)
    requires v < U64_LIMIT && i + 8 <= |s| && s[i..i + 8] == U64Bytes(v)
    ensures U64At(s, i) == v
  {
    assert s[i..i + 4] == s[i..i + 8][..4];
    assert s[i + 4..i + 8] == s[i..i + 8][4..];
    U32RoundTrip(s, i, v % U32_LIMIT);
    U32RoundTrip(s, i + 4, v / U32_LIMIT);
  }

  // ---------------------------------------------------------------------
  // NUL-terminated fields
  // ---------------------------------------------------------------------

  function Zeros(n: nat): (r: seq<Byte>)
    ensures |r| == n && forall i :: 0 <= i < n ==> r[i] == 0
  {
    seq(n, _ => 0)
  }

  /** A C `char`: one byte read as a character. */
  type CChar = c: char | c as int < 256

  function ToBytes(s: seq<CChar>): (r: seq<Byte>)
    ensures |r| == |s| && forall i :: 0 <= i < |s| ==> r[i] == s[i] as int
  {
    seq(|s|, i requires 0 <= i < |s| => s[i] as int)
  }

  /** The items of `s` before the first `stop`, or all of `s` when it has none. */
  function Before<T(==)>(s: seq<T>, stop: T): (r: seq<T>)
    ensures |r| <= |s| && r == s[..|r|]
    ensures stop !in r
    ensures |r| < |s| ==> s[|r|] == stop
  {
    if s == [] || s[0] == stop then []
    else [s[0]] + Before(s[1..], stop)
  }

  /**
   * The text held by a fixed-size field (`read_string`, `extract_string`):
   * the bytes before the first NUL, or the whole field when it holds no NUL.
   */
  function ReadString(field: seq<Byte>): (r: seq<Byte>)
    ensures |r| <= |field| && r == field[..|r|]
    ensures 0 !in r
    ensures |r| < |field| ==> field[|r|] == 0
  {
    Before(field, 0)
  }

  /** A NUL-free text padded with NULs reads back unchanged. */
  lemma {:induction false} ReadStringPadded(s: seq<Byte>, pad: seq<Byte>)
    requires 0 !in s
    requires pad == [] || pad[0] == 0
    ensures ReadString(s + pad) == s
  {
    BeforePadded(s, pad, 0);
  }

  lemma {:induction false} BeforePadded<T>(s: seq<T>, pad: seq<T>, stop: T)
    requires stop !in s
    requires pad == [] || pad[0] == stop
    ensures Before(s + pad, stop) == s
  {
    if s == [] {
      assert s + pad == pad;
    } else {
      assert (s + pad)[1..] == s[1..] + pad;
      BeforePadded(s[1..], pad, stop);
    }
  }

  /** `field` written with `s` (truncated) followed by NUL padding. */
  function Field(s: seq<Byte>, size: nat): (r: seq<Byte>)
    ensures |r| == size
  {
    if |s| >= size then s[..size] else s + Zeros(size - |s|)
  }

  /** Text that fits its field, leaving room for a terminator, survives it. */
  lemma FieldRoundTrip(s: seq<Byte>, size: nat)
    requires 0 !in s && |s| < size
    ensures ReadString(Field(s, size)) == s
  {
    ReadStringPadded(s, Zeros(size - |s|));
  }

  /**
   * `copy_str(dst, size, src)` of the C plugins: the destination holds
   * the first `size - 1` characters of `src` (all of them when shorter) and
   * is always NUL-terminated.  A zero-size destination is left alone, which
   * callers never rely on, so `size > 0` is required here.
   */
  function CopyStr<T>(src: seq<T>, size: nat): (r: seq<T>)
    requires size > 0
    ensures |r| == if |src| < size then |src| else size - 1
    ensures r == src[..|r|]
  {
    if |src| < size then src else src[..size - 1]
  }

  // ---------------------------------------------------------------------
  // Splitting a blob into transfer chunks
  // ---------------------------------------------------------------------

  function CeilDiv(n: nat, d: nat): nat
    requires d > 0
  {
    (n + d - 1) / d
  }

  function Flatten<T>(parts: seq<seq<T>>): seq<T>
  {
    if parts == [] then [] else parts[0] + Flatten(parts[1..])
  }

  /**
   * The pieces a sender emits for `data` with pieces of at most `size`
   * bytes: full pieces in order, the last one holding what remains.
   */
  function Chunks<T>(data: seq<T>, size: nat): seq<seq<T>>
    requires size > 0
    decreases |data|
  {
    if data == [] then []
    else if |data| <= size then [data]
    else [data[..size]] + Chunks(data[size..], size)
  }

  lemma {:induction false} MulAtLeast(a: int, b: int)
    requires a > 0 && b >= 1
    ensures a * b >= a
    decreases b
  {
    if b > 1 {
      MulAtLeast(a, b - 1);
      assert a * b == a * (b - 1) + a;
    }
  }

  /** Euclidean division has one quotient for each dividend. */
  lemma DivUnique(y: int, d: int, q: int, r: int)
    requires d > 0 && 0 <= r < d && y == d * q + r
    ensures y / d == q
  {
    var q', r' := y / d, y % d;
    assert y == d * q' + r';
    if q' > q {
      assert d * q' == d * q + d * (q' - q);
      MulAtLeast(d, q' - q);
      assert false;
    } else if q' < q {
      assert d * q == d * q' + d * (q - q');
      MulAtLeast(d, q - q');
      assert false;
    }
  }

  /** A value below the modulus is its own remainder. */
  lemma ModBelow(x: int, m: int)
    requires 0 <= x < m
    ensures x % m == x
  {
    DivUnique(x, m, 0, x);
  }

  lemma CeilDivStep(n: nat, d: nat)
    requires d > 0 && n > d
    ensures CeilDiv(n, d) == 1 + CeilDiv(n - d, d)
  {
    var x := n - 1;
    var q, r := x / d, x % d;
    assert x == d * q + r;
    assert n + d - 1 == d * (q + 1) + r;
    DivUnique(n + d - 1, d, q + 1, r);
    assert (n - d) + d - 1 == d * q + r;
    DivUnique((n - d) + d - 1, d, q, r);
  }

  lemma CeilDivSmall(n: nat, d: nat)
    requires 0 < n <= d
    ensures CeilDiv(n, d) == 1
  {
    assert d <= n + d - 1 < 2 * d;
  }

  /** There are ceil(n / size) pieces. */
  lemma {:induction false} ChunksCount<T>(data: seq<T>, size: nat)
    requires size > 0
    ensures |Chunks(data, size)| == CeilDiv(|data|, size)
    decreases |data|
  {
    if data == [] {
    } else if |data| <= size {
      CeilDivSmall(|data|, size);
    } else {
      ChunksCount(data[size..], size);
      CeilDivStep(|data|, size);
    }
  }

  /** The pieces join back to the blob. */
  lemma {:induction false} ChunksJoin<T>(data: seq<T>, size: nat)
    requires size > 0
    ensures Flatten(Chunks(data, size)) == data
    decreases |data|
  {
    if data == [] {
    } else if |data| <= size {
      assert Flatten([data]) == data + Flatten([]);
    } else {
      var rest := data[size..];
      ChunksJoin(rest, size);
      var c := Chunks(data, size);
      assert c == [data[..size]] + Chunks(rest, size);
      assert c[1..] == Chunks(rest, size);
      assert data == data[..size] + rest;
    }
  }

  /** Every piece is non-empty and at most `size` long. */
  lemma {:induction false} ChunksBounded<T>(data: seq<T>, size: nat, k: nat)
    requires size > 0 && k < |Chunks(data, size)|
    ensures 0 < |Chunks(data, size)[k]| <= size
    decreases |data|
  {
    if |data| > size && k > 0 {
      ChunksBounded(data[size..], size, k - 1);
    }
  }

  /** Piece k starts at offset k * size and holds min(size, remaining) items. */
  lemma {:induction false} ChunkAt<T>(data: seq<T>, size: nat, k: nat)
    requires size > 0 && k < |Chunks(data, size)|
    ensures k * size < |data|
    ensures Chunks(data, size)[k] == data[k * size .. Min(|data|, (k + 1) * size)]
    decreases |data|
  {
    if |data| > size && k > 0 {
      var rest := data[size..];
      ChunkAt(rest, size, k - 1);
      assert (k - 1) * size + size == k * size;
      assert Min(|rest|, k * size) + size == Min(|data|, (k + 1) * size);
      assert Chunks(data, size)[k] == Chunks(rest, size)[k - 1];
    }
  }

  function Min(a: int, b: int): int { if a < b then a else b }

  function Truncate<T>(s: seq<T>, n: nat): (r: seq<T>)
    ensures |r| == Min(|s|, n) && r == s[..|r|]
  {
    if |s| <= n then s else s[..n]
  }

  /** The C string a pointer designates: the bytes before the first NUL. */
  function CString(s: seq<Byte>): (r: seq<Byte>)
    ensures 0 !in r
  {
    Before(s, 0)
  }

  /** Piece `k` of `data` cut into pieces of `size`: at most `size` bytes from `k * size` on. */
  function Piece<T>(data: seq<T>, size: nat, k: nat): (r: seq<T>)
    requires size > 0 && k < CeilDiv(|data|, size)
    ensures 0 < |r| <= size
    ensures k * size < |data| && r == data[k * size..Min(|data|, (k + 1) * size)]
  {
    ChunksCount(data, size);
    ChunksBounded(data, size, k);
    ChunkAt(data, size, k);
    Chunks(data, size)[k]
  }

  /** `k` is a piece index of `n` bytes cut into pieces of `d` exactly when its offset lies inside. */
  lemma CeilDivBelow(n: nat, d: nat, k: nat)
    requires d > 0
    ensures k < CeilDiv(n, d) <==> k * d < n
  {
    var q := (n + d - 1) / d;
    assert n + d - 1 == d * q + (n + d - 1) % d;
    if q <= k {
      MulLe(q, k, d);
    } else {
      MulLe(k + 1, q, d);
    }
  }

  lemma MulLe(a: nat, b: nat, d: nat)
    requires a <= b
    ensures d * a <= d * b
  {
    assert d * b == d * a + d * (b - a);
  }

  // ---------------------------------------------------------------------
  // Sequences of sends that stop at the first failure
  // ---------------------------------------------------------------------

  /**
   * What the stack answers to the k-th send of an operation: `failures`
   * lists the error codes of the first sends (a non-negative entry means
   * that send went through); a send that goes through reports its length.
   */
  function SendResult(failures: seq<int>, k: nat, len: nat): (r: int)
    ensures r < 0 || r == len
  {
    if k < |failures| && failures[k] < 0 then failures[k] else len
  }

  /**
   * How many of `n` sends go out before the first one that fails, when
   * the k-th send reports `failures[k]` (an error when negative; sends past
   * the end of the list succeed).
   */
  function Succeeded(failures: seq<int>, n: nat): (k: nat)
    ensures k <= n
    ensures forall j :: 0 <= j < k && j < |failures| ==> failures[j] >= 0
    ensures k < n ==> k < |failures| && failures[k] < 0
  {
    if n == 0 then 0
    else
      var k := Succeeded(failures, n - 1);
      if k < n - 1 then k
      else if n - 1 < |failures| && failures[n - 1] < 0 then n - 1
      else n
  }

  /** Once a send fails, later sends do not change the count. */
  lemma SucceededStops(failures: seq<int>, k: nat, n: nat)
    requires k < n && Succeeded(failures, k) == k && k < |failures| && failures[k] < 0
    ensures Succeeded(failures, n) == k
  {
  }

  // ---------------------------------------------------------------------
  // Searching
  // ---------------------------------------------------------------------

  predicate OccursAt<T(==)>(hay: seq<T>, needle: seq<T>, i: nat)
  {
    i + |needle| <= |hay| && hay[i..i + |needle|] == needle
  }

  /** First position of `needle` in `hay` at or after `from` (strstr, str::find). */
  function IndexOfFrom<T(==)>(hay: seq<T>, needle: seq<T>, from: nat): (r: Option<nat>)
    ensures r.Some? ==> from <= r.value && OccursAt(hay, needle, r.value)
    ensures r.Some? ==> forall j :: from <= j < r.value ==> !OccursAt(hay, needle, j)
    ensures r.None? ==> forall j :: from <= j ==> !OccursAt(hay, needle, j)
    decreases |hay| - from
  {
    if from + |needle| > |hay| then None
    else if hay[from..from + |needle|] == needle then Some(from)
    else IndexOfFrom(hay, needle, from + 1)
  }

  function IndexOf<T(==)>(hay: seq<T>, needle: seq<T>): (r: Option<nat>)
    ensures r.Some? ==> OccursAt(hay, needle, r.value)
    ensures r.Some? ==> forall j :: 0 <= j < r.value ==> !OccursAt(hay, needle, j)
    ensures r.None? ==> forall j :: 0 <= j ==> !OccursAt(hay, needle, j)
  {
    IndexOfFrom(hay, needle, 0)
  }

  /** A needle found at `p` and nowhere before is found at `p`. */
  lemma IndexOfAt<T>(hay: seq<T>, needle: seq<T>, p: nat)
    requires OccursAt(hay, needle, p)
    requires forall j :: 0 <= j < p ==> !OccursAt(hay, needle, j)
    ensures IndexOf(hay, needle) == Some(p)
  {
  }

  /** A prefix one element longer. */
  lemma PrefixSnoc<T>(s: seq<T>, n: nat)
    requires n < |s|
    ensures s[..n + 1] == s[..n] + [s[n]]
  {
  }

  /** A key updated twice keeps only the second value. */
  lemma UpdateTwice<K, V>(m: map<K, V>, k: K, v: V, w: V)
    ensures m[k := v][k := w] == m[k := w]
  {
  }

  /** A suffix of `p` that starts with `a` holds `a` at its start and `rest` after it. */
  lemma Peel<T>(p: seq<T>, k: nat, a: seq<T>, rest: seq<T>)
    requires k <= |p| && p[k..] == a + rest
    ensures k + |a| <= |p| && p[k..k + |a|] == a && p[k + |a|..] == rest
  {
    assert p[k..][..|a|] == a;
    assert p[k..][|a|..] == rest;
  }

  /** Concatenation regrouped, for proofs that extend an accumulated sequence. */
  lemma ConcatAssoc<T>(a: seq<T>, b: seq<T>, c: seq<T>)
    ensures a + b + c == a + (b + c)
  {
  }

  // ---------------------------------------------------------------------
  // Characters
  // ---------------------------------------------------------------------

  predicate IsDigit(c: char) { '0' <= c <= '9' }

  /** Space or tab, the only blanks the plugins' parsers skip. */
  predicate IsBlank(c: char) { c == ' ' || c == '\t' }

  function DigitValue(c: char): nat
    requires IsDigit(c)
  {
    c as int - '0' as int
  }

  /** The value of a run of decimal digits (most significant first). */
  function DecimalValue(s: string): nat
    requires forall i :: 0 <= i < |s| ==> IsDigit(s[i])
  {
    if s == [] then 0 else DecimalValue(s[..|s| - 1]) * 10 + DigitValue(s[|s| - 1])
  }

  /** `n` written in decimal without leading zeros, as `%u` prints it. */
  function Decimal(n: nat): (r: seq<CChar>)
    ensures 0 < |r| && forall i :: 0 <= i < |r| ==> IsDigit(r[i])
    ensures DecimalValue(r) == n
    ensures |r| > 1 ==> r[0] != '0'
    ensures n < 10 ==> |r| == 1
    ensures n < 100 ==> |r| <= 2
    ensures n < 1000 ==> |r| <= 3
  {
    if n < 10 then [DigitChar(n)]
    else
      var d := Decimal(n / 10);
      var r := d + [DigitChar(n % 10)];
      assert r[..|r| - 1] == d;
      r
  }

  /** The character of one decimal digit. */
  function DigitChar(k: nat): (c: CChar)
    requires k < 10
    ensures IsDigit(c) && DigitValue(c) == k
  {
    ('0' as int + k) as char
  }

  /** The longest prefix of `s` made of decimal digits. */
  function DigitPrefix(s: seq<CChar>): (r: seq<CChar>)
    ensures |r| <= |s| && r == s[..|r|]
    ensures forall i :: 0 <= i < |r| ==> IsDigit(r[i])
    ensures |r| < |s| ==> !IsDigit(s[|r|])
  {
    if s != [] && IsDigit(s[0]) then [s[0]] + DigitPrefix(s[1..]) else []
  }

  /** `s` without its leading spaces and tabs. */
  function SkipBlanks(s: seq<CChar>): (r: seq<CChar>)
    ensures |r| <= |s| && r == s[|s| - |r|..]
    ensures r == [] || !IsBlank(r[0])
    ensures forall i :: 0 <= i < |s| - |r| ==> IsBlank(s[i])
  {
    if s != [] && IsBlank(s[0]) then SkipBlanks(s[1..]) else s
  }
}
