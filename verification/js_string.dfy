/** The handful of JavaScript string and number operations the modelled code relies on,
    over Dafny strings (`seq<char>`). A JavaScript string counts UTF-16 code units; here a
    string counts characters, which agrees for every text in the modelled code. */
module JsString {
  import opened Wrappers

  /** `s.startsWith(p)`. */
  predicate StartsWith(s: string, p: string) {
    |p| <= |s| && s[..|p|] == p
  }

  /** `s.includes(sub)`: `sub` occurs in `s` at some position. */
  predicate Includes(s: string, sub: string) {
    exists i | 0 <= i <= |s| - |sub| :: StartsWith(s[i..], sub)
  }

  /** A witness position makes `Includes` hold. */
  lemma IncludesAt(s: string, sub: string, i: nat)
    requires i + |sub| <= |s| && s[i..i + |sub|] == sub
    ensures Includes(s, sub)
  {
    assert StartsWith(s[i..], sub);
  }

  /** An occurrence inside a prefix is an occurrence in the whole string. */
  lemma IncludesPrefix(s: string, n: nat, sub: string)
    requires n <= |s| && Includes(s[..n], sub)
    ensures Includes(s, sub)
  {
    var i :| 0 <= i <= n - |sub| && StartsWith(s[..n][i..], sub);
    assert s[i..i + |sub|] == s[..n][i..][..|sub|];
    IncludesAt(s, sub, i);
  }

  predicate IsAsciiUpper(c: char) { 'A' <= c <= 'Z' }
  predicate IsAsciiLower(c: char) { 'a' <= c <= 'z' }
  predicate IsAsciiDigit(c: char) { '0' <= c <= '9' }

  /** The class `[A-Za-z0-9]`. */
  predicate IsAsciiAlnum(c: char) { IsAsciiUpper(c) || IsAsciiLower(c) || IsAsciiDigit(c) }

  function LowerChar(c: char): char {
    if IsAsciiUpper(c) then (c as int - 'A' as int + 'a' as int) as char else c
  }

  /** `s.toLowerCase()` restricted to the ASCII letters. */
  function ToLower(s: string): (r: string)
    ensures |r| == |s|
    ensures forall i :: 0 <= i < |s| ==> r[i] == LowerChar(s[i])
  {
    seq(|s|, i requires 0 <= i < |s| => LowerChar(s[i]))
  }

  /** Lowering is the identity on a string that holds no upper-case ASCII letter. */
  lemma ToLowerKeeps(s: string)
    requires forall i :: 0 <= i < |s| ==> !IsAsciiUpper(s[i])
    ensures ToLower(s) == s
  {
  }

  /** Lowering the text does not change whether it contains a keyword free of ASCII letters
      (the routing keywords are all Chinese). */
  lemma LowerIncludesKeyword(s: string, kw: string)
    requires forall j :: 0 <= j < |kw| ==> !IsAsciiUpper(kw[j]) && !IsAsciiLower(kw[j])
    ensures Includes(ToLower(s), kw) <==> Includes(s, kw)
  {
    var lower := ToLower(s);
    if Includes(s, kw) {
      var i :| 0 <= i <= |s| - |kw| && StartsWith(s[i..], kw);
      assert forall j :: 0 <= j < |kw| ==> s[i + j] == s[i..][..|kw|][j];
      IncludesAt(lower, kw, i);
    }
    if Includes(lower, kw) {
      var i :| 0 <= i <= |lower| - |kw| && StartsWith(lower[i..], kw);
      forall j | 0 <= j < |kw|
        ensures s[i + j] == kw[j]
      {
        assert lower[i + j] == lower[i..][..|kw|][j];
      }
      IncludesAt(s, kw, i);
    }
  }

  /** Normalises a `slice` bound the way JavaScript does: negative counts from the end,
      then clamp to `[0, len]`. */
  function SliceBound(b: int, len: nat): (r: nat)
    ensures r <= len
  {
    if b < 0 then (if len + b < 0 then 0 else len + b) else if b > len then len else b
  }

  /** `s.slice(start, end)` with JavaScript's treatment of negative and out-of-range bounds. */
  function Slice<T>(s: seq<T>, start: int, end: int): (r: seq<T>)
    ensures 0 <= start <= end <= |s| ==> r == s[start..end]
    ensures 0 <= start && |s| <= start ==> r == []
    ensures |r| <= |s|
  {
    var a := SliceBound(start, |s|);
    var b := SliceBound(end, |s|);
    if b <= a then [] else s[a..b]
  }

  /** The number of leading characters of `s` that differ from `sep`. */
  function FieldLength(s: string, sep: char): (k: nat)
    ensures k <= |s|
    ensures forall i :: 0 <= i < k ==> s[i] != sep
    ensures k < |s| ==> s[k] == sep
  {
    if |s| == 0 || s[0] == sep then 0 else 1 + FieldLength(s[1..], sep)
  }

  /** `s.split(sep)` for a one-character separator: always at least one field. */
  function Split(s: string, sep: char): (parts: seq<string>)
    ensures |parts| >= 1
    decreases |s|
  {
    var k := FieldLength(s, sep);
    if k == |s| then [s] else [s[..k]] + Split(s[k + 1..], sep)
  }

  /** `parts.join(sep)`. */
  function Join(parts: seq<string>, sep: char): string {
    if |parts| == 0 then "" else if |parts| == 1 then parts[0] else parts[0] + [sep] + Join(parts[1..], sep)
  }

  /** No field of a split contains the separator. */
  lemma {:induction false} SplitFieldsLackSeparator(s: string, sep: char)
    ensures forall p, i :: p in Split(s, sep) && 0 <= i < |p| ==> p[i] != sep
    decreases |s|
  {
    var k := FieldLength(s, sep);
    if k < |s| {
      SplitFieldsLackSeparator(s[k + 1..], sep);
    }
  }

  /** Joining the fields of a split gives back the original string. */
  lemma {:induction false} JoinSplit(s: string, sep: char)
    ensures Join(Split(s, sep), sep) == s
    decreases |s|
  {
    var k := FieldLength(s, sep);
    if k < |s| {
      var rest := Split(s[k + 1..], sep);
      JoinSplit(s[k + 1..], sep);
      assert Split(s, sep) == [s[..k]] + rest;
      assert Join([s[..k]] + rest, sep) == s[..k] + [sep] + Join(rest, sep) by {
        assert ([s[..k]] + rest)[1..] == rest;
      }
      assert s == s[..k] + [sep] + s[k + 1..];
    }
  }

  /** The field length is the position of the first separator, or the whole length. */
  lemma {:induction false} FieldLengthIs(s: string, sep: char, k: nat)
    requires k <= |s| && (forall i :: 0 <= i < k ==> s[i] != sep) && (k < |s| ==> s[k] == sep)
    ensures FieldLength(s, sep) == k
  {
    if k > 0 {
      FieldLengthIs(s[1..], sep, k - 1);
    }
  }

  /** Two separator-free names joined by one separator split back into those two names. */
  lemma SplitTwo(a: string, b: string, sep: char)
    requires forall i :: 0 <= i < |a| ==> a[i] != sep
    requires forall i :: 0 <= i < |b| ==> b[i] != sep
    ensures Split(a + [sep] + b, sep) == [a, b]
  {
    var s := a + [sep] + b;
    FieldLengthIs(s, sep, |a|);
    assert s[|a| + 1..] == b;
    FieldLengthIs(b, sep, |b|);
    assert s[..|a|] == a;
  }

  /** Three separator-free fields joined by the separator split back into those fields. */
  lemma SplitThree(a: string, b: string, c: string, sep: char)
    requires forall i :: 0 <= i < |a| ==> a[i] != sep
    requires forall i :: 0 <= i < |b| ==> b[i] != sep
    requires forall i :: 0 <= i < |c| ==> c[i] != sep
    ensures Split(a + [sep] + b + [sep] + c, sep) == [a, b, c]
  {
    var rest := b + [sep] + c;
    assert a + [sep] + b + [sep] + c == a + [sep] + rest;
    SplitTwo(b, c, sep);
    SplitFront(a, rest, sep);
    assert [a] + [b, c] == [a, b, c];
  }

  /** A separator-free first field is split off and the rest is split on its own. */
  lemma SplitFront(a: string, rest: string, sep: char)
    requires forall i :: 0 <= i < |a| ==> a[i] != sep
    ensures Split(a + [sep] + rest, sep) == [a] + Split(rest, sep)
  {
    var s := a + [sep] + rest;
    FieldLengthIs(s, sep, |a|);
    assert s[|a| + 1..] == rest;
    assert s[..|a|] == a;
  }

  /** The digit character of `d`. */
  function DigitChar(d: nat): char
    requires d < 10
  {
    ('0' as int + d) as char
  }

  /** `String(n)` for a natural number: its decimal digits, without leading zeros. */
  function Decimal(n: nat): (r: string)
    ensures |r| >= 1
    ensures forall i :: 0 <= i < |r| ==> IsAsciiDigit(r[i])
    ensures n < 10 ==> |r| == 1
    ensures 10 <= n < 100 ==> |r| == 2
  {
    if n < 10 then [DigitChar(n)] else Decimal(n / 10) + [DigitChar(n % 10)]
  }

  function DigitValue(c: char): nat
    requires IsAsciiDigit(c)
  {
    c as int - '0' as int
  }

  /** The value of a string of decimal digits. */
  function DecimalValue(s: string): nat
    requires forall i :: 0 <= i < |s| ==> IsAsciiDigit(s[i])
  {
    if |s| == 0 then 0 else 10 * DecimalValue(s[..|s| - 1]) + DigitValue(s[|s| - 1])
  }

  /** Reading back a rendered number gives the number. */
  lemma {:induction false} DecimalRoundTrip(n: nat)
    ensures DecimalValue(Decimal(n)) == n
  {
    if n >= 10 {
      var r := Decimal(n);
      assert r[..|r| - 1] == Decimal(n / 10);
      DecimalRoundTrip(n / 10);
    }
  }

  /** Rendering is injective: two numbers with the same text are equal. */
  lemma DecimalInjective(m: nat, n: nat)
    requires Decimal(m) == Decimal(n)
    ensures m == n
  {
    DecimalRoundTrip(m);
    DecimalRoundTrip(n);
  }

  /** `String(n).padStart(2, '0')`. */
  function PadTwo(n: nat): (r: string)
    ensures n < 100 ==> |r| == 2
  {
    var d := Decimal(n);
    if |d| < 2 then "0" + d else d
  }

  /** A number below 100 rendered with two digits can be read back. */
  lemma PadTwoValue(n: nat)
    requires n < 100
    ensures forall i :: 0 <= i < |PadTwo(n)| ==> IsAsciiDigit(PadTwo(n)[i])
    ensures DecimalValue(PadTwo(n)) == n
  {
    var p := PadTwo(n);
    if n < 10 {
      assert p == [DigitChar(0), DigitChar(n)];
      assert p[..1] == [DigitChar(0)];
      assert p[..1][..0] == [];
      assert DecimalValue(p[..1]) == 0;
    } else {
      DecimalRoundTrip(n);
    }
  }

  predicate IsHexDigit(c: char) {
    IsAsciiDigit(c) || 'a' <= c <= 'f' || 'A' <= c <= 'F'
  }

  function HexDigitValue(c: char): (v: nat)
    requires IsHexDigit(c)
    ensures v < 16
  {
    if IsAsciiDigit(c) then c as int - '0' as int
    else if 'a' <= c <= 'f' then c as int - 'a' as int + 10
    else c as int - 'A' as int + 10
  }

  /** The characters `parseInt` skips at the start: the ECMAScript white space and line
      terminators (tab, line feed, vertical tab, form feed and carriage return are '\t'..'\r'). */
  predicate IsJsWhiteSpace(c: char) {
    if c < '\U{00A0}' then c == ' ' || '\t' <= c <= '\r'
    else (c == '\U{00A0}' || c == '\U{1680}' || '\U{2000}' <= c <= '\U{200A}' || c == '\U{2028}'
          || c == '\U{2029}' || c == '\U{202F}' || c == '\U{205F}' || c == '\U{3000}' || c == '\U{FEFF}')
  }

  /** Drops leading white space. */
  function TrimStart(s: string): (r: string)
    ensures |r| <= |s|
    ensures |r| > 0 ==> !IsJsWhiteSpace(r[0])
  {
    if |s| > 0 && IsJsWhiteSpace(s[0]) then TrimStart(s[1..]) else s
  }

  /** The number of hexadecimal digits at the start of `s`. */
  function LeadingHexDigits(s: string): (k: nat)
    ensures k <= |s|
    ensures forall i :: 0 <= i < k ==> IsHexDigit(s[i])
    ensures k < |s| ==> !IsHexDigit(s[k])
  {
    if |s| == 0 || !IsHexDigit(s[0]) then 0 else 1 + LeadingHexDigits(s[1..])
  }

  /** The value of a string of hexadecimal digits, most significant first. */
  function HexValue(s: string): nat
    requires forall i :: 0 <= i < |s| ==> IsHexDigit(s[i])
  {
    if |s| == 0 then 0 else 16 * HexValue(s[..|s| - 1]) + HexDigitValue(s[|s| - 1])
  }

  /** `parseInt(s, 16)`: skip white space, take an optional sign and an optional "0x"/"0X", then
      the longest run of hexadecimal digits; `None` stands for NaN (no digit at all). */
  function ParseIntHex(s: string): Option<int> {
    ParseSigned(TrimStart(s))
  }

  /** A leading '-' negates and a leading '+' is dropped. */
  function ParseSigned(t: string): Option<int> {
    if |t| > 0 && t[0] == '-' then Negate(ParseUnsigned(t[1..]))
    else if |t| > 0 && t[0] == '+' then ParseUnsigned(t[1..])
    else ParseUnsigned(t)
  }

  function Negate(x: Option<int>): Option<int> {
    match x
    case None => None
    case Some(v) => Some(-v)
  }

  /** With radix 16 a "0x" or "0X" prefix is skipped. */
  function ParseUnsigned(u: string): Option<int> {
    ParseDigits(if |u| >= 2 && u[0] == '0' && (u[1] == 'x' || u[1] == 'X') then u[2..] else u)
  }

  /** The value of the leading hexadecimal digits, or NaN when there is none. */
  function ParseDigits(d: string): (r: Option<int>)
    ensures r.Some? <==> |d| > 0 && IsHexDigit(d[0])
    ensures r.Some? ==> r.value >= 0
  {
    var k := LeadingHexDigits(d);
    if k == 0 then None else Some(HexValue(d[..k]))
  }

  /** A hexadecimal digit is neither white space nor a sign. */
  lemma HexDigitStartsNumber(s: string)
    requires |s| > 0 && IsHexDigit(s[0])
    ensures ParseIntHex(s) == ParseUnsigned(s)
  {
    assert TrimStart(s) == s;
  }

  /** `parseInt` of two hexadecimal digits is their byte value. */
  lemma ParseTwoHexDigits(s: string)
    requires |s| == 2 && IsHexDigit(s[0]) && IsHexDigit(s[1])
    ensures ParseIntHex(s) == Some(16 * HexDigitValue(s[0]) + HexDigitValue(s[1]))
    ensures 16 * HexDigitValue(s[0]) + HexDigitValue(s[1]) < 256
  {
    HexDigitStartsNumber(s);
    assert LeadingHexDigits(s) == 2 by {
      assert LeadingHexDigits(s[1..]) == 1 + LeadingHexDigits(s[2..]);
    }
    assert HexValue(s[..2]) == 16 * HexDigitValue(s[0]) + HexDigitValue(s[1]) by {
      assert s[..2] == s;
      assert s[..1][..0] == [];
      assert HexValue(s[..1]) == HexDigitValue(s[0]);
      assert HexValue(s) == 16 * HexValue(s[..1]) + HexDigitValue(s[1]);
    }
  }

  /** A lone hexadecimal digit parses as its value. */
  lemma ParseOneHexDigit(s: string)
    requires |s| == 1 && IsHexDigit(s[0])
    ensures ParseIntHex(s) == Some(HexDigitValue(s[0]))
  {
    HexDigitStartsNumber(s);
    assert LeadingHexDigits(s) == 1 by {
      assert s[1..] == [];
    }
    assert HexValue(s[..1]) == HexDigitValue(s[0]) by {
      assert s[..1] == s;
      assert s[..0] == [];
    }
  }

  /** `String(x)` for an integer or NaN. */
  function NumberText(x: Option<int>): (r: string)
    ensures x.Some? && x.value >= 0 ==> r == Decimal(x.value)
  {
    match x
    case None => "NaN"
    case Some(n) => if n < 0 then "-" + Decimal(-n) else Decimal(n)
  }
}
