/**
  The string conversions the services rely on: `str.split` and `join` on one character, `bytes.hex` and
  `bytes.fromhex`, decimal literals, `lower`. Strings are ASCII here.
*/
module Text {
  datatype Parsed<+T> = Bad | Ok(value: T)

  type Byte = b: int | 0 <= b < 256
  type Bytes = seq<Byte>

  // ---------- split and join ----------

  function Join(parts: seq<string>, sep: char): string
    requires parts != []
  {
    if |parts| == 1 then parts[0] else parts[0] + [sep] + Join(parts[1..], sep)
  }

  function Split(s: string, sep: char): (parts: seq<string>)
    ensures parts != [] && forall i | 0 <= i < |parts| :: sep !in parts[i]
    ensures Join(parts, sep) == s
  {
    if s == "" then [""]
    else
      var rest := Split(s[1..], sep);
      if s[0] == sep then [""] + rest
      else
        assert [[s[0]] + rest[0]] + rest[1..] != [];
        [[s[0]] + rest[0]] + rest[1..]
  }

  /** Splitting undoes joining for parts without the separator. */
  lemma {:induction false} SplitJoin(parts: seq<string>, sep: char)
    requires parts != [] && forall i | 0 <= i < |parts| :: sep !in parts[i]
    ensures Split(Join(parts, sep), sep) == parts
    decreases |parts|, |parts[0]|
  {
    var p, s := parts[0], Join(parts, sep);
    if p == "" {
      if |parts| > 1 {
        SplitJoin(parts[1..], sep);
        assert s[1..] == Join(parts[1..], sep);
      }
    } else {
      var shorter := [p[1..]] + parts[1..];
      assert shorter[1..] == parts[1..];
      assert s[1..] == Join(shorter, sep) by {
        if |parts| > 1 { assert s == p + ([sep] + Join(parts[1..], sep)); }
      }
      assert forall i | 0 <= i < |shorter| :: sep !in shorter[i];
      SplitJoin(shorter, sep);
      assert s[0] == p[0] && p == [p[0]] + p[1..] && parts == [p] + parts[1..];
    }
  }

  // ---------- hexadecimal ----------

  function HexDigit(n: int): (c: char)
    requires 0 <= n < 16
    ensures '0' <= c <= '9' || 'a' <= c <= 'f'
  {
    if n < 10 then '0' + (n as char) else 'a' + ((n - 10) as char)
  }

  function HexValue(c: char): Parsed<int> {
    if '0' <= c <= '9' then Ok((c - '0') as int)
    else if 'a' <= c <= 'f' then Ok((c - 'a') as int + 10)
    else if 'A' <= c <= 'F' then Ok((c - 'A') as int + 10)
    else Bad
  }

  predicate IsSpace(c: char) {
    c == ' ' || ('\t' <= c <= '\r')
  }

  /** `bytes.hex`. */
  function ToHex(b: Bytes): (s: string)
    ensures |s| == 2 * |b|
    ensures forall i | 0 <= i < |s| :: '0' <= s[i] <= '9' || 'a' <= s[i] <= 'f'
  {
    if b == [] then "" else [HexDigit(b[0] / 16), HexDigit(b[0] % 16)] + ToHex(b[1..])
  }

  /** `bytes.fromhex`: white space between bytes is skipped. */
  function FromHex(s: string): Parsed<Bytes> {
    if s == "" then Ok([])
    else if IsSpace(s[0]) then FromHex(s[1..])
    else if |s| < 2 || HexValue(s[0]).Bad? || HexValue(s[1]).Bad? then Bad
    else
      var rest := FromHex(s[2..]);
      if rest.Bad? then Bad else Ok([HexValue(s[0]).value * 16 + HexValue(s[1]).value] + rest.value)
  }

  lemma DigitRead(n: int)
    requires 0 <= n < 16
    ensures HexValue(HexDigit(n)) == Ok(n)
  {
  }

  lemma FromHexStep(c: char, d: char, tail: string)
    requires !IsSpace(c) && HexValue(c).Ok? && HexValue(d).Ok? && FromHex(tail).Ok?
    ensures FromHex([c, d] + tail) == Ok([HexValue(c).value * 16 + HexValue(d).value] + FromHex(tail).value)
  {
    assert ([c, d] + tail)[2..] == tail;
  }

  lemma {:induction false} HexRoundTrip(b: Bytes)
    ensures FromHex(ToHex(b)) == Ok(b)
  {
    if b != [] {
      HexRoundTrip(b[1..]);
      DigitRead(b[0] / 16);
      DigitRead(b[0] % 16);
      FromHexStep(HexDigit(b[0] / 16), HexDigit(b[0] % 16), ToHex(b[1..]));
      assert [b[0]] + b[1..] == b;
    }
  }

  predicate IsHexDigits(s: string) {
    forall i | 0 <= i < |s| :: '0' <= s[i] <= '9' || 'a' <= s[i] <= 'f'
  }

  lemma {:induction false} HexDigitsParse(s: string, tail: string)
    requires |s| % 2 == 0 && IsHexDigits(s) && (tail == "" || tail == "\n")
    ensures FromHex(s + tail).Ok? && 2 * |FromHex(s + tail).value| == |s|
  {
    if s == "" {
      assert s + tail == tail;
      assert FromHex("") == Ok([]);
      if tail == "\n" { assert tail[1..] == ""; }
    } else {
      assert (s + tail)[2..] == s[2..] + tail;
      HexDigitsParse(s[2..], tail);
    }
  }

  /** `^[0-9a-f]{32}$` with `match`: `$` also matches before one final newline. */
  predicate IsHexHash(s: string) {
    (|s| == 32 && IsHexDigits(s)) || (|s| == 33 && IsHexDigits(s[..32]) && s[32] == '\n')
  }

  lemma HexHashParses(s: string)
    requires IsHexHash(s)
    ensures FromHex(s).Ok? && |FromHex(s).value| == 16
  {
    if |s| == 32 {
      HexDigitsParse(s, "");
      assert s + "" == s;
    } else {
      HexDigitsParse(s[..32], "\n");
      assert s == s[..32] + "\n";
    }
  }

  function LowerChar(c: char): char {
    if 'A' <= c <= 'Z' then 'a' + (c - 'A') else c
  }

  /** `str.lower`. */
  function Lower(s: string): string {
    seq(|s|, i requires 0 <= i < |s| => LowerChar(s[i]))
  }

  const DIGITS := "0123456789abcdef"
  const UPPER := "ABCDEFGHIJKLMNOPQRSTUVWXYZ"
  const LOWER := "abcdefghijklmnopqrstuvwxyz"

  /** Each capital becomes its small letter, and nothing else changes. */
  lemma LowerExactly(c: char, i: nat)
    requires i < 26
    ensures LowerChar(UPPER[i]) == LOWER[i]
    ensures c !in UPPER ==> LowerChar(c) == c
  {
    if 'A' <= c <= 'Z' { assert UPPER[(c - 'A') as int] == c; }
  }

  lemma DigitSpelled(n: int)
    requires 0 <= n < 16
    ensures HexDigit(n) == DIGITS[n]
  {
  }

  /** A hexadecimal digit is one of the sixteen in either case, and its value is its place. */
  lemma HexValueExactly(c: char)
    ensures HexValue(c).Ok? <==> LowerChar(c) in DIGITS
    ensures HexValue(c).Ok? ==> 0 <= HexValue(c).value < 16 && DIGITS[HexValue(c).value] == LowerChar(c)
  {
    if HexValue(c).Ok? {
      var v := HexValue(c).value;
      DigitSpelled(v);
      assert DIGITS[v] == LowerChar(c);
    }
  }

  /** The two digits of each byte, the high one first. */
  lemma {:induction false} ToHexSpells(b: Bytes, i: nat)
    requires i < |b|
    ensures ToHex(b)[2 * i] == DIGITS[b[i] / 16] && ToHex(b)[2 * i + 1] == DIGITS[b[i] % 16]
  {
    if i == 0 {
      DigitSpelled(b[0] / 16);
      DigitSpelled(b[0] % 16);
    } else {
      ToHexSpells(b[1..], i - 1);
      assert ToHex(b)[2..] == ToHex(b[1..]);
    }
  }

  /** Hexadecimal digits are read in either case. */
  lemma {:induction false} FromHexLower(s: string)
    ensures FromHex(Lower(s)) == FromHex(s)
  {
    if s != "" {
      var l := Lower(s);
      assert l[1..] == Lower(s[1..]);
      FromHexLower(s[1..]);
      if |s| >= 2 {
        assert l[2..] == Lower(s[2..]);
        FromHexLower(s[2..]);
        assert HexValue(l[0]) == HexValue(s[0]) && HexValue(l[1]) == HexValue(s[1]);
      }
    }
  }

  lemma DigitsDiffer(i: nat, j: nat)
    requires i < 16 && j < 16 && DIGITS[i] == DIGITS[j]
    ensures i == j
  {
    DigitSpelled(i);
    DigitSpelled(j);
  }

  lemma PlaceOf(c: char, i: nat)
    requires i < 16
    ensures LowerChar(c) == DIGITS[i] ==> HexValue(c) == Ok(i)
    ensures HexValue(c).Ok? <==> LowerChar(c) in DIGITS
  {
    HexValueExactly(c);
    if LowerChar(c) == DIGITS[i] { DigitsDiffer(HexValue(c).value, i); }
  }

  lemma PairParses(c: char, d: char)
    requires !IsSpace(c)
    ensures FromHex([c, d]).Ok? <==> HexValue(c).Ok? && HexValue(d).Ok?
    ensures FromHex([c, d]).Ok? ==> FromHex([c, d]) == Ok([HexValue(c).value * 16 + HexValue(d).value])
  {
    assert [c, d][2..] == "" && FromHex("") == Ok([]);
    if HexValue(c).Ok? && HexValue(d).Ok? {
      var b: Bytes := [HexValue(c).value * 16 + HexValue(d).value];
      assert b + [] == b;
    }
  }

  /** A byte is spelled by its two digits in either case, the high one first, and by nothing else. */
  lemma FromHexByte(c: char, d: char, i: nat, j: nat)
    requires !IsSpace(c) && i < 16 && j < 16
    ensures FromHex([c, d]).Ok? <==> LowerChar(c) in DIGITS && LowerChar(d) in DIGITS
    ensures LowerChar(c) == DIGITS[i] && LowerChar(d) == DIGITS[j] ==> FromHex([c, d]) == Ok([16 * i + j])
  {
    PairParses(c, d);
    PlaceOf(c, i);
    PlaceOf(d, j);
  }

  // ---------- decimal ----------

  predicate IsDigit(c: char) {
    '0' <= c <= '9'
  }

  function Decimal(n: nat): (s: string)
    ensures s != "" && forall i | 0 <= i < |s| :: IsDigit(s[i])
  {
    if n < 10 then [HexDigit(n)] else Decimal(n / 10) + [HexDigit(n % 10)]
  }

  /** White space to `int`, which also strips the four separator controls. */
  predicate IsBlank(c: char) {
    IsSpace(c) || '\U{1C}' <= c <= '\U{1F}'
  }

  function Strip(s: string): string {
    if s != "" && IsBlank(s[0]) then Strip(s[1..])
    else if s != "" && IsBlank(s[|s| - 1]) then Strip(s[..|s| - 1])
    else s
  }

  /** Digits, with single underscores allowed between two of them. */
  predicate IsLiteral(s: string) {
    && s != "" && IsDigit(s[0]) && IsDigit(s[|s| - 1])
    && forall i | 0 <= i < |s| :: IsDigit(s[i]) || (s[i] == '_' && 0 < i && s[i - 1] != '_')
  }

  function LiteralValue(s: string): nat {
    if s == "" then 0
    else if IsDigit(s[|s| - 1]) then LiteralValue(s[..|s| - 1]) * 10 + (s[|s| - 1] - '0') as int
    else LiteralValue(s[..|s| - 1])
  }

  /** `int(s)`: surrounding white space, a sign, a literal. */
  function ParseInt(s: string): Parsed<int> {
    var t := Strip(s);
    var digits := if t != "" && (t[0] == '-' || t[0] == '+') then t[1..] else t;
    if !IsLiteral(digits) then Bad
    else
      var n: int := LiteralValue(digits);
      Ok(if t[0] == '-' then -n else n)
  }

  lemma {:induction false} DecimalValue(n: nat)
    ensures LiteralValue(Decimal(n)) == n
  {
    var s := Decimal(n);
    if n >= 10 {
      DecimalValue(n / 10);
      assert s[..|s| - 1] == Decimal(n / 10);
    } else {
      assert s[..0] == "";
    }
  }

  lemma DecimalRoundTrip(n: nat)
    ensures ParseInt(Decimal(n)) == Ok(n)
  {
    DecimalValue(n);
    var s := Decimal(n);
    assert !IsBlank(s[0]) && !IsBlank(s[|s| - 1]);
  }

  /** A sign, an underscore between digits and white space around are read. */
  lemma IntReads()
    ensures ParseInt("-1_0") == Ok(-10) && ParseInt("+7") == Ok(7)
    ensures ParseInt(" 7") == Ok(7) && ParseInt("7\n") == Ok(7)
  {
    assert "-1_0"[1..] == "1_0" && "1_0"[..2] == "1_" && "1_"[..1] == "1" && "1"[..0] == "";
    assert LiteralValue("1") == 1 && LiteralValue("1_") == 1 && LiteralValue("1_0") == 10;
    assert "+7"[1..] == "7" && "7"[..0] == "";
    assert " 7"[1..] == "7" && "7\n"[..1] == "7" && Strip("7") == "7";
    assert Strip("-1_0") == "-1_0" && IsLiteral("1_0") && IsLiteral("7");
  }

  /** Nothing, a bare sign, two underscores and other characters are not. */
  lemma IntRefuses()
    ensures ParseInt("").Bad? && ParseInt("-").Bad? && ParseInt("0x1").Bad? && ParseInt("1__0").Bad?
  {
    assert "-"[1..] == "";
    assert "0x1"[1] == 'x' && "1__0"[2] == '_' && "1__0"[1] == '_';
    assert Strip("0x1") == "0x1" && Strip("1__0") == "1__0";
  }
}
