/** JavaScript's number texts, split and join, and JSON string literals. */
module JsText {
  import opened Options

  // ---------------------------------------------------------------------
  // Decimal numbers
  // ---------------------------------------------------------------------

  predicate IsDigit(c: char) {
    '0' <= c <= '9'
  }

  function Digit(d: nat): (c: char)
    requires d < 10
    ensures IsDigit(c)
  {
    '0' + d as char
  }

  /** String(n) */
  function Decimal(n: nat): (s: string)
    ensures s != []
  {
    if n < 10 then [Digit(n)] else Decimal(n / 10) + [Digit(n % 10)]
  }

  /** The value of a string of digits. */
  function DigitsValue(s: string): nat
    requires forall c :: c in s ==> IsDigit(c)
  {
    if s == [] then 0
    else
      var last := s[|s| - 1];
      assert last in s && IsDigit(last);
      DigitsValue(s[..|s| - 1]) * 10 + (last as nat - '0' as nat)
  }

  /** The longest prefix of digits. */
  function LeadingDigits(s: string): (p: string)
    ensures |p| <= |s| && p == s[..|p|] && (forall c :: c in p ==> IsDigit(c))
    ensures |p| < |s| ==> !IsDigit(s[|p|])
  {
    if s == [] || !IsDigit(s[0]) then [] else [s[0]] + LeadingDigits(s[1..])
  }

  lemma {:induction false} DecimalRoundTrip(n: nat)
    ensures forall c :: c in Decimal(n) ==> IsDigit(c)
    ensures DigitsValue(Decimal(n)) == n
  {
    if n < 10 {
    } else {
      DecimalRoundTrip(n / 10);
      var s := Decimal(n);
      assert s[..|s| - 1] == Decimal(n / 10);
    }
  }

  lemma {:induction false} LeadingDigitsOf(digits: string, rest: string)
    requires forall c :: c in digits ==> IsDigit(c)
    requires rest != [] ==> !IsDigit(rest[0])
    ensures LeadingDigits(digits + rest) == digits
  {
    if digits != [] {
      assert (digits + rest)[1..] == digits[1..] + rest;
      LeadingDigitsOf(digits[1..], rest);
    } else {
      assert digits + rest == rest;
    }
  }

  predicate IsWhiteSpace(c: char) {
    || c in "\t\n\U{b}\U{c}\r \U{a0}\U{1680}\U{2028}\U{2029}\U{202f}\U{205f}\U{3000}\U{feff}"
    || '\U{2000}' <= c <= '\U{200a}'
  }

  /** White space and line terminators of ECMAScript, by code. */
  lemma WhiteSpaces(c: char)
    ensures IsWhiteSpace(c) <==>
      var code := c as int;
      || 9 <= code <= 13 || code == 32 || code == 160 || code == 5760 || 8192 <= code <= 8202 || code == 8232
      || code == 8233 || code == 8239 || code == 8287 || code == 12288 || code == 65279
  {
  }

  /** parseInt(s, 10); None is NaN. */
  function ParseInt(s: string): Option<int> {
    if s != [] && IsWhiteSpace(s[0]) then ParseInt(s[1..])
    else
      var sign := s != [] && s[0] in "+-";
      var digits := LeadingDigits(if sign then s[1..] else s);
      var value: int := DigitsValue(digits);
      if digits == [] then None else if sign && s[0] == '-' then Some(-value) else Some(value)
  }

  /** String(n) of an integer. */
  function IntText(n: int): string {
    if n >= 0 then Decimal(n) else "-" + Decimal(-n)
  }

  lemma ParseDecimal(n: nat, rest: string)
    requires rest != [] ==> !IsDigit(rest[0])
    ensures ParseInt(Decimal(n) + rest) == Some(n)
  {
    DecimalRoundTrip(n);
    LeadingDigitsOf(Decimal(n), rest);
    assert IsDigit(Decimal(n)[0]) && (Decimal(n) + rest)[0] == Decimal(n)[0];
  }

  lemma SignThenDigits(sign: char, t: string)
    requires (sign == '-' || sign == '+') && LeadingDigits(t) != []
    ensures
      var value: int := DigitsValue(LeadingDigits(t));
      ParseInt([sign] + t) == Some(if sign == '-' then -value else value)
  {
    hide LeadingDigits, DigitsValue;
    assert !IsWhiteSpace(sign);
    hide IsWhiteSpace;
    var u := [sign] + t;
    assert u[0] == sign && u[1..] == t;
  }

  lemma ParseSigned(n: nat, rest: string)
    requires rest != [] ==> !IsDigit(rest[0])
    ensures
      var value: int := n;
      ParseInt(['-'] + (Decimal(n) + rest)) == Some(-value) && ParseInt(['+'] + (Decimal(n) + rest)) == Some(value)
  {
    hide ParseInt, Decimal, LeadingDigits, DigitsValue;
    DecimalRoundTrip(n);
    LeadingDigitsOf(Decimal(n), rest);
    SignThenDigits('-', Decimal(n) + rest);
    SignThenDigits('+', Decimal(n) + rest);
  }

  lemma IntRoundTrip(n: int)
    ensures ParseInt(IntText(n)) == Some(n)
  {
    hide ParseInt, Decimal;
    if n >= 0 {
      ParseDecimal(n, []);
      assert Decimal(n) + [] == Decimal(n);
    } else {
      ParseSigned(-n, []);
      assert ['-'] + (Decimal(-n) + []) == "-" + Decimal(-n);
    }
  }

  /** Leading white space is skipped; anything else but a sign and digits is no number. */
  lemma ParseStarts(c: char, s: string)
    ensures IsWhiteSpace(c) ==> ParseInt([c] + s) == ParseInt(s)
    ensures !IsWhiteSpace(c) && c !in "+-" && !IsDigit(c) ==> ParseInt([c] + s) == None
    ensures ParseInt("") == None
  {
    assert ([c] + s)[1..] == s;
    hide IsWhiteSpace;
  }

  /** Decimal digits, the most significant first, without leading zeros. */
  lemma DecimalDigits(n: nat, d: nat)
    requires d < 10
    ensures Decimal(d) == ["0123456789"[d]]
    ensures n > 0 ==> Decimal(10 * n + d) == Decimal(n) + Decimal(d)
  {
  }

  lemma DecimalInjective(m: nat, n: nat)
    requires Decimal(m) == Decimal(n)
    ensures m == n
  {
    DecimalRoundTrip(m);
    DecimalRoundTrip(n);
  }

  /** A number in front of a non-digit is read off in one way only. */
  lemma DecimalPrefix(m: nat, n: nat, x: string, y: string)
    requires Decimal(m) + x == Decimal(n) + y
    requires x != [] && !IsDigit(x[0]) && y != [] && !IsDigit(y[0])
    ensures m == n && x == y
  {
    DecimalRoundTrip(m);
    DecimalRoundTrip(n);
    LeadingDigitsOf(Decimal(m), x);
    LeadingDigitsOf(Decimal(n), y);
    assert x == (Decimal(m) + x)[|Decimal(m)|..] && y == (Decimal(n) + y)[|Decimal(n)|..];
  }

  // ---------------------------------------------------------------------
  // split and join
  // ---------------------------------------------------------------------

  /** s.split(c) for a one-character separator. */
  function Split(s: string, c: char): (parts: seq<string>)
    ensures parts != []
    decreases |s|
  {
    if s == [] then [""]
    else if s[0] == c then [""] + Split(s[1..], c)
    else
      var rest := Split(s[1..], c);
      [[s[0]] + rest[0]] + rest[1..]
  }

  /** parts.join(c) */
  function Join(parts: seq<string>, c: char): string {
    if parts == [] then []
    else if |parts| == 1 then parts[0]
    else parts[0] + [c] + Join(parts[1..], c)
  }

  lemma {:induction false} SplitFirst(part: string, c: char, rest: string)
    requires c !in part
    ensures Split(part, c) == [part]
    ensures Split(part + [c] + rest, c) == [part] + Split(rest, c)
    decreases |part|
  {
    if part == [] {
      assert part + [c] + rest == [c] + rest;
    } else {
      var tail := part[1..];
      SplitFirst(tail, c, rest);
      assert (part + [c] + rest)[1..] == tail + [c] + rest;
      assert [part[0]] + tail == part;
      assert ([tail] + Split(rest, c))[1..] == Split(rest, c);
    }
  }

  lemma {:induction false} SplitJoin(parts: seq<string>, c: char)
    requires parts != [] && forall p :: p in parts ==> c !in p
    ensures Split(Join(parts, c), c) == parts
  {
    if |parts| == 1 {
      SplitFirst(parts[0], c, []);
    } else {
      SplitFirst(parts[0], c, Join(parts[1..], c));
      SplitJoin(parts[1..], c);
    }
  }

  // ---------------------------------------------------------------------
  // JSON string literals
  // ---------------------------------------------------------------------

  function HexDigit(d: nat): (c: char)
    requires d < 16
  {
    "0123456789abcdef"[d]
  }

  /** How JSON.stringify writes one character of a string. */
  function Escape(c: char): (e: string)
    ensures e != []
  {
    if c == '"' then "\\\""
    else if c == '\\' then "\\\\"
    else if c == '\U{8}' then "\\b"
    else if c == '\U{c}' then "\\f"
    else if c == '\n' then "\\n"
    else if c == '\r' then "\\r"
    else if c == '\t' then "\\t"
    else if c < ' ' then "\\u00" + [HexDigit(c as nat / 16), HexDigit(c as nat % 16)]
    else [c]
  }

  /** Section 2.5 of RFC 4627: the seven characters with an escape of their own, the other controls, and the rest. */
  lemma JsonEscapes(c: char, k: nat)
    requires k < 7
    ensures
      var special, letters := "\"\\\U{8}\U{c}\n\r\t", "\"\\bfnrt";
      && Escape(special[k]) == ['\\', letters[k]]
      && (c !in special ==>
            if c as int < 32 then Escape(c) == "\\u00" + ["01"[c as int / 16], "0123456789abcdef"[c as int % 16]]
            else Escape(c) == [c])
  {
  }

  function Escaped(s: string): string {
    if s == [] then [] else Escape(s[0]) + Escaped(s[1..])
  }

  function Quoted(s: string): string {
    "\"" + (Escaped(s) + "\"")
  }

  function QuotedOrNull(s: Option<string>): string {
    match s case None => "null" case Some(v) => Quoted(v)
  }

  /** Reads one escaped character back: the character and how many characters it took. */
  function Unescape(t: string): Option<(char, nat)> {
    if t == [] then None
    else if t[0] != '\\' then Some((t[0], 1))
    else if |t| < 2 then None
    else if t[1] == 'b' then Some(('\U{8}', 2))
    else if t[1] == 'f' then Some(('\U{c}', 2))
    else if t[1] == 'n' then Some(('\n', 2))
    else if t[1] == 'r' then Some(('\r', 2))
    else if t[1] == 't' then Some(('\t', 2))
    else if t[1] != 'u' then Some((t[1], 2))
    else if |t| < 6 then None
    else
      var high, low := HexValue(t[4]), HexValue(t[5]);
      Some(((high * 16 + low) as char, 6))
  }

  function HexValue(c: char): (v: nat)
    ensures v < 16
  {
    if '0' <= c <= '9' then (c - '0') as nat
    else if 'a' <= c <= 'f' then (c - 'a') as nat + 10
    else 0
  }

  lemma UnescapeEscape(c: char, rest: string)
    ensures Unescape(Escape(c) + rest) == Some((c, |Escape(c)|))
    ensures Escape(c)[0] != '"'
  {
  }

  /** The escape of a character is read off in one way only, and never looks like a closing quote. */
  lemma EscapePrefix(c: char, d: char, x: string, y: string)
    ensures Escape(c) + x == Escape(d) + y ==> c == d && x == y
    ensures Escape(c) + x != "\"" + y
  {
    UnescapeEscape(c, x);
    UnescapeEscape(d, y);
    hide Escape, Unescape;
    assert (Escape(c) + x)[0] == Escape(c)[0] && ("\"" + y)[0] == '"';
    if Escape(c) + x == Escape(d) + y {
      assert x == (Escape(c) + x)[|Escape(c)|..] && y == (Escape(d) + y)[|Escape(d)|..];
    }
  }

  /** A quoted text ends where it ends: nothing after it can be mistaken for part of it. */
  lemma {:induction false} EscapedPrefix(a: string, b: string, x: string, y: string)
    requires Escaped(a) + ("\"" + x) == Escaped(b) + ("\"" + y)
    ensures a == b && x == y
    decreases |a|
  {
    EscapedUnfold(a, x);
    EscapedUnfold(b, y);
    hide Escape, Escaped;
    if a == [] && b == [] {
      assert x == ("\"" + x)[1..] && y == ("\"" + y)[1..];
    } else if a == [] {
      EscapePrefix(b[0], b[0], Escaped(b[1..]) + ("\"" + y), x);
    } else if b == [] {
      EscapePrefix(a[0], a[0], Escaped(a[1..]) + ("\"" + x), y);
    } else {
      EscapePrefix(a[0], b[0], Escaped(a[1..]) + ("\"" + x), Escaped(b[1..]) + ("\"" + y));
      EscapedPrefix(a[1..], b[1..], x, y);
      assert a == [a[0]] + a[1..] && b == [b[0]] + b[1..];
    }
  }

  lemma EscapedUnfold(a: string, x: string)
    ensures a == [] ==> Escaped(a) + ("\"" + x) == "\"" + x
    ensures a != [] ==> Escaped(a) + ("\"" + x) == Escape(a[0]) + (Escaped(a[1..]) + ("\"" + x))
  {
    hide Escape;
  }

  lemma QuotedPrefix(a: string, b: string, x: string, y: string)
    requires Quoted(a) + x == Quoted(b) + y
    ensures a == b && x == y
  {
    QuotedUnfold(a, x);
    QuotedUnfold(b, y);
    hide Escaped, Quoted;
    var t, u := Escaped(a) + ("\"" + x), Escaped(b) + ("\"" + y);
    assert t == ("\"" + t)[1..] && u == ("\"" + u)[1..];
    EscapedPrefix(a, b, x, y);
  }

  lemma QuotedUnfold(a: string, x: string)
    ensures Quoted(a) + x == "\"" + (Escaped(a) + ("\"" + x))
    ensures (Quoted(a) + x)[0] == '"'
  {
    hide Escaped;
  }

  lemma FirstOfNull(rest: string)
    ensures ("null" + rest)[0] == 'n'
  {
  }

  lemma QuotedOrNullPrefix(a: Option<string>, b: Option<string>, x: string, y: string)
    requires QuotedOrNull(a) + x == QuotedOrNull(b) + y
    ensures a == b && x == y
  {
    if a.Some? && b.Some? {
      QuotedPrefix(a.value, b.value, x, y);
    } else if a.Some? {
      QuotedUnfold(a.value, x);
      FirstOfNull(y);
    } else if b.Some? {
      QuotedUnfold(b.value, y);
      FirstOfNull(x);
    } else {
      assert x == ("null" + x)[4..] && y == ("null" + y)[4..];
    }
  }
}
