/** Shared vocabulary of the model: optional values, results of a request
    handler, PHP's 64-bit integers and (int) cast, `explode`, JSON values as
    PHP decodes them, and the loose comparisons and truthiness PHP applies
    to them. */
module Common {

  datatype Option<+T> = None | Some(value: T)

  /** Why a request handler stopped before returning normally. */
  datatype Failure =
    | TelegramRaised(description: string)   // TelegramResponseException with this message
    | RuntimeError(what: string)             // TypeError, ErrorException, null dereference

  datatype Result<+T> = Ok(value: T) | Err(failure: Failure)

  // ---------------------------------------------------------------------
  // PHP integers

  const MinInt64: int := -0x8000_0000_0000_0000
  const MaxInt64: int := 0x7FFF_FFFF_FFFF_FFFF

  /** PHP's `int` on a 64-bit platform: database ids and Telegram ids. */
  type Int64 = x: int | MinInt64 <= x <= MaxInt64

  predicate IsDigit(c: char) { '0' <= c <= '9' }

  predicate AllDigits(s: string) { forall i :: 0 <= i < |s| ==> IsDigit(s[i]) }

  function DigitChar(d: nat): (c: char)
    requires d < 10
    ensures IsDigit(c) && c as int - '0' as int == d
  {
    "0123456789"[d]
  }

  /** Decimal digits of `n`, most significant first, no leading zeros. */
  function NatToString(n: nat): (s: string)
    ensures |s| > 0 && AllDigits(s)
    ensures s[0] == '0' ==> n == 0
  {
    if n < 10 then [DigitChar(n)] else NatToString(n / 10) + [DigitChar(n % 10)]
  }

  /** PHP's string interpolation of an int: `"{$id}"`. */
  function IntToString(i: int): (s: string)
    ensures |s| > 0
    ensures forall k :: 0 <= k < |s| ==> IsDigit(s[k]) || s[k] == '-'
  {
    if i < 0 then "-" + NatToString(-i) else NatToString(i)
  }

  /** Value of a string of decimal digits. */
  function DigitsValue(s: string): nat
    requires AllDigits(s)
  {
    if s == [] then 0
    else DigitsValue(s[..|s| - 1]) * 10 + (s[|s| - 1] as int - '0' as int)
  }

  /** The longest prefix of `s` made of decimal digits. */
  function DigitPrefix(s: string): (p: string)
    ensures AllDigits(p) && |p| <= |s|
  {
    if s == [] || !IsDigit(s[0]) then [] else [s[0]] + DigitPrefix(s[1..])
  }

  predicate IsPhpWhitespace(c: char)
  {
    c == ' ' || c == '\t' || c == '\n' || c == '\r' || c == '\U{B}' || c == '\U{C}'
  }

  function SkipWhitespace(s: string): (r: string)
    ensures |r| <= |s|
    ensures r == [] || !IsPhpWhitespace(r[0])
  {
    if s != [] && IsPhpWhitespace(s[0]) then SkipWhitespace(s[1..]) else s
  }

  function Clamp64(x: int): Int64
  {
    if x < MinInt64 then MinInt64 else if x > MaxInt64 then MaxInt64 else x
  }

  /** The signed value of an optional sign followed by the longest digit run. */
  function SignedDigitsValue(t: string): int
  {
    if t != [] && t[0] == '-' then -(DigitsValue(DigitPrefix(t[1..])) as int)
    else if t != [] && t[0] == '+' then DigitsValue(DigitPrefix(t[1..]))
    else DigitsValue(DigitPrefix(t))
  }

  /** PHP's `(int) $s` on a string: leading whitespace is skipped, an optional
      sign and the longest run of digits after it are read, anything after
      them is ignored, no digits give 0, and out-of-range values saturate. */
  function PhpIntCast(s: string): (r: Int64)
    ensures var u := SkipWhitespace(s);
      (u == [] || (!IsDigit(u[0]) && u[0] != '-' && u[0] != '+')) ==> r == 0
  {
    Clamp64(SignedDigitsValue(SkipWhitespace(s)))
  }

  lemma {:induction false} DigitsValueOfNatToString(n: nat)
    ensures DigitsValue(NatToString(n)) == n
  {
    if n >= 10 {
      var s := NatToString(n);
      assert s[..|s| - 1] == NatToString(n / 10);
      DigitsValueOfNatToString(n / 10);
    }
  }

  lemma {:induction false} DigitPrefixThen(digits: string, rest: string)
    requires AllDigits(digits)
    requires rest == [] || !IsDigit(rest[0])
    ensures DigitPrefix(digits + rest) == digits
  {
    if digits == [] {
    } else {
      assert (digits + rest)[1..] == digits[1..] + rest;
      DigitPrefixThen(digits[1..], rest);
    }
  }

  lemma SkipWhitespaceNone(s: string)
    requires s != [] && !IsPhpWhitespace(s[0])
    ensures SkipWhitespace(s) == s
  {
  }

  /** A digit run followed by a non-digit reads as the run's value. */
  lemma ReadDigitsThen(digits: string, rest: string)
    requires AllDigits(digits) && digits != []
    requires rest == [] || !IsDigit(rest[0])
    ensures SkipWhitespace(digits + rest) == digits + rest
    ensures SignedDigitsValue(digits + rest) == DigitsValue(digits)
  {
    var s := digits + rest;
    assert SkipWhitespace(s) == s by {
      assert s[0] == digits[0];
      SkipWhitespaceNone(s);
    }
    assert SignedDigitsValue(s) == DigitsValue(DigitPrefix(s)) by {
      assert s[0] == digits[0];
    }
    DigitPrefixThen(digits, rest);
  }

  /** A minus sign, a digit run and a non-digit read as the run's value
      negated. */
  lemma ReadNegativeDigitsThen(digits: string, rest: string)
    requires AllDigits(digits)
    requires rest == [] || !IsDigit(rest[0])
    ensures SkipWhitespace("-" + (digits + rest)) == "-" + (digits + rest)
    ensures SignedDigitsValue("-" + (digits + rest)) == -(DigitsValue(digits) as int)
  {
    var t := digits + rest;
    var s := "-" + t;
    assert SkipWhitespace(s) == s by {
      assert s[0] == '-';
      SkipWhitespaceNone(s);
    }
    assert SignedDigitsValue(s) == -(DigitsValue(DigitPrefix(t)) as int) by {
      assert s[0] == '-';
      assert s[1..] == t;
    }
    DigitPrefixThen(digits, rest);
  }

  /** A string without leading whitespace whose sign and digits denote an
      Int64 casts to that Int64. */
  lemma CastOfRead(s: string, v: Int64)
    requires SkipWhitespace(s) == s && SignedDigitsValue(s) == v
    ensures PhpIntCast(s) == v
  {
  }

  /** `(int)` reads an interpolated int back from the front of a string, up to
      the first character that is not a digit. */
  lemma CastOfIntToStringThen(i: Int64, rest: string)
    requires rest == [] || !IsDigit(rest[0])
    ensures PhpIntCast(IntToString(i) + rest) == i
  {
    if i < 0 {
      var m: nat := -(i as int);
      assert IntToString(i) + rest == "-" + (NatToString(m) + rest);
      ReadNegativeDigitsThen(NatToString(m), rest);
      DigitsValueOfNatToString(m);
      CastOfRead(IntToString(i) + rest, i);
    } else {
      ReadDigitsThen(NatToString(i), rest);
      DigitsValueOfNatToString(i);
      CastOfRead(IntToString(i) + rest, i);
    }
  }

  /** An int interpolated between a fixed prefix and a text that does not
      start with a digit is read back by `(int)` after the prefix. */
  lemma CastAfterPrefix(prefix: string, i: Int64, rest: string)
    requires rest == [] || !IsDigit(rest[0])
    ensures StartsWith(prefix + (IntToString(i) + rest), prefix)
    ensures PhpIntCast((prefix + (IntToString(i) + rest))[|prefix|..]) == i
  {
    var t := IntToString(i) + rest;
    assert (prefix + t)[..|prefix|] == prefix;
    assert (prefix + t)[|prefix|..] == t;
    CastOfIntToStringThen(i, rest);
  }

  /** Casting an interpolated int back with `(int)` gives the int again. */
  lemma CastOfIntToString(i: Int64)
    ensures PhpIntCast(IntToString(i)) == i
  {
    assert IntToString(i) + [] == IntToString(i);
    CastOfIntToStringThen(i, []);
  }

  lemma {:induction false} NatToStringInjective(m: nat, n: nat)
    requires NatToString(m) == NatToString(n)
    ensures m == n
  {
    DigitsValueOfNatToString(m);
    DigitsValueOfNatToString(n);
  }

  /** The decimal spelling of an id identifies it. */
  lemma IntToStringInjective(i: int, j: int)
    requires IntToString(i) == IntToString(j)
    ensures i == j
  {
    var s := IntToString(i);
    if i < 0 && j < 0 {
      var m: nat, n: nat := -i, -j;
      assert s == "-" + NatToString(m) == "-" + NatToString(n);
      assert NatToString(m) == s[1..] == NatToString(n);
      NatToStringInjective(m, n);
    } else if i >= 0 && j >= 0 {
      NatToStringInjective(i, j);
    }
  }

  /** `s` when it is exactly the decimal spelling of a 64-bit int. */
  function CanonicalInt(s: string): (r: Option<Int64>)
    ensures r.Some? ==> IntToString(r.value) == s
  {
    var n := PhpIntCast(s);
    if IntToString(n) == s then Some(n) else None
  }

  /** Every 64-bit int is recovered from its decimal spelling. */
  lemma CanonicalIntOfIntToString(i: Int64)
    ensures CanonicalInt(IntToString(i)) == Some(i)
  {
    CastOfIntToString(i);
  }

  // ---------------------------------------------------------------------
  // Strings

  predicate StartsWith(s: string, prefix: string)
  {
    |prefix| <= |s| && s[..|prefix|] == prefix
  }

  /** `str_contains($s, $sub)`. */
  predicate Contains(s: string, sub: string)
    decreases |s|
  {
    StartsWith(s, sub) || (s != [] && Contains(s[1..], sub))
  }

  lemma {:induction false} ContainsMiddle(a: string, sub: string, b: string)
    ensures Contains(a + sub + b, sub)
  {
    if a == [] {
      assert (a + sub + b)[..|sub|] == sub;
    } else {
      ContainsMiddle(a[1..], sub, b);
      assert (a + sub + b)[1..] == a[1..] + sub + b;
    }
  }

  /** `explode('_', $s)`: the pieces between underscores, in order. */
  function Explode(s: string): (parts: seq<string>)
    ensures |parts| >= 1
    ensures forall k :: 0 <= k < |parts| ==> '_' !in parts[k]
  {
    if s == [] then [""]
    else if s[0] == '_' then [""] + Explode(s[1..])
    else
      var rest := Explode(s[1..]);
      [[s[0]] + rest[0]] + rest[1..]
  }

  /** `implode('_', $parts)`. */
  function Implode(parts: seq<string>): string
    requires |parts| >= 1
  {
    if |parts| == 1 then parts[0] else parts[0] + "_" + Implode(parts[1..])
  }

  /** Joining the pieces of `explode` gives the original string back. */
  lemma {:induction false} ImplodeExplode(s: string)
    ensures Implode(Explode(s)) == s
  {
    if s != [] {
      ImplodeExplode(s[1..]);
      var rest := Explode(s[1..]);
      if s[0] != '_' && |rest| > 1 {
        assert Explode(s)[1..] == rest[1..];
      }
    }
  }

  /** The number of underscores in `s`. */
  function Underscores(s: string): nat
  {
    if s == [] then 0 else (if s[0] == '_' then 1 else 0) + Underscores(s[1..])
  }

  /** `explode` gives one piece more than there are underscores. */
  lemma {:induction false} ExplodeCount(s: string)
    ensures |Explode(s)| == Underscores(s) + 1
  {
    if s != [] {
      ExplodeCount(s[1..]);
    }
  }

  /** The first piece is `w`, with more pieces after it, exactly when `s`
      starts with `w` and an underscore. */
  lemma {:induction false} ExplodeHead(s: string, w: string)
    requires '_' !in w
    ensures (|Explode(s)| >= 2 && Explode(s)[0] == w) <==> StartsWith(s, w + "_")
  {
    if s != [] && s[0] != '_' {
      var rest := Explode(s[1..]);
      if w != [] {
        ExplodeHead(s[1..], w[1..]);
        assert (w + "_")[1..] == w[1..] + "_";
        assert [s[0]] + rest[0] == w <==> s[0] == w[0] && rest[0] == w[1..];
        assert StartsWith(s, w + "_") <==> s[0] == w[0] && StartsWith(s[1..], w[1..] + "_");
      } else {
        assert Explode(s)[0] != w;
      }
    } else if s != [] && w != [] {
      assert w[0] != s[0];
    }
  }

  /** A piece without underscores followed by an underscore is split off whole. */
  lemma {:induction false} ExplodeCons(a: string, b: string)
    requires '_' !in a
    ensures Explode(a + "_" + b) == [a] + Explode(b)
  {
    if a != [] {
      var s := a + "_" + b;
      assert s[0] == a[0] && s[0] != '_';
      assert s[1..] == a[1..] + "_" + b;
      ExplodeCons(a[1..], b);
      var rest := Explode(s[1..]);
      assert rest[0] == a[1..] && rest[1..] == Explode(b);
      assert [s[0]] + rest[0] == a;
    }
  }

  lemma {:induction false} ExplodeWhole(a: string)
    requires '_' !in a
    ensures Explode(a) == [a]
  {
    if a != [] {
      assert a[0] != '_';
      ExplodeWhole(a[1..]);
      assert [a[0]] + a[1..] == a;
    }
  }

  /** `str_replace($pattern, '', $s)`: every occurrence, scanning left to right. */
  function RemoveAll(s: string, pattern: string): (r: string)
    requires |pattern| > 0
    ensures |r| <= |s|
    decreases |s|
  {
    if s == [] then []
    else if StartsWith(s, pattern) then RemoveAll(s[|pattern|..], pattern)
    else [s[0]] + RemoveAll(s[1..], pattern)
  }

  lemma {:induction false} RemoveAllAbsent(s: string, pattern: string)
    requires |pattern| > 0 && pattern[0] !in s
    ensures RemoveAll(s, pattern) == s
  {
    if s != [] {
      assert s[0] != pattern[0];
      RemoveAllAbsent(s[1..], pattern);
    }
  }

  /** PHP truthiness of a string: `""` and `"0"` are false. */
  predicate TruthyString(s: string) { s != "" && s != "0" }

  // ---------------------------------------------------------------------
  // JSON values as decoded by json_decode(..., true)

  datatype Json =
    | JNull
    | JBool(b: bool)
    | JNum(n: int)
    | JStr(s: string)
    | JArr(items: seq<Json>)
    | JObj(fields: map<string, Json>)

  /** PHP truthiness of a decoded JSON value. */
  predicate Truthy(v: Json)
  {
    match v
    case JNull => false
    case JBool(b) => b
    case JNum(n) => n != 0
    case JStr(s) => TruthyString(s)
    case JArr(xs) => |xs| > 0
    case JObj(m) => |m| > 0
  }

  /** PHP 8's loose `$v == 'word'` for a literal that is not a numeric string:
      only the equal string and `true` compare equal. */
  predicate LooseEqualsWord(v: Json, word: string)
    requires word != "" && !AllDigits(word)
  {
    match v
    case JStr(s) => s == word
    case JBool(b) => b
    case _ => false
  }
}
