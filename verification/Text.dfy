/** Scanning and printing of text: words, constants, white space and numbers
    (`src/parser.c`). A text stands for a C string: its end is the terminating NUL. */
module Texts {
  import opened Options

  const WORD_ENDS := " \t\r\n<>[][()\"'"
  const ENUM_ENDS := " \t\r\n<>[][()\"'.:;!?"

  predicate IsSpace(c: char) {
    c == ' ' || c == '\t' || c == '\n' || c == '\r' || c == '\U{0B}' || c == '\U{0C}'
  }

  predicate IsDigit(c: char) {
    '0' <= c <= '9'
  }

  /** The text after its leading white space. */
  function SkipSpace(text: string): (rest: string)
    ensures |rest| <= |text| && rest == text[|text| - |rest|..]
  {
    if text == "" || !IsSpace(text[0]) then text else SkipSpace(text[1..])
  }

  // ----- words -----

  /** The length of the longest prefix without a delimiter. */
  function WordLength(text: string, ends: string): (n: nat)
    ensures n <= |text|
    ensures forall k :: 0 <= k < n ==> text[k] !in ends
    ensures n < |text| ==> text[n] in ends
  {
    if text == "" || text[0] in ends then 0 else 1 + WordLength(text[1..], ends)
  }

  lemma {:induction false} WordLengthIs(text: string, ends: string, n: nat)
    requires n <= |text| && (forall k :: 0 <= k < n ==> text[k] !in ends) && (n < |text| ==> text[n] in ends)
    ensures WordLength(text, ends) == n
  {
    if n > 0 {
      WordLengthIs(text[1..], ends, n - 1);
    }
  }

  /** What is read up to the delimiters: the number of characters, or nothing. A constant
      is first skipped, then the word is read to its end, then the two are compared. */
  function Until(text: string, constant: Option<string>, ends: string): (r: Option<nat>)
    ensures r.Some? ==> 0 < r.value <= |text|
  {
    var len := if constant.Some? then |constant.value| else 0;
    if len > |text| then None
    else
      var n := len + WordLength(text[len..], ends);
      if n == 0 || (constant.Some? && (len != n || text[..len] != constant.value)) then None else Some(n)
  }

  /** The text starts with the word, and the word ends there. */
  predicate StartsWithWord(text: string, word: string, ends: string) {
    word != "" && word <= text && (|text| == |word| || text[|word|] in ends)
  }

  /** A constant is read exactly if the text starts with it and it is not the start of a
      longer word; the characters of the constant itself are not searched for delimiters. */
  lemma ConstantIff(text: string, constant: string, ends: string)
    ensures Until(text, Some(constant), ends)
            == if StartsWithWord(text, constant, ends) then Some(|constant|) else None
  {
    if |constant| <= |text| {
      var n := WordLength(text[|constant|..], ends);
      if |constant| < |text| {
        assert text[|constant|..][0] == text[|constant|];
      }
      assert constant <= text <==> text[..|constant|] == constant;
    }
  }

  /** Reading a word gives the longest non-empty prefix without a delimiter. */
  lemma WordIff(text: string, word: string, ends: string)
    requires forall c :: c in word ==> c !in ends
    ensures StartsWithWord(text, word, ends) <==> Until(text, None, ends) == Some(|word|) && text[..|word|] == word
  {
    assert text[0..] == text;
    var n := WordLength(text, ends);
    if StartsWithWord(text, word, ends) {
      WordLengthIs(text, ends, |word|);
    }
  }

  /** The scan: each delimiter is searched from behind the constant, and the nearest one ends the word. */
  method ParseUntil(text: string, constant: Option<string>, ends: string) returns (r: Option<nat>)
    requires ends != ""
    ensures r == Until(text, constant, ends)
  {
    var len: nat := 0;
    if constant.Some? {
      len := |constant.value|;
      if len > |text| {
        return None;
      }
    }
    var pos: Option<nat> := None;
    var i := 0;
    while i < |ends|
      invariant 0 <= i <= |ends| && (i == 0 <==> pos == None)
      invariant pos.Some? ==> len <= pos.value <= |text| && Nearest(text, len, pos.value, ends[..i])
    {
      var tmp := len;
      while tmp < |text| && text[tmp] != ends[i]
        invariant len <= tmp <= |text| && forall k :: len <= k < tmp ==> text[k] != ends[i]
      {
        tmp := tmp + 1;
      }
      NearestAdds(text, len, pos, tmp, ends[..i], ends[i]);
      assert ends[..i] + [ends[i]] == ends[..i + 1];
      if pos == None || tmp < pos.value {
        pos := Some(tmp);
      }
      i := i + 1;
    }
    assert ends[..i] == ends;
    NearestIsWord(text, len, pos.value, ends);
    var n := pos.value;
    if n == 0 {
      return None;
    }
    if constant.Some? && (len != n || text[..len] != constant.value) {
      return None;
    }
    return Some(n);
  }

  /** `pos` is the first of the delimiters seen so far, or the end of the text. */
  predicate Nearest(text: string, from: nat, pos: nat, seen: string) {
    from <= pos <= |text| && (forall k :: from <= k < pos ==> text[k] !in seen) && (pos < |text| ==> text[pos] in seen)
  }

  lemma NearestAdds(text: string, from: nat, pos: Option<nat>, tmp: nat, seen: string, c: char)
    requires pos.Some? ==> Nearest(text, from, pos.value, seen)
    requires pos == None ==> seen == ""
    requires from <= tmp <= |text| && (forall k :: from <= k < tmp ==> text[k] != c) && (tmp < |text| ==> text[tmp] == c)
    ensures Nearest(text, from, if pos == None || tmp < pos.value then tmp else pos.value, seen + [c])
  {
    var n := if pos == None || tmp < pos.value then tmp else pos.value;
    forall k | from <= k < n ensures text[k] !in seen + [c] {
    }
  }

  lemma NearestIsWord(text: string, from: nat, pos: nat, ends: string)
    requires Nearest(text, from, pos, ends)
    ensures WordLength(text[from..], ends) == pos - from
  {
    WordLengthIs(text[from..], ends, pos - from);
  }

  // ----- numbers -----

  /** The number of digits at the start of a text. */
  function DigitCount(text: string): (n: nat)
    ensures n <= |text|
  {
    if text == "" || !IsDigit(text[0]) then 0 else 1 + DigitCount(text[1..])
  }

  /** The value of a row of digits. */
  function DigitsValue(digits: string): int {
    if digits == "" then 0 else 10 * DigitsValue(digits[..|digits| - 1]) + (digits[|digits| - 1] as int - '0' as int)
  }

  const INT64_MAX := 0x7fff_ffff_ffff_ffff

  /** The value that `strtol` (section 7.22.1.4 of ISO/IEC 9899) gives, stored in an `int` of 32 bits. */
  function Stored(value: int): (r: int)
    ensures -0x8000_0000 <= r < 0x8000_0000
    ensures -0x8000_0000 <= value < 0x8000_0000 ==> r == value
  {
    var long := if value > INT64_MAX then INT64_MAX else if value < -INT64_MAX - 1 then -INT64_MAX - 1 else value;
    (long + 0x8000_0000) % 0x1_0000_0000 - 0x8000_0000
  }

  datatype Integer = Integer(length: nat, value: int)

  /** An integer at the start of a text: a minus sign or none, and at least one digit. */
  function Int(text: string): (r: Option<Integer>)
    ensures r.Some? ==> 0 < r.value.length <= |text| && -0x8000_0000 <= r.value.value < 0x8000_0000
  {
    var sign := if text != "" && text[0] == '-' then 1 else 0;
    var n := DigitCount(text[sign..]);
    if n == 0 then None
    else
      var v := DigitsValue(text[sign..sign + n]);
      Some(Integer(sign + n, Stored(if sign == 1 then -v else v)))
  }

  function Digit(d: int): char
    requires 0 <= d < 10
  {
    ('0' as int + d) as char
  }

  function Digits(n: nat): string {
    if n < 10 then [Digit(n)] else Digits(n / 10) + [Digit(n % 10)]
  }

  /** What `%d` prints. */
  function Decimal(n: int): string {
    if n < 0 then "-" + Digits(-n) else Digits(n)
  }

  lemma {:induction false} DigitsAreDigits(n: nat)
    ensures Digits(n) != "" && (forall c :: c in Digits(n) ==> IsDigit(c)) && DigitsValue(Digits(n)) == n
  {
    if n >= 10 {
      DigitsAreDigits(n / 10);
      var digits := Digits(n);
      assert digits[..|digits| - 1] == Digits(n / 10);
      assert digits[|digits| - 1] == Digit(n % 10);
    } else {
      assert Digits(n)[..0] == "";
    }
  }

  lemma {:induction false} DigitCountIs(digits: string, rest: string)
    requires (forall c :: c in digits ==> IsDigit(c)) && (rest == "" || !IsDigit(rest[0]))
    ensures DigitCount(digits + rest) == |digits|
  {
    if digits != "" {
      assert (digits + rest)[1..] == digits[1..] + rest;
      DigitCountIs(digits[1..], rest);
    } else {
      assert digits + rest == rest;
    }
  }

  /** Every `int` is read back from what is printed for it, up to the end of its digits. */
  lemma DecimalRoundTrip(n: int, rest: string)
    requires -0x8000_0000 <= n < 0x8000_0000 && (rest == "" || !IsDigit(rest[0]))
    ensures Int(Decimal(n) + rest) == Some(Integer(|Decimal(n)|, n))
  {
    hide DigitsValue, DigitCount, Digits;
    var m := if n < 0 then -n else n;
    var digits := Digits(m);
    DigitsAreDigits(m);
    DigitCountIs(digits, rest);
    assert IsDigit(digits[0]);
    if n < 0 {
      assert ("-" + digits + rest)[1..] == digits + rest;
      assert ("-" + digits + rest)[1..1 + |digits|] == digits;
    } else {
      assert (digits + rest)[0..] == digits + rest;
      assert (digits + rest)[0..|digits|] == digits;
    }
  }

  function Tens(i: nat): (p: nat)
    ensures 1 <= p
  {
    if i == 0 then 1 else 10 * Tens(i - 1)
  }

  /** The digits of a number are decimal digits: the one `i` places from the right is the number of
      its tens, hundreds and so on, and the first is not 0 unless it stands alone. */
  lemma {:induction false} DigitsAreDecimal(n: nat, i: nat)
    requires i < |Digits(n)|
    ensures Digits(n)[|Digits(n)| - 1 - i] as int == '0' as int + n / Tens(i) % 10
    ensures |Digits(n)| > 1 ==> Digits(n)[0] != '0'
  {
    if n >= 10 {
      assert Digits(n) == Digits(n / 10) + [Digit(n % 10)];
      var m := |Digits(n / 10)|;
      DigitsAreDigits(n / 10);
      DigitsAreDecimal(n / 10, 0);
      if m == 1 {
        assert n / 10 < 10;
      }
      if i > 0 {
        DigitsAreDecimal(n / 10, i - 1);
        TenTimes(n, Tens(i - 1));
      } else {
        assert n / 1 == n;
      }
    } else {
      assert n / 1 == n;
    }
  }

  lemma TenTimes(n: nat, p: nat)
    requires 0 < p
    ensures n / (10 * p) == n / 10 / p
  {
    var q, r, low := n / 10 / p, n / 10 % p, n % 10;
    assert n / 10 == q * p + r;
    assert n == 10 * (q * p + r) + low;
    assert n == q * (10 * p) + (10 * r + low);
    QuotientIs(n, 10 * p, q, 10 * r + low);
  }

  lemma QuotientIs(n: nat, d: nat, q: nat, r: nat)
    requires 0 < d && r < d && n == q * d + r
    ensures n / d == q
  {
    var k := n / d;
    assert n == k * d + n % d;
    if k > q {
      Multiples(q + 1, k, d);
    } else if k < q {
      Multiples(k + 1, q, d);
    }
  }

  lemma Multiples(a: nat, b: nat, d: nat)
    requires a <= b
    ensures a * d <= b * d
  {
  }

  /** A number that does not fit is cut to 32 bits, after it was limited to 64. */
  lemma StoredOutside(value: int)
    ensures -INT64_MAX - 1 <= value <= INT64_MAX ==> (Stored(value) - value) % 0x1_0000_0000 == 0
    ensures value > INT64_MAX ==> Stored(value) == -1
    ensures value < -INT64_MAX - 1 ==> Stored(value) == 0
  {
  }

  /** A printed number is not read as a word of letters. */
  lemma DecimalStarts(n: int)
    ensures Decimal(n) != "" && (Decimal(n)[0] == '-' || IsDigit(Decimal(n)[0]))
  {
    DigitsAreDigits(if n < 0 then -n else n);
    var digits := Digits(if n < 0 then -n else n);
    assert digits[0] in digits;
  }
}
