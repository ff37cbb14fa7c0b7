/**
  Integers to decimal text, the way log_stream does it: Wilson's algorithm, which
  divides towards zero, never negates the value (so the most negative one works),
  writes the digits backwards and reverses them in place.
 */
module Decimal {
  import opened Sequences

  // ---------- C++ integer division ----------

  function Abs(x: int): nat {
    if x < 0 then -x else x
  }

  /** Division truncates towards zero; Dafny's own rounds down. */
  function TruncDiv(x: int, y: int): int
    requires y > 0
  {
    if x >= 0 then x / y else -((-x) / y)
  }

  function TruncMod(x: int, y: int): int
    requires y > 0
  {
    x - y * TruncDiv(x, y)
  }

  lemma DivideByTen(i: int)
    ensures Abs(TruncDiv(i, 10)) == Abs(i) / 10
    ensures Abs(TruncMod(i, 10)) == Abs(i) % 10
    ensures -9 <= TruncMod(i, 10) <= 9
  {
  }

  /** `zero[d]` is digits[9 + d]: the table reads the same in both directions. */
  const DIGITS: string := "9876543210123456789"

  function DigitChar(d: int): char
    requires -9 <= d <= 9
  {
    DIGITS[9 + d]
  }

  lemma DigitCharIsSymmetric(d: int)
    requires -9 <= d <= 9
    ensures DigitChar(d) == '0' + Abs(d) as char
  {
  }

  // ---------- Decimal text ----------

  predicate IsDigit(c: char) {
    '0' <= c <= '9'
  }

  predicate AllDigits(s: string) {
    forall i :: 0 <= i < |s| ==> IsDigit(s[i])
  }

  /** The usual notation: no leading zeros, "-" in front of negative numbers only. */
  predicate Canonical(s: string) {
    s == "0" || Unsigned(s) || (s != "" && s[0] == '-' && Unsigned(s[1..]))
  }

  predicate Unsigned(s: string) {
    s != "" && AllDigits(s) && s[0] != '0'
  }

  function Value(s: string): nat
    requires AllDigits(s)
  {
    if s == "" then 0 else 10 * Value(s[..|s| - 1]) + (s[|s| - 1] as int - '0' as int)
  }

  /** Reading decimal text, as strtoll would. */
  function Parse(s: string): (v: int)
    requires Canonical(s)
  {
    if s[0] == '-' then 0 - Value(s[1..]) else Value(s) as int
  }

  function Digits(n: nat): (s: string)
    ensures s != "" && AllDigits(s)
  {
    if n < 10 then ['0' + n as char] else Digits(n / 10) + ['0' + (n % 10) as char]
  }

  function Render(v: int): string {
    (if v < 0 then "-" else "") + Digits(Abs(v))
  }

  lemma {:induction false} ValueOfDigits(n: nat)
    ensures Value(Digits(n)) == n
    ensures n > 0 ==> Digits(n)[0] != '0'
    ensures n == 0 ==> Digits(n) == "0"
  {
    if n >= 10 {
      ValueOfDigits(n / 10);
      assert Digits(n)[..|Digits(n)| - 1] == Digits(n / 10);
    } else {
      assert Digits(n)[..0] == "";
    }
  }

  /** Formatting and parsing are inverse, for every integer. */
  lemma RoundTrip(v: int)
    ensures Canonical(Render(v)) && Parse(Render(v)) == v
    ensures Render(v)[0] == '-' <==> v < 0
  {
    ValueOfDigits(Abs(v));
    if v < 0 {
      assert Render(v)[1..] == Digits(-v);
    } else {
      assert Render(v) == Digits(v);
    }
  }

  lemma {:induction false} DigitsOfValue(s: string)
    requires Unsigned(s)
    ensures Value(s) > 0 && Digits(Value(s)) == s
  {
    var init, last := s[..|s| - 1], s[|s| - 1];
    if init == "" {
      assert s == [last];
    } else {
      assert Unsigned(init);
      DigitsOfValue(init);
      assert Value(s) / 10 == Value(init);
      assert s == init + [last];
    }
  }

  /** No other canonical text denotes the value. */
  lemma RenderIsTheOnlyText(s: string)
    requires Canonical(s)
    ensures Render(Parse(s)) == s
  {
    if s == "0" {
      assert s[..0] == "";
      ValueOfDigits(0);
    } else if s[0] == '-' {
      DigitsOfValue(s[1..]);
      assert s == "-" + s[1..];
    } else {
      DigitsOfValue(s);
    }
  }

  function Pow10(k: nat): nat {
    if k == 0 then 1 else 10 * Pow10(k - 1)
  }

  lemma {:induction false} DigitsLength(n: nat, k: nat)
    requires k > 0
    ensures |Digits(n)| <= k <==> n < Pow10(k)
    decreases k
  {
    if k > 1 && n >= 10 {
      DigitsLength(n / 10, k - 1);
    } else if n < 10 {
      PowPositive(k - 1);
    } else {
      assert Pow10(1) == 10;
    }
  }

  lemma PowPositive(k: nat)
    ensures Pow10(k) >= 1
  {
  }

  const INT64_MIN := -0x8000_0000_0000_0000
  const UINT64_MAX := 0xffff_ffff_ffff_ffff

  /** Every 64-bit value, signed or unsigned, takes at most 20 characters. */
  lemma SixtyFourBitLength(v: int)
    requires INT64_MIN <= v <= UINT64_MAX
    ensures |Render(v)| <= 20
  {
    assert Pow10(19) == 10000000000000000000 by {
      assert Pow10(5) == 100000;
      assert Pow10(10) == 10000000000;
      assert Pow10(15) == 1000000000000000;
    }
    assert Pow10(20) == 100000000000000000000;
    DigitsLength(Abs(v), if v < 0 then 19 else 20);
  }

  // ---------- The algorithm ----------

  /** `s` with `text` written over it from index `at` on. */
  function Overwrite(s: string, at: nat, text: string): (r: string)
    requires at + |text| <= |s|
    ensures |r| == |s|
  {
    s[..at] + text + s[at + |text|..]
  }

  lemma OverwriteNext(s: string, at: nat, text: string, c: char)
    requires at + |text| < |s|
    ensures Overwrite(s, at, text)[at + |text| := c] == Overwrite(s, at, text + [c])
  {
  }

  lemma OverwriteAgain(s: string, at: nat, text: string, rest: string, again: string)
    requires at + |text| + |rest| <= |s| && |again| == |text|
    ensures Overwrite(s, at, text + rest)[at..at + |text|] == text
    ensures Overwrite(Overwrite(s, at, text + rest), at, again) == Overwrite(s, at, again + rest)
  {
  }

  /** std::reverse(buf + lo, buf + hi) */
  method ReverseRange(buf: array<char>, lo: nat, hi: nat)
    requires lo <= hi <= buf.Length
    modifies buf
    ensures buf[..] == Overwrite(old(buf[..]), lo, Reverse(old(buf[lo..hi])))
  {
    var i, j := lo, hi;
    while i < j - 1
      invariant lo <= i <= j <= hi && i - lo == hi - j
      invariant forall k :: 0 <= k < lo || hi <= k < buf.Length || i <= k < j ==> buf[k] == old(buf[k])
      invariant forall k :: lo <= k < i || j <= k < hi ==> buf[k] == old(buf[lo + hi - 1 - k])
    {
      j := j - 1;
      buf[i], buf[j] := buf[j], buf[i];
      i := i + 1;
    }
    MirrorIsReverse(old(buf[..]), buf[..], lo, hi);
  }

  lemma MirrorIsReverse(was: string, s: string, lo: nat, hi: nat)
    requires lo <= hi <= |s| == |was|
    requires forall k :: 0 <= k < lo || hi <= k < |s| ==> s[k] == was[k]
    requires forall k :: lo <= k < hi ==> s[k] == was[lo + hi - 1 - k]
    ensures s == Overwrite(was, lo, Reverse(was[lo..hi]))
  {
    forall k | 0 <= k < hi - lo
      ensures s[lo + k] == Reverse(was[lo..hi])[k]
    {
      ReverseAt(was[lo..hi], k);
    }
  }

  /** One turn of the loop, the digits being written backwards. */
  lemma NextDigit(i: int, written: string)
    ensures -9 <= TruncMod(i, 10) <= 9 && (i != 0 ==> Abs(TruncDiv(i, 10)) < Abs(i))
    ensures TruncDiv(0, 10) == 0
    ensures var rest, c := TruncDiv(i, 10), DigitChar(TruncMod(i, 10));
            Digits(Abs(i)) + Reverse(written) ==
            (if rest == 0 then "" else Digits(Abs(rest))) + Reverse(written + [c])
  {
    var rest, c := TruncDiv(i, 10), DigitChar(TruncMod(i, 10));
    DivideByTen(i);
    DigitCharIsSymmetric(TruncMod(i, 10));
    ReverseSnoc(written, c);
    assert Digits(Abs(i)) == (if rest == 0 then "" else Digits(Abs(rest))) + [c];
  }

  lemma StartOf(value: int)
    ensures Digits(Abs(value)) == Digits(Abs(value)) + Reverse("")
    ensures |Render(value)| == |Digits(Abs(value))| + if value < 0 then 1 else 0
  {
  }

  lemma Finished(value: int, digits: string)
    requires Digits(Abs(value)) == Reverse(digits)
    ensures Reverse(digits + if value < 0 then "-" else "") == Render(value)
    ensures |digits| + (if value < 0 then 1 else 0) == |Render(value)|
  {
    ReverseSnoc(digits, '-');
    assert digits + "" == digits;
  }

  /**
    convert(buf + start, value): the text and its terminator, nothing else touched.
    The caller provides the room.
   */
  method Convert(buf: array<char>, start: nat, value: int) returns (len: nat)
    requires start + |Render(value)| < buf.Length
    modifies buf
    ensures len == |Render(value)|
    ensures buf[..] == Overwrite(old(buf[..]), start, Render(value) + "\0")
  {
    hide Overwrite, Digits, Reverse, Render, DigitChar, TruncDiv, TruncMod;
    StartOf(value);
    ghost var was, text := buf[..], "";
    assert buf[..] == Overwrite(was, start, "") by { OverwriteNothing(was, start); }
    var i, p := value, start;
    while true
      invariant p == start + |text|
      invariant Digits(Abs(value)) == Digits(Abs(i)) + Reverse(text)
      invariant buf[..] == Overwrite(was, start, text)
      invariant i == 0 ==> value == 0
      decreases Abs(i)
    {
      NextDigit(i, text);
      var lsd := TruncMod(i, 10);
      i := TruncDiv(i, 10);
      OverwriteNext(was, start, text, DigitChar(lsd));
      buf[p] := DigitChar(lsd);
      p := p + 1;
      text := text + [DigitChar(lsd)];
      if i == 0 {
        break;
      }
    }
    Finished(value, text);
    ghost var digits := text;
    if value < 0 {
      OverwriteNext(was, start, text, '-');
      buf[p] := '-';
      p := p + 1;
      text := text + "-";
    }
    assert text == digits + if value < 0 then "-" else "";
    OverwriteNext(was, start, text, '\0');
    buf[p] := '\0';
    OverwriteAgain(was, start, text, "\0", Reverse(text));
    ReverseRange(buf, start, p);
    return p - start;
  }

  lemma OverwriteNothing(s: string, at: nat)
    requires at <= |s|
    ensures Overwrite(s, at, "") == s
  {
  }
}
