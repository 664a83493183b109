/** The decimal numbers the page puts in a request and the server reads back,
    and the digit strings used in file names. */
module Numbers {
  import opened Wrappers

  const MAX_SELECTED_QUANTITY: nat := 2_147_483_647
  const MAX_REVISION: nat := 9_223_372_036_854_775_807

  datatype NumberError = Empty | NotDigits | TooLarge

  /** The characters Python's `str.strip` removes. */
  predicate IsSpace(c: char) {
    var n := c as int;
    || 9 <= n <= 13 || 28 <= n <= 32 || n == 0x85 || n == 0xa0 || n == 0x1680
    || 0x2000 <= n <= 0x200a || n == 0x2028 || n == 0x2029 || n == 0x202f || n == 0x205f || n == 0x3000
  }

  function StripLeft(s: string): string {
    if s != [] && IsSpace(s[0]) then StripLeft(s[1..]) else s
  }

  function StripRight(s: string): string {
    if s != [] && IsSpace(s[|s| - 1]) then StripRight(s[..|s| - 1]) else s
  }

  function Strip(s: string): string {
    StripRight(StripLeft(s))
  }

  predicate IsDigit(c: char) {
    '0' <= c <= '9'
  }

  predicate AllDigits(s: string) {
    forall k :: 0 <= k < |s| ==> IsDigit(s[k])
  }

  function ValueOf(s: string): nat
    requires AllDigits(s)
  {
    if s == [] then 0 else 10 * ValueOf(s[..|s| - 1]) + (s[|s| - 1] as int - '0' as int)
  }

  /** The checks of the two request parsers, in their order. */
  function ParseBounded(raw: string, digits: nat, maximum: nat): Result<nat, NumberError> {
    var value := Strip(raw);
    if value == "" then Err(Empty)
    else if !AllDigits(value) then Err(NotDigits)
    else if |value| > digits then Err(TooLarge)
    else if ValueOf(value) > maximum then Err(TooLarge)
    else Ok(ValueOf(value))
  }

  function ParseQuantity(raw: string): Result<nat, NumberError> {
    ParseBounded(raw, 10, MAX_SELECTED_QUANTITY)
  }

  function ParseRevision(raw: string): Result<nat, NumberError> {
    ParseBounded(raw, 19, MAX_REVISION)
  }

  function Digit(d: nat): char
    requires d < 10
  {
    ('0' as int + d) as char
  }

  function Print(n: nat): string {
    if n < 10 then [Digit(n)] else Print(n / 10) + [Digit(n % 10)]
  }

  lemma {:induction false} PrintIsDigits(n: nat)
    ensures AllDigits(Print(n)) && ValueOf(Print(n)) == n && Print(n) != ""
  {
    if n >= 10 {
      PrintIsDigits(n / 10);
      assert Print(n)[..|Print(n)| - 1] == Print(n / 10);
    } else {
      assert Print(n)[..0] == "";
    }
  }

  lemma PrintIsInjective(m: nat, n: nat)
    requires Print(m) == Print(n)
    ensures m == n
  {
    PrintIsDigits(m);
    PrintIsDigits(n);
  }

  function PowerOfTen(k: nat): nat {
    if k == 0 then 1 else 10 * PowerOfTen(k - 1)
  }

  lemma {:induction false} PrintLength(n: nat, k: nat)
    requires k > 0
    ensures |Print(n)| <= k <==> n < PowerOfTen(k)
  {
    if n >= 10 {
      if k == 1 {
        assert PowerOfTen(1) == 10 * PowerOfTen(0) == 10;
      } else {
        PrintLength(n / 10, k - 1);
      }
    } else {
      PowerOfTenGrows(k);
    }
  }

  lemma {:induction false} PowerOfTenGrows(k: nat)
    requires k > 0
    ensures PowerOfTen(k) >= 10
  {
    if k > 1 { PowerOfTenGrows(k - 1); }
  }

  /** A number printed by the page is read back as itself, or refused exactly
      when it exceeds the limit; the digit limit never refuses a legal one. */
  lemma ParsePrinted(n: nat, digits: nat, maximum: nat)
    requires digits > 0 && maximum < PowerOfTen(digits)
    ensures ParseBounded(Print(n), digits, maximum) == if n <= maximum then Ok(n) else Err(TooLarge)
  {
    PrintIsDigits(n);
    PrintLength(n, digits);
    var s := Print(n);
    assert IsDigit(s[0]) && IsDigit(s[|s| - 1]);
    assert !IsSpace(s[0]) && !IsSpace(s[|s| - 1]);
    assert Strip(s) == s;
  }

  lemma QuantityRoundTrip(n: nat)
    ensures ParseQuantity(Print(n)) == if n <= MAX_SELECTED_QUANTITY then Ok(n) else Err(TooLarge)
  {
    assert PowerOfTen(5) == 100_000;
    assert PowerOfTen(10) == 100_000 * PowerOfTen(5);
    ParsePrinted(n, 10, MAX_SELECTED_QUANTITY);
  }

  lemma RevisionRoundTrip(n: nat)
    ensures ParseRevision(Print(n)) == if n <= MAX_REVISION then Ok(n) else Err(TooLarge)
  {
    assert PowerOfTen(5) == 100_000;
    assert PowerOfTen(10) == 100_000 * PowerOfTen(5);
    assert PowerOfTen(15) == 100_000 * PowerOfTen(10);
    assert PowerOfTen(19) == 10_000 * PowerOfTen(15);
    ParsePrinted(n, 19, MAX_REVISION);
  }

  // ------------------------------------------------------------ any text at all

  predicate AllSpaces(s: string) {
    forall k :: 0 <= k < |s| ==> IsSpace(s[k])
  }

  function Zeros(n: nat): string {
    seq(n, _ => '0')
  }

  lemma {:induction false} StripLeftSplits(s: string) returns (left: string)
    ensures AllSpaces(left) && s == left + StripLeft(s)
  {
    left := "";
    if s != [] && IsSpace(s[0]) {
      left := StripLeftSplits(s[1..]);
      left := [s[0]] + left;
    }
  }

  lemma {:induction false} StripRightSplits(s: string) returns (right: string)
    ensures AllSpaces(right) && s == StripRight(s) + right
  {
    right := "";
    if s != [] && IsSpace(s[|s| - 1]) {
      right := StripRightSplits(s[..|s| - 1]);
      right := right + [s[|s| - 1]];
    }
  }

  lemma {:induction false} StripLeftOf(left: string, core: string)
    requires AllSpaces(left) && core != "" && !IsSpace(core[0])
    ensures StripLeft(left + core) == core
  {
    if left == "" {
      assert left + core == core;
    } else {
      assert (left + core)[1..] == left[1..] + core;
      StripLeftOf(left[1..], core);
    }
  }

  lemma {:induction false} StripRightOf(core: string, right: string)
    requires AllSpaces(right) && core != "" && !IsSpace(core[|core| - 1])
    ensures StripRight(core + right) == core
  {
    if right == "" {
      assert core + right == core;
    } else {
      var s := core + right;
      assert s[..|s| - 1] == core + right[..|right| - 1];
      StripRightOf(core, right[..|right| - 1]);
    }
  }

  /** Every digit string is the decimal of its value after leading zeros. */
  lemma {:induction false} DigitsArePadded(s: string)
    requires s != "" && AllDigits(s)
    ensures |Print(ValueOf(s))| <= |s| && s == Zeros(|s| - |Print(ValueOf(s))|) + Print(ValueOf(s))
  {
    var init, d := s[..|s| - 1], s[|s| - 1] as int - '0' as int;
    assert s == init + [Digit(d)];
    if init == "" {
      assert ValueOf(init) == 0 && Print(ValueOf(s)) == [Digit(d)];
    } else {
      DigitsArePadded(init);
      var v := ValueOf(init);
      assert ValueOf(s) == 10 * v + d;
      if v == 0 {
        assert Print(0) == "0" && Print(ValueOf(s)) == [Digit(d)];
        assert init == Zeros(|init| - 1) + "0" == Zeros(|init|);
      } else {
        assert ValueOf(s) / 10 == v && ValueOf(s) % 10 == d;
        assert Print(ValueOf(s)) == Print(v) + [Digit(d)];
      }
    }
  }

  lemma {:induction false} PaddedValue(zeros: nat, s: string)
    requires AllDigits(s)
    ensures AllDigits(Zeros(zeros) + s) && ValueOf(Zeros(zeros) + s) == ValueOf(s)
  {
    var t := Zeros(zeros) + s;
    if s != "" {
      assert t[..|t| - 1] == Zeros(zeros) + s[..|s| - 1];
      PaddedValue(zeros, s[..|s| - 1]);
    } else if zeros > 0 {
      assert t[..|t| - 1] == Zeros(zeros - 1) + "";
      PaddedValue(zeros - 1, "");
    }
  }

  /** A text spells a number within a digit limit: blanks, zeros, the decimal of
      the number, blanks. */
  ghost predicate Spells(raw: string, n: nat, digits: nat, left: string, zeros: nat, right: string) {
    && AllSpaces(left) && AllSpaces(right) && zeros + |Print(n)| <= digits
    && raw == left + (Zeros(zeros) + Print(n)) + right
  }

  /** The parsers accept exactly the texts that spell a number within the limits,
      and return that number. */
  lemma ParseAccepts(raw: string, digits: nat, maximum: nat, n: nat)
    ensures ParseBounded(raw, digits, maximum) == Ok(n) <==>
            n <= maximum && exists left, zeros, right :: Spells(raw, n, digits, left, zeros, right)
  {
    if ParseBounded(raw, digits, maximum) == Ok(n) {
      var value := Strip(raw);
      var left := StripLeftSplits(raw);
      var right := StripRightSplits(StripLeft(raw));
      DigitsArePadded(value);
      assert raw == left + value + right;
      assert Spells(raw, n, digits, left, |value| - |Print(n)|, right);
    }
    if n <= maximum && exists left, zeros, right :: Spells(raw, n, digits, left, zeros, right) {
      var left, zeros, right :| Spells(raw, n, digits, left, zeros, right);
      SpelledIsParsed(raw, n, digits, maximum, left, zeros, right);
    }
  }

  lemma SpelledIsParsed(raw: string, n: nat, digits: nat, maximum: nat, left: string, zeros: nat, right: string)
    requires n <= maximum && Spells(raw, n, digits, left, zeros, right)
    ensures ParseBounded(raw, digits, maximum) == Ok(n)
  {
    var core := Zeros(zeros) + Print(n);
    PrintIsDigits(n);
    PaddedValue(zeros, Print(n));
    assert IsDigit(core[0]) && IsDigit(core[|core| - 1]);
    assert raw == left + (core + right);
    StripLeftOf(left, core + right);
    StripRightOf(core, right);
    assert Strip(raw) == core;
  }
}
