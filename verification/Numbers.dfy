/**
 Parsing unsigned numbers the way the cgroup readers do: an unsigned parse, and
 when that fails a signed parse that turns every negative number into zero.
 */
module Numbers {
  import opened Decimal
  import opened Sequences
  import opened Text
  import opened Wrappers

  const UINT64: nat := 0x1_0000_0000_0000_0000
  const INT64: int := 0x8000_0000_0000_0000

  type uint64 = n: int | 0 <= n < UINT64

  datatype NumError = Syntax | Range

  // ----- strconv.ParseUint and strconv.ParseInt, base 10, 64 bits

  function Accumulate(s: string, n: nat): Result<nat, NumError> {
    if s == [] then Ok(n)
    else if !IsDigit(s[0]) then Err(Syntax)
    else if n >= (UINT64 - 1) / 10 + 1 then Err(Range)
    else
      var sum := (10 * n + DigitValue(s[0])) % UINT64;
      if sum < 10 * n then Err(Range) else Accumulate(s[1..], sum)
  }

  function ParseUnsigned(s: string): Result<nat, NumError> {
    if s == [] then Err(Syntax) else Accumulate(s, 0)
  }

  // The value is also returned with a range error, as the nearest bound.
  datatype Signed = Signed(value: int, error: Option<NumError>)

  function ParseSigned(s: string): Signed {
    if s == [] then Signed(0, Some(Syntax))
    else
      var neg := s[0] == '-';
      var digits := if s[0] == '+' || neg then s[1..] else s;
      match ParseUnsigned(digits)
      case Err(Syntax) => Signed(0, Some(Syntax))
      case Err(Range) => if neg then Signed(-INT64, Some(Range)) else Signed(INT64 - 1, Some(Range))
      case Ok(n) =>
        if !neg && n >= INT64 then Signed(INT64 - 1, Some(Range))
        else if neg && n > INT64 then Signed(-INT64, Some(Range))
        else Signed(if neg then 0 - n as int else n, None)
  }

  // ----- parseUint

  function ParseUint(value: string): Result<nat, NumError> {
    var s := TrimSpace(value);
    match ParseUnsigned(s)
    case Ok(n) => Ok(n)
    case Err(e) =>
      var i := ParseSigned(s);
      if i.error == None && i.value < 0 then Ok(0)
      else if i.error == Some(Range) && i.value < 0 then Ok(0)
      else Err(e)
  }

  // ----- what the unsigned parse computes

  // The number a digit string continues n to.
  function Continue(n: nat, s: string): nat
    requires AllDigits(s)
    decreases |s|
  {
    if s == [] then n else Continue(10 * n + DigitValue(s[0]), s[1..])
  }

  lemma {:induction false} ContinueGrows(n: nat, s: string)
    requires AllDigits(s)
    ensures Continue(n, s) >= n
    decreases |s|
  {
    if s != [] {
      ContinueGrows(10 * n + DigitValue(s[0]), s[1..]);
    }
  }

  lemma {:induction false} ContinueSnoc(n: nat, s: string, c: char)
    requires AllDigits(s) && IsDigit(c)
    ensures AllDigits(s + [c]) && Continue(n, s + [c]) == 10 * Continue(n, s) + DigitValue(c)
    decreases |s|
  {
    if s == [] {
      assert s + [c] == [c];
    } else {
      assert (s + [c])[1..] == s[1..] + [c];
      ContinueSnoc(10 * n + DigitValue(s[0]), s[1..], c);
    }
  }

  lemma {:induction false} ContinueIsValue(s: string)
    requires AllDigits(s)
    ensures Continue(0, s) == Value(s)
    decreases |s|
  {
    if s != [] {
      ContinueIsValue(s[..|s| - 1]);
      ContinueSnoc(0, s[..|s| - 1], s[|s| - 1]);
      assert s[..|s| - 1] + [s[|s| - 1]] == s;
    }
  }

  // Some leading digits already stand for too large a number.
  ghost predicate Overflows(n: nat, s: string) {
    exists k :: 0 <= k <= |s| && AllDigits(s[..k]) && Continue(n, s[..k]) >= UINT64
  }

  lemma OverflowsTail(n: nat, s: string)
    requires n < UINT64 && s != [] && IsDigit(s[0])
    ensures Overflows(n, s) <==> Overflows(10 * n + DigitValue(s[0]), s[1..])
  {
    var n' := 10 * n + DigitValue(s[0]);
    if Overflows(n, s) {
      var k :| 0 <= k <= |s| && AllDigits(s[..k]) && Continue(n, s[..k]) >= UINT64;
      assert k > 0;
      assert s[..k][1..] == s[1..][..k - 1];
      assert Continue(n', s[1..][..k - 1]) >= UINT64;
    }
    if Overflows(n', s[1..]) {
      var k :| 0 <= k <= |s[1..]| && AllDigits(s[1..][..k]) && Continue(n', s[1..][..k]) >= UINT64;
      assert s[..k + 1][1..] == s[1..][..k];
      assert AllDigits(s[..k + 1]);
      assert Continue(n, s[..k + 1]) >= UINT64;
    }
  }

  // The two overflow tests of the loop are one exact test.
  lemma OverflowTest(n: nat, d: nat)
    requires n < UINT64 && d < 10
    ensures 10 * n + d >= UINT64 <==>
            n >= (UINT64 - 1) / 10 + 1 || (10 * n + d) % UINT64 < 10 * n
  {
  }

  /** Exactly when the digit loop succeeds, with what, and which error it reports otherwise. */
  lemma {:induction false} AccumulateExact(s: string, n: nat)
    requires n < UINT64
    ensures Accumulate(s, n) == Err(Range) <==> Overflows(n, s)
    ensures Accumulate(s, n).Ok? <==> AllDigits(s) && !Overflows(n, s)
    ensures Accumulate(s, n).Ok? ==> Accumulate(s, n).value == Continue(n, s) < UINT64
    decreases |s|
  {
    if s == [] {
      assert forall k :: 0 <= k <= |s| ==> s[..k] == [];
    } else if !IsDigit(s[0]) {
      assert forall k :: 0 < k <= |s| ==> s[..k][0] == s[0];
      assert s[..0] == [];
    } else {
      var n' := 10 * n + DigitValue(s[0]);
      OverflowTest(n, DigitValue(s[0]));
      OverflowsTail(n, s);
      assert AllDigits(s) <==> AllDigits(s[1..]) by {
        assert s == [s[0]] + s[1..];
      }
      if n' < UINT64 {
        AccumulateExact(s[1..], n');
      } else {
        assert s[1..][..0] == [];
        assert Continue(n', s[1..][..0]) >= UINT64;
      }
    }
  }

  lemma {:induction false} AccumulateDigits(s: string, n: nat)
    requires n < UINT64 && AllDigits(s)
    ensures Accumulate(s, n) == if Continue(n, s) < UINT64 then Ok(Continue(n, s)) else Err(Range)
    decreases |s|
  {
    if s != [] {
      var n' := 10 * n + DigitValue(s[0]);
      OverflowTest(n, DigitValue(s[0]));
      if n' < UINT64 {
        AccumulateDigits(s[1..], n');
      } else {
        ContinueGrows(n', s[1..]);
      }
    }
  }

  lemma ParseUnsignedDigits(s: string)
    requires s != [] && AllDigits(s)
    ensures ParseUnsigned(s) == if Value(s) < UINT64 then Ok(Value(s)) else Err(Range)
  {
    AccumulateDigits(s, 0);
    ContinueIsValue(s);
  }

  // ----- canonical decimal text

  function DecimalText(v: int): (s: string)
    ensures s != [] && !IsSpace(s[0]) && !IsSpace(s[|s| - 1])
  {
    if v < 0 then ['-'] + Digits(-v) else Digits(v)
  }

  /** On the decimal text of any integer, surrounded by white space: zero for
      every negative number however large, the number itself if it fits in 64
      bits, and a range error above that. */
  lemma ParseUintCanonical(v: int, pre: string, post: string)
    requires AllOf(IsSpace, pre) && AllOf(IsSpace, post)
    ensures ParseUint(pre + DecimalText(v) + post) ==
            if v < 0 then Ok(0) else if v < UINT64 then Ok(v) else Err(Range)
  {
    var s := DecimalText(v);
    TrimSurrounded(pre, s, post);
    if v < 0 {
      var d := Digits(-v);
      assert s[1..] == d;
      ValueOfDigits(-v);
      ParseUnsignedDigits(d);
    } else {
      ValueOfDigits(v);
      ParseUnsignedDigits(s);
    }
  }

  lemma {:induction false} ContinueOverflows(n: nat, s: string, junk: string)
    requires AllDigits(s) && Continue(n, s) >= UINT64
    ensures Overflows(n, s + junk)
  {
    assert (s + junk)[..|s|] == s;
  }

  // Digits followed by something else.
  lemma UnsignedWithTail(d: string, junk: string)
    requires d != [] && AllDigits(d) && junk != [] && !IsDigit(junk[0])
    ensures ParseUnsigned(d + junk) == Err(if Value(d) >= UINT64 then Range else Syntax)
  {
    ContinueIsValue(d);
    assert (d + junk)[|d|] == junk[0];
    assert !AllDigits(d + junk);
    AccumulateExact(d + junk, 0);
    if Value(d) >= UINT64 {
      ContinueOverflows(0, d, junk);
    } else {
      NoOverflow(0, d, junk);
      var r := ParseUnsigned(d + junk);
      assert r.Err? && r != Err(Range);
      assert r.error.Range? || r.error.Syntax?;
    }
  }

  /** A negative number with something after it that is not a digit is
      accepted, as zero, if and only if the number overflows 64 bits. */
  lemma NegativeWithTail(v: int, junk: string)
    requires v < 0 && junk != [] && !IsDigit(junk[0]) && !IsSpace(junk[|junk| - 1])
    ensures ParseUint(DecimalText(v) + junk) == if -v >= UINT64 then Ok(0) else Err(Syntax)
  {
    ValueOfDigits(-v);
    Assoc(['-'], Digits(-v), junk);
    NegativeDigits(Digits(-v), junk);
  }

  lemma NegativeDigits(d: string, junk: string)
    requires d != [] && AllDigits(d) && junk != [] && !IsDigit(junk[0]) && !IsSpace(junk[|junk| - 1])
    ensures ParseUint(['-'] + (d + junk)) == if Value(d) >= UINT64 then Ok(0) else Err(Syntax)
  {
    NotTrimmed(['-'] + (d + junk));
    UnsignedWithTail(d, junk);
    MinusInFront(d + junk);
  }

  lemma NotTrimmed(s: string)
    requires s != [] && !IsSpace(s[0]) && !IsSpace(s[|s| - 1])
    ensures TrimSpace(s) == s
  {
    TrimSurrounded("", s, "");
    assert "" + s + "" == s;
  }

  lemma MinusInFront(digits: string)
    requires TrimSpace(['-'] + digits) == ['-'] + digits && ParseUnsigned(digits).Err?
    ensures ParseUint(['-'] + digits) == if ParseUnsigned(digits).error.Range? then Ok(0) else Err(Syntax)
  {
    assert (['-'] + digits)[1..] == digits;
  }

  lemma {:induction false} NoOverflow(n: nat, s: string, junk: string)
    requires AllDigits(s) && Continue(n, s) < UINT64 && n < UINT64 && junk != [] && !IsDigit(junk[0])
    ensures !Overflows(n, s + junk)
    decreases |s|
  {
    var all := s + junk;
    if s == [] {
      assert all == junk;
      assert forall k :: 0 < k <= |junk| ==> junk[..k][0] == junk[0];
    } else {
      var n' := 10 * n + DigitValue(s[0]);
      ContinueGrows(n', s[1..]);
      NoOverflow(n', s[1..], junk);
      assert all[1..] == s[1..] + junk;
      OverflowsTail(n, all);
    }
  }

  /** Exactly which texts are accepted, and as what: digits below 2^64, or a
      minus sign before digits that are not all zero. A minus sign followed by
      an overflowing number is accepted whatever comes after the overflow. */
  lemma ParseUintExact(value: string)
    ensures var s := TrimSpace(value);
            && (ParseUint(value).Ok? <==>
                || (s != [] && AllDigits(s) && Value(s) < UINT64)
                || (|s| > 1 && s[0] == '-' && (Overflows(0, s[1..]) || (AllDigits(s[1..]) && Value(s[1..]) > 0))))
            && (ParseUint(value).Ok? ==>
                  ParseUint(value).value == if s[0] == '-' then 0 else Value(s))
  {
    var s := TrimSpace(value);
    if s != [] {
      AccumulateExact(s, 0);
      if AllDigits(s) {
        ContinueIsValue(s);
        ParseUnsignedDigits(s);
      }
      AccumulateExact(s[1..], 0);
      if AllDigits(s[1..]) {
        ContinueIsValue(s[1..]);
      }
    }
  }
}
