/**
 Sizes in human-readable form: plain bytes below 973, then one decimal or whole
 units, dividing by 1024 and discarding the remainder once per unit.
 */
module SizeFormat {
  import opened Decimal
  import Numbers

  const ORD: string := "KMGTPE"

  // ----- what is shown

  datatype Shape =
    | Bytes(n: nat)
    | Tenths(whole: nat, tenth: nat, o: nat)
    | Units(n: nat, o: nat)

  // "%3d": right-aligned in three columns.
  function Pad3(s: string): string {
    if |s| < 3 then [' '] + (if |s| < 2 then [' '] else []) + s else s
  }

  function Render(shape: Shape): string
    requires !shape.Bytes? ==> shape.o < |ORD|
  {
    match shape
    case Bytes(n) => Pad3(Digits(n)) + " "
    case Tenths(whole, tenth, o) => Digits(whole) + "." + Digits(tenth) + [ORD[o]]
    case Units(n, o) => Pad3(Digits(n)) + [ORD[o]]
  }

  /** How size units of 1024^o with remainder remain (of 1024) are shown. */
  function Round(size: nat, remain: nat, o: nat): Shape {
    if size < 9 || (size == 9 && remain < 973) then
      var tenth := (remain * 5 + 256) / 512;
      if tenth >= 10 then Tenths(size + 1, 0, o) else Tenths(size, tenth, o)
    else Units(if remain >= 512 then size + 1 else size, o)
  }

  function Scale(size: nat, o: nat): Shape
    decreases size
  {
    if size / 1024 >= 973 then Scale(size / 1024, o + 1) else Round(size / 1024, size % 1024, o)
  }

  function ShapeOf(size: nat): Shape {
    if size < 973 then Bytes(size) else Scale(size, 0)
  }

  // ----- the quantity a text denotes, in tenths of a byte, read off the text alone

  function Pow1024(o: nat): (p: nat)
    ensures p >= 1
  {
    if o == 0 then 1 else 1024 * Pow1024(o - 1)
  }

  function UnitOf(c: char): nat {
    match c
    case 'K' => Pow1024(1)
    case 'M' => Pow1024(2)
    case 'G' => Pow1024(3)
    case 'T' => Pow1024(4)
    case 'P' => Pow1024(5)
    case 'E' => Pow1024(6)
    case _ => 1
  }

  function DropSpaces(s: string): string {
    if s != [] && s[0] == ' ' then DropSpaces(s[1..]) else s
  }

  // The readable texts: "ddd " and "dddU" with leading blanks, or "d.dU".
  predicate Readable(text: string) {
    |text| == 4 &&
    if text[1] == '.' then IsDigit(text[0]) && IsDigit(text[2]) else AllDigits(DropSpaces(text[..3]))
  }

  function Denoted(text: string): nat
    requires Readable(text)
  {
    if text[1] == '.' then (10 * DigitValue(text[0]) + DigitValue(text[2])) * UnitOf(text[3])
    else 10 * Value(DropSpaces(text[..3])) * UnitOf(text[3])
  }

  function Amount(shape: Shape): nat {
    match shape
    case Bytes(n) => 10 * n
    case Tenths(whole, tenth, o) => (10 * whole + tenth) * Pow1024(o + 1)
    case Units(n, o) => 10 * n * Pow1024(o + 1)
  }

  // Shapes that fit four columns.
  predicate Fits(shape: Shape) {
    match shape
    case Bytes(n) => n < 973
    case Tenths(whole, tenth, o) => 1 <= whole <= 9 && tenth <= 9 && o < |ORD|
    case Units(n, o) => 10 <= n <= 973 && o < |ORD|
  }

  lemma PadDrops(s: string)
    requires s != [] && AllDigits(s) && |s| <= 3
    ensures |Pad3(s)| == 3 && DropSpaces(Pad3(s)) == s && Pad3(s)[1] != '.'
  {
    assert s[0] != ' ' && DropSpaces(s) == s;
    if |s| == 2 {
      assert Pad3(s)[1..] == s;
    } else if |s| == 1 {
      assert Pad3(s)[1..][1..] == s;
      assert Pad3(s)[1..][0] == ' ';
    }
  }

  lemma UnitOfOrd(o: nat)
    requires o < |ORD|
    ensures UnitOf(ORD[o]) == Pow1024(o + 1)
  {
    assert ORD[0] == 'K' && ORD[1] == 'M' && ORD[2] == 'G' && ORD[3] == 'T' && ORD[4] == 'P' && ORD[5] == 'E';
  }

  lemma PaddedDenotes(n: nat, unit: char)
    requires n < 1000
    ensures var text := Pad3(Digits(n)) + [unit]; Readable(text) && Denoted(text) == 10 * n * UnitOf(unit)
  {
    var text := Pad3(Digits(n)) + [unit];
    DigitsLength(n);
    PadDrops(Digits(n));
    ValueOfDigits(n);
    assert text[..3] == Pad3(Digits(n)) && text[3] == unit;
  }

  lemma TenthsDenote(whole: nat, tenth: nat, unit: char)
    requires whole <= 9 && tenth <= 9
    ensures var text := Digits(whole) + "." + Digits(tenth) + [unit];
            Readable(text) && Denoted(text) == (10 * whole + tenth) * UnitOf(unit)
  {
    assert Digits(whole) + "." + Digits(tenth) + [unit] == [DigitChar(whole), '.', DigitChar(tenth), unit];
  }

  /** The text of a shape that fits is readable and denotes its amount. */
  lemma RenderDenotes(shape: Shape)
    requires Fits(shape)
    ensures Readable(Render(shape)) && Denoted(Render(shape)) == Amount(shape)
  {
    match shape
    case Bytes(n) =>
      PaddedDenotes(n, ' ');
    case Tenths(whole, tenth, o) =>
      UnitOfOrd(o);
      TenthsDenote(whole, tenth, ORD[o]);
    case Units(n, o) =>
      UnitOfOrd(o);
      PaddedDenotes(n, ORD[o]);
  }

  // ----- bounds

  // 973 * 1024^o fits in 64 bits only for o <= 5.
  lemma OrdBound(size: nat, o: nat)
    requires size >= 973 && size * Pow1024(o) < Numbers.UINT64
    ensures o < |ORD|
  {
    if o >= 6 {
      PowMonotone(6, o);
      assert Pow1024(6) == 1024 * 1024 * 1024 * 1024 * 1024 * 1024;
      MulMonotone(973, size, Pow1024(6), Pow1024(o));
    }
  }

  lemma {:induction false} PowMonotone(a: nat, b: nat)
    requires a <= b
    ensures Pow1024(a) <= Pow1024(b)
  {
    if a < b {
      PowMonotone(a, b - 1);
    }
  }

  lemma MulMonotone(a: nat, b: nat, x: nat, y: nat)
    requires a <= b && x <= y
    ensures a * x <= b * y
  {
    assert a * x <= b * x <= b * y;
  }

  // One shift keeps size * 1024^o below the number it started from.
  lemma ShiftBound(size: nat, o: nat)
    ensures size / 1024 * Pow1024(o + 1) <= size * Pow1024(o)
  {
    assert Pow1024(o + 1) == 1024 * Pow1024(o);
    assert size / 1024 * (1024 * Pow1024(o)) == size / 1024 * 1024 * Pow1024(o);
    MulMonotone(size / 1024 * 1024, size, Pow1024(o), Pow1024(o));
  }

  lemma {:induction false} ScaleFits(size: nat, o: nat)
    requires size >= 973 && size * Pow1024(o) < Numbers.UINT64
    ensures Fits(Scale(size, o)) && !Scale(size, o).Bytes?
    decreases size
  {
    OrdBound(size, o);
    if size / 1024 >= 973 {
      ShiftBound(size, o);
      ScaleFits(size / 1024, o + 1);
    }
  }

  /** Every 64-bit size is shown in exactly four columns, with a unit among
      K to E and a leading value of at least one once it is shown in units. */
  lemma FourColumns(size: nat)
    requires size < Numbers.UINT64
    ensures Fits(ShapeOf(size)) && Readable(Render(ShapeOf(size)))
    ensures size >= 973 ==> !ShapeOf(size).Bytes? && ShapeOf(size).o <= 5
    ensures size >= 973 ==> Denoted(Render(ShapeOf(size))) >= 10 * Pow1024(ShapeOf(size).o + 1)
  {
    if size >= 973 {
      ScaleFits(size, 0);
      RenderDenotes(ShapeOf(size));
      var u := Pow1024(ShapeOf(size).o + 1);
      match ShapeOf(size)
      case Tenths(w, t, _) => MulMonotone(10, 10 * w + t, u, u);
      case Units(n, _) => MulMonotone(10, 10 * n, u, u);
    } else {
      RenderDenotes(ShapeOf(size));
    }
  }

  // ----- accuracy

  /** shape shows exact (in bytes) to within half a unit, or a twentieth and a
      1024th of a unit; Denoted counts tenths of bytes. */
  predicate Accurate(shape: Shape, denoted: int, exact: int) {
    match shape
    case Bytes(_) => denoted == 10 * exact
    case Units(_, o) => -5 * Pow1024(o + 1) <= denoted - 10 * exact <= 5 * Pow1024(o + 1)
    case Tenths(_, _, o) =>
      -522 * Pow1024(o + 1) < 1024 * (denoted - 10 * exact) < 522 * Pow1024(o + 1)
  }

  lemma RoundAccurate(q: nat, r: nat, o: nat, low: nat)
    requires r < 1024 && low < Pow1024(o)
    ensures Accurate(Round(q, r, o), Amount(Round(q, r, o)), (q * 1024 + r) * Pow1024(o) + low)
  {
    var p := Pow1024(o);
    assert Pow1024(o + 1) == 1024 * p;
    var exact := (q * 1024 + r) * p + low;
    assert exact == q * (1024 * p) + r * p + low;
    if Round(q, r, o).Units? {
      UnitsAccurate(q, r, p, low);
    } else {
      TenthsAccurate(q, r, p, low);
    }
  }

  lemma UnitsAccurate(q: nat, r: nat, p: nat, low: nat)
    requires r < 1024 && low < p
    ensures var n := if r >= 512 then q + 1 else q;
            -5 * (1024 * p) <= 10 * n * (1024 * p) - 10 * (q * (1024 * p) + r * p + low) <= 5 * (1024 * p)
  {
    if r >= 512 {
      MulMonotone(512, r, p, p);
      MulMonotone(r, 1023, p, p);
      assert 10 * (q + 1) * (1024 * p) == 10 * q * (1024 * p) + 10 * (1024 * p);
    } else {
      MulMonotone(r, 511, p, p);
    }
    assert 10 * q * (1024 * p) == 10 * (q * (1024 * p));
  }

  lemma TenthsError(q: nat, r: nat, t: nat, p: nat, low: nat)
    ensures (10 * q + t) * (1024 * p) - 10 * (q * (1024 * p) + r * p + low) == (1024 * t - 10 * r) * p - 10 * low
  {
    var x := q * (1024 * p);
    assert (10 * q + t) * (1024 * p) == 10 * x + t * (1024 * p);
    assert t * (1024 * p) == 1024 * t * p;
    assert (1024 * t - 10 * r) * p == 1024 * t * p - 10 * (r * p);
  }

  lemma TenthsAccurate(q: nat, r: nat, p: nat, low: nat)
    requires r < 1024 && low < p
    ensures var t := (r * 5 + 256) / 512;
            -522 * (1024 * p)
            < 1024 * ((10 * q + t) * (1024 * p) - 10 * (q * (1024 * p) + r * p + low))
            < 522 * (1024 * p)
  {
    var t := (r * 5 + 256) / 512;
    TenthsError(q, r, t, p, low);
    var e := 1024 * t - 10 * r;
    assert -512 <= e <= 512;
    ScaledBound(e, p);
  }

  lemma ScaledBound(e: int, p: nat)
    requires -512 <= e <= 512
    ensures -512 * p <= e * p <= 512 * p
  {
    if e >= 0 {
      MulMonotone(e, 512, p, p);
    } else {
      MulMonotone(-e, 512, p, p);
    }
  }

  lemma {:induction false} ScaleAccurate(v: nat, o: nat, low: nat)
    requires low < Pow1024(o)
    ensures Accurate(Scale(v, o), Amount(Scale(v, o)), v * Pow1024(o) + low)
    decreases v
  {
    var q, r, p := v / 1024, v % 1024, Pow1024(o);
    assert v == q * 1024 + r;
    if q >= 973 {
      assert Pow1024(o + 1) == 1024 * p;
      MulMonotone(r, 1023, p, p);
      assert v * p + low == q * (1024 * p) + (r * p + low);
      ScaleAccurate(q, o + 1, r * p + low);
    } else {
      RoundAccurate(q, r, o, low);
    }
  }

  /** The text is off by at most half a unit when it shows whole units and by
      less than 1/20 + 1/1024 of a unit when it shows one decimal, although
      the lower bits are discarded at every shift. */
  lemma TextIsAccurate(size: nat)
    requires size < Numbers.UINT64
    ensures Fits(ShapeOf(size)) && Readable(Render(ShapeOf(size)))
    ensures Accurate(ShapeOf(size), Denoted(Render(ShapeOf(size))), size)
  {
    FourColumns(size);
    RenderDenotes(ShapeOf(size));
    if size >= 973 {
      ScaleAccurate(size, 0, 0);
      assert size * Pow1024(0) + 0 == size;
    }
  }

  // ----- monotonicity

  // In tenths of the unit, a value below 973 units.
  function RoundedTenths(v: nat): nat {
    var q, r := v / 1024, v % 1024;
    if q < 9 || (q == 9 && r < 973) then 10 * q + (r * 5 + 256) / 512
    else 10 * (if r >= 512 then q + 1 else q)
  }

  lemma AmountOfRound(v: nat, o: nat)
    ensures Amount(Round(v / 1024, v % 1024, o)) == RoundedTenths(v) * Pow1024(o + 1)
  {
  }

  lemma RoundedMonotone(v: nat, w: nat)
    requires v <= w
    ensures RoundedTenths(v) <= RoundedTenths(w)
    ensures 973 <= v < 973 * 1024 ==> 10 <= RoundedTenths(v) <= 9730
  {
  }

  lemma {:induction false} ScaleLowerBound(v: nat, o: nat)
    requires v >= 973
    ensures Amount(Scale(v, o)) >= 10 * Pow1024(o + 1)
    decreases v
  {
    if v / 1024 >= 973 {
      ScaleLowerBound(v / 1024, o + 1);
    } else {
      AmountOfRound(v, o);
      RoundedMonotone(v, v);
      MulMonotone(10, RoundedTenths(v), Pow1024(o + 1), Pow1024(o + 1));
    }
  }

  lemma {:induction false} ScaleMonotone(v: nat, w: nat, o: nat)
    requires 973 <= v <= w
    ensures Amount(Scale(v, o)) <= Amount(Scale(w, o))
    decreases v
  {
    var u := Pow1024(o + 1);
    if v / 1024 >= 973 {
      ScaleMonotone(v / 1024, w / 1024, o + 1);
    } else {
      AmountOfRound(v, o);
      RoundedMonotone(v, v);
      if w / 1024 >= 973 {
        MulMonotone(RoundedTenths(v), 9730, u, u);
        ScaleLowerBound(w / 1024, o + 1);
        assert Pow1024(o + 2) == 1024 * u;
      } else {
        AmountOfRound(w, o);
        RoundedMonotone(v, w);
        MulMonotone(RoundedTenths(v), RoundedTenths(w), u, u);
      }
    }
  }

  /** A larger size never reads as a smaller quantity, across plain bytes,
      one-decimal form, whole units and every switch of unit. */
  lemma TextIsMonotone(m: nat, n: nat)
    requires m <= n < Numbers.UINT64
    ensures Fits(ShapeOf(m)) && Readable(Render(ShapeOf(m)))
    ensures Fits(ShapeOf(n)) && Readable(Render(ShapeOf(n)))
    ensures Denoted(Render(ShapeOf(m))) <= Denoted(Render(ShapeOf(n)))
  {
    FourColumns(m);
    FourColumns(n);
    RenderDenotes(ShapeOf(m));
    RenderDenotes(ShapeOf(n));
    if m >= 973 {
      ScaleMonotone(m, n, 0);
    } else if n >= 973 {
      ScaleLowerBound(n, 0);
    }
  }

  // ----- exactly which text, by the size alone

  lemma DivBelow(v: nat, p: nat, c: nat)
    requires p > 0
    ensures v < c * p <==> v / p < c
  {
    var q, r := v / p, v % p;
    assert v == q * p + r;
    if q < c {
      MulMonotone(q + 1, c, p, p);
      assert (q + 1) * p == q * p + p;
    } else {
      MulMonotone(c, q, p, p);
    }
  }

  lemma DivTwice(v: nat, p: nat)
    requires p > 0
    ensures v / 1024 / p == v / (1024 * p)
  {
    var q, r := v / 1024, v % 1024;
    var q', r' := q / p, q % p;
    assert v == 1024 * (q' * p + r') + r;
    assert v == q' * (1024 * p) + (1024 * r' + r);
    DivUnique(v, 1024 * p, q', 1024 * r' + r);
  }

  lemma DivUnique(v: nat, d: nat, q: nat, r: nat)
    requires d > 0 && v == q * d + r && r < d
    ensures v / d == q
  {
    DivBelow(v, d, q);
    DivBelow(v, d, q + 1);
    assert (q + 1) * d == q * d + d;
  }

  // Which shift the loop stops at.
  lemma {:induction false} ScaleAt(v: nat, o: nat, j: nat)
    requires 973 * Pow1024(j) <= v < 973 * Pow1024(j + 1)
    ensures Scale(v, o) == Round(v / Pow1024(j) / 1024, v / Pow1024(j) % 1024, o + j)
    decreases j
  {
    if j > 0 {
      DivBelow(v, 1024, 973 * Pow1024(j - 1));
      DivBelow(v, 1024, 973 * Pow1024(j));
      MulMonotone(973, 973 * Pow1024(j - 1), 1, 1);
      DivBelow(v, 1024, 973);
      ScaleAt(v / 1024, o + 1, j - 1);
      DivTwice(v, Pow1024(j - 1));
    }
  }

  // The rounding in closed form: to the nearest tenth, or to the nearest unit, ties up.
  lemma RoundedExactly(v: nat)
    ensures v < 10189 ==> RoundedTenths(v) == (10 * v + 512) / 1024
    ensures v >= 10189 ==> RoundedTenths(v) == 10 * ((v + 512) / 1024)
  {
    var q, r := v / 1024, v % 1024;
    assert v == 1024 * q + r;
    assert (10 * v + 512) / 1024 == 10 * q + (10 * r + 512) / 1024;
    assert (10 * r + 512) / 1024 == (5 * r + 256) / 512;
  }

  lemma {:induction false} DigitsLead(n: nat)
    requires n > 0
    ensures Digits(n)[0] != '0'
  {
    if n >= 10 {
      DigitsLead(n / 10);
    }
  }

  // A shape with one decimal has a point, and no other has.
  lemma PointWhere(shape: Shape)
    requires Fits(shape)
    ensures |Render(shape)| == 4 && (Render(shape)[1] == '.' <==> shape.Tenths?)
    ensures Render(shape)[3] == if shape.Bytes? then ' ' else ORD[shape.o]
    ensures Amount(shape) > 0 ==> Render(shape)[0] != '0'
  {
    match shape
    case Bytes(n) =>
      DigitsLength(n);
      PadDrops(Digits(n));
      if n > 0 {
        DigitsLead(n);
      }
    case Tenths(whole, _, _) => DigitsLead(whole);
    case Units(n, _) =>
      DigitsLength(n);
      PadDrops(Digits(n));
      DigitsLead(n);
  }

  /** Below 973 the text is the number of bytes itself. */
  lemma BytesExactly(size: nat)
    requires size < 973
    ensures var text := Render(ShapeOf(size));
            && Readable(text) && text[1] != '.' && text[3] == ' ' && Denoted(text) == 10 * size
            && (size > 0 ==> text[0] != '0')
  {
    RenderDenotes(ShapeOf(size));
    PointWhere(ShapeOf(size));
  }

  /** From 973 units to 973 of the next larger, the text is in that larger
      unit: with one decimal, rounded to the nearest tenth with ties up, while
      it is below 9.95 of it (exactly, 9 and 973/1024), and in whole units,
      rounded to the nearest with ties up, from there on. What is below one
      1024th of the unit shown is discarded first. */
  lemma TextExactly(size: nat, j: nat)
    requires size < Numbers.UINT64 && 973 * Pow1024(j) <= size < 973 * Pow1024(j + 1)
    ensures Fits(ShapeOf(size))
    ensures var text, kept, unit := Render(ShapeOf(size)), size / Pow1024(j), Pow1024(j + 1);
            && j < 6 && Readable(text) && text[3] == "KMGTPE"[j] && text[0] != '0'
            && if size < (9 * 1024 + 973) * Pow1024(j)
               then text[1] == '.' && Denoted(text) == (10 * kept + 512) / 1024 * unit
               else text[1] != '.' && Denoted(text) == 10 * ((kept + 512) / 1024) * unit
  {
    var kept := size / Pow1024(j);
    PowMonotone(0, j);
    MulMonotone(973, 973, 1, Pow1024(j));
    OrdBound(973, j);
    FourColumns(size);
    ScaleAt(size, 0, j);
    AmountOfRound(kept, j);
    RoundedExactly(kept);
    DivBelow(size, Pow1024(j), 9 * 1024 + 973);
    RenderDenotes(ShapeOf(size));
    PointWhere(ShapeOf(size));
    DenotedPositive(ShapeOf(size));
  }

  lemma DenotedPositive(shape: Shape)
    requires Fits(shape) && !shape.Bytes?
    ensures Amount(shape) > 0
  {
    match shape
    case Tenths(whole, tenth, o) => MulMonotone(1, 10 * whole + tenth, 1, Pow1024(o + 1));
    case Units(n, o) => MulMonotone(1, 10 * n, 1, Pow1024(o + 1));
  }

  /** How far the text is off, by the size alone. */
  lemma AccurateBySize(size: nat, j: nat)
    requires size < Numbers.UINT64 && 973 * Pow1024(j) <= size < 973 * Pow1024(j + 1)
    ensures Fits(ShapeOf(size))
    ensures var text, unit := Render(ShapeOf(size)), Pow1024(j + 1);
            && Readable(text)
            && if size < (9 * 1024 + 973) * Pow1024(j)
               then -522 * unit < 1024 * (Denoted(text) - 10 * size) < 522 * unit
               else -5 * unit <= Denoted(text) - 10 * size <= 5 * unit
  {
    TextExactly(size, j);
    TextIsAccurate(size);
    PowMonotone(0, j);
    MulMonotone(973, 973, 1, Pow1024(j));
    ScaleAt(size, 0, j);
    FourColumns(size);
    PointWhere(ShapeOf(size));
  }

  // ----- the function as written

  method FormatSize(size: nat) returns (text: string)
    requires size < Numbers.UINT64
    ensures Fits(ShapeOf(size)) && text == Render(ShapeOf(size))
  {
    FourColumns(size);
    if size < 973 {
      return Pad3(Digits(size)) + " ";
    }
    var s, o := size, 0;
    while true
      invariant s >= 973 && ShapeOf(size) == Scale(s, o)
      decreases s
    {
      ScaleStep(s, o);
      var remain := s % 1024;
      s := s / 1024;
      if s >= 973 {
        o := o + 1;
        continue;
      }
      text := ShowRounded(s, remain, o);
      break;
    }
  }

  lemma ScaleStep(s: nat, o: nat)
    ensures s / 1024 >= 973 ==> Scale(s, o) == Scale(s / 1024, o + 1)
    ensures s / 1024 < 973 ==> Scale(s, o) == Round(s / 1024, s % 1024, o)
    ensures s > 0 ==> s / 1024 < s
  {
  }

  // The end of the loop: what is left is rounded and written.
  method ShowRounded(size: nat, remainder: nat, o: nat) returns (text: string)
    requires o < |ORD|
    ensures text == Render(Round(size, remainder, o))
  {
    var s, remain := size, remainder;
    if s < 9 || (s == 9 && remain < 973) {
      remain := (remain * 5 + 256) / 512;
      if remain >= 10 {
        s := s + 1;
        remain := 0;
      }
      return Digits(s) + "." + Digits(remain) + [ORD[o]];
    }
    if remain >= 512 {
      s := s + 1;
    }
    return Pad3(Digits(s)) + [ORD[o]];
  }
}
