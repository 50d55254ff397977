/** The text of a DECIMAL value and the buffer it is fetched into: `describeForeignTable` and
    `db2PrepareQuery` size the buffer, `db2FetchNext` fills and terminates it. */
module DecimalText {
  import opened Lob

  // ----- decimal texts

  function Pow10(k: nat): (r: nat)
    ensures r > 0
  {
    if k == 0 then 1 else 10 * Pow10(k - 1)
  }

  function DigitChar(d: nat): char
    requires d < 10
  {
    "0123456789"[d]
  }

  /** Without leading zeros, but at least one digit. */
  function Digits(n: nat): string {
    if n < 10 then [DigitChar(n)] else Digits(n / 10) + [DigitChar(n % 10)]
  }

  /** Exactly k digits. */
  function Padded(n: nat, k: nat): string {
    if k == 0 then "" else Padded(n / 10, k - 1) + [DigitChar(n % 10)]
  }

  function Quotient(m: nat, b: nat): nat
    requires b > 0
  {
    m / b
  }

  function Rest(m: nat, b: nat): nat
    requires b > 0
  {
    m % b
  }

  /** The text of n / 10^scale: sign, integer part, separator, fraction. */
  function DecimalTextOf(n: int, scale: nat, separator: char): string {
    var m: nat := if n < 0 then -n else n;
    (if n < 0 then "-" else "") + Digits(Quotient(m, Pow10(scale)))
    + (if scale == 0 then "" else [separator] + Padded(Rest(m, Pow10(scale)), scale))
  }

  lemma {:induction false} DigitsLength(n: nat, k: nat)
    requires n < Pow10(k)
    ensures |Digits(n)| <= if k == 0 then 1 else k
    decreases k
  {
    if k > 1 && n >= 10 {
      DigitsLength(n / 10, k - 1);
    }
  }

  lemma {:induction false} PaddedLength(n: nat, k: nat)
    ensures |Padded(n, k)| == k
    decreases k
  {
    if k > 0 {
      PaddedLength(n / 10, k - 1);
    }
  }

  lemma {:induction false} PowAdds(a: nat, b: nat)
    ensures Pow10(a + b) == Pow10(a) * Pow10(b)
    decreases a
  {
    if a > 0 {
      PowAdds(a - 1, b);
      assert Pow10(a + b) == 10 * Pow10(a - 1 + b) == 10 * (Pow10(a - 1) * Pow10(b));
    }
  }

  lemma QuotientBelow(m: nat, a: nat, b: nat)
    requires b > 0 && m < a * b
    ensures Quotient(m, b) < a
  {
    var q := m / b;
    assert q * b <= m < a * b;
    assert (a - q) * b > 0;
  }

  /** The values of a DECIMAL(p, s), as multiples of 1 / 10^s. */
  predicate InRange(n: int, p: nat) {
    -(Pow10(p) as int) < n < Pow10(p)
  }

  /** The length of the longest text of a DECIMAL(p, s). */
  function MaxLength(p: nat, s: nat): nat
    requires s <= p
  {
    1 + (if p == s then 1 else p - s) + if s == 0 then 0 else 1 + s
  }

  lemma TextLength(n: int, scale: nat, separator: char)
    ensures var m: nat := if n < 0 then -n else n;
      |DecimalTextOf(n, scale, separator)|
        == (if n < 0 then 1 else 0) + |Digits(Quotient(m, Pow10(scale)))| + if scale == 0 then 0 else 1 + scale
  {
    var m: nat := if n < 0 then -n else n;
    PaddedLength(Rest(m, Pow10(scale)), scale);
    hide Pow10, Quotient, Rest, Digits, Padded;
  }

  /** At most p - s digits come before the separator. */
  lemma NoLonger(n: int, p: nat, s: nat, separator: char)
    requires s <= p && InRange(n, p)
    ensures |DecimalTextOf(n, s, separator)| <= MaxLength(p, s)
  {
    var m: nat := if n < 0 then -n else n;
    PowAdds(p - s, s);
    QuotientBelow(m, Pow10(p - s), Pow10(s));
    DigitsLength(Quotient(m, Pow10(s)), p - s);
    TextLength(n, s, separator);
  }

  lemma {:induction false} NinesLength(k: nat)
    ensures |Digits(Pow10(k) - 1)| == if k == 0 then 1 else k
    decreases k
  {
    if k > 1 {
      NinesLength(k - 1);
      assert (Pow10(k) - 1) / 10 == Pow10(k - 1) - 1;
    } else {
      assert Pow10(0) == 1;
    }
  }

  lemma FactorLess(x: int, y: int, b: nat)
    requires x * b < y * b
    ensures x < y
  {
    assert (y - x) * b > 0;
  }

  lemma QuotientBounds(m: nat, b: nat)
    requires b > 0
    ensures var q := Quotient(m, b); q * b <= m < (q + 1) * b
  {
  }

  lemma QuotientAtLeast(m: nat, a: nat, b: nat)
    requires b > 0 && a * b <= m
    ensures a <= Quotient(m, b)
  {
    QuotientBounds(m, b);
    hide Quotient;
    FactorLess(a, Quotient(m, b) + 1, b);
  }

  lemma QuotientOfNines(m: nat, a: nat, b: nat)
    requires a > 0 && b > 0 && m + 1 == a * b
    ensures Quotient(m, b) == a - 1
  {
    hide Quotient;
    QuotientBelow(m, a, b);
    assert (a - 1) * b == a * b - b;
    QuotientAtLeast(m, a - 1, b);
  }

  /** The longest text is that of a minus sign and all nines. */
  lemma LongestText(p: nat, s: nat, separator: char)
    requires 0 < p && s <= p
    ensures InRange(1 - Pow10(p), p) && |DecimalTextOf(1 - Pow10(p), s, separator)| == MaxLength(p, s)
  {
    hide Quotient, Rest, Pow10, Digits, Padded, DecimalTextOf;
    NinesAbove(p);
    PowQuotient(p, s);
    NinesLength(p - s);
    TextLength(1 - Pow10(p), s, separator);
  }

  lemma NinesAbove(p: nat)
    requires 0 < p
    ensures Pow10(p) > 1
  {
    assert Pow10(p) == 10 * Pow10(p - 1);
  }

  lemma PowQuotient(p: nat, s: nat)
    requires s <= p
    ensures Quotient(Pow10(p) - 1, Pow10(s)) == Pow10(p - s) - 1
  {
    PowAdds(p - s, s);
    var m: nat, a, b := Pow10(p) - 1, Pow10(p - s), Pow10(s);
    QuotientOfNines(m, a, b);
  }

  // ----- the buffer

  /** `describeForeignTable` for SQL_NUMERIC and SQL_DECIMAL. */
  function DescribedSize(colSize: nat, scale: nat, colBytes: nat): nat {
    if scale == 0 then colBytes + 1 else (if scale > colSize then scale else colSize) + 5
  }

  /** `db2PrepareQuery`: the buffer is enlarged if it is smaller than what is needed. */
  function PreparedSize(valSize: nat, colSize: nat, scale: nat): (size: nat)
    ensures size >= valSize && size > 2 && (colSize == 0 ==> size >= 34)
  {
    var needed := (if colSize > 0 then colSize else 32) + 2 + (if scale > 0 then 1 else 0);
    if valSize < needed then needed else valSize
  }

  /** Where the values come from another column than the layout: all of them fit if and only if the longest one does. */
  lemma AllFitIfLongestFits(p: nat, s: nat, size: nat, separator: char)
    requires 0 < p && s <= p
    ensures (forall n | InRange(n, p) :: |DecimalTextOf(n, s, separator)| < size) <==> MaxLength(p, s) < size
  {
    hide DecimalTextOf, MaxLength;
    LongestText(p, s, separator);
    forall n | InRange(n, p) ensures |DecimalTextOf(n, s, separator)| <= MaxLength(p, s) {
      NoLonger(n, p, s, separator);
    }
  }

  /** Every DECIMAL(p, s) value fits into a buffer of its own layout, with its terminator, whatever size the column option
      claims in bytes. */
  lemma DecimalFits(n: int, p: nat, s: nat, colBytes: nat, separator: char)
    requires 0 < p && s <= p && InRange(n, p)
    ensures |DecimalTextOf(n, s, separator)| < PreparedSize(DescribedSize(p, s, colBytes), p, s)
  {
    NoLonger(n, p, s, separator);
  }

  /** What `db2PrepareQuery` needs on its own would be one byte short for a fraction with as many digits
      as the precision, such as -0.5 as a DECIMAL(1, 1). */
  lemma PrepareAloneIsShort(separator: char)
    ensures |DecimalTextOf(-5, 1, separator)| == PreparedSize(0, 1, 1)
  {
    assert Pow10(1) == 10 * Pow10(0) == 10;
    assert Padded(5, 1) == Padded(0, 0) + [DigitChar(5)];
    assert Digits(0) == [DigitChar(0)];
  }

  // ----- fetching

  const SQL_NULL_DATA: int := -1

  /** `strlen` of a terminated text: the first terminator. */
  method StrLen(val: array<char>) returns (n: nat)
    requires val.Length > 0 && val[val.Length - 1] == '\0'
    ensures n < val.Length && val[n] == '\0' && forall k | 0 <= k < n :: val[k] != '\0'
  {
    n := 0;
    while val[n] != '\0'
      invariant n < val.Length && forall k | 0 <= k < n :: val[k] != '\0'
      decreases val.Length - n
    {
      n := n + 1;
    }
  }

  /** The part of `db2FetchNext` for one column that is not bound: fetch, and after a truncation that
      tells the length fetch once more into a larger buffer. The second call only gets what the first one
      left over. Whatever happens, the text is shorter than the buffer and terminated. (A prepared buffer
      has room for more than the terminator.) */
  method FetchText(column: Column, buffer: array<char>) returns (val: array<char>, valLen: nat, valNull: int)
    requires column.pos == 0 && !column.binary && buffer.Length > 1 && (column.isNull ==> column.data == "")
    modifies column`pos, buffer
    ensures column.isNull ==> valNull == SQL_NULL_DATA && valLen == 0 && val == buffer
    ensures !column.isNull ==> valNull == valLen < val.Length && val[valLen] == '\0'
    ensures !column.isNull ==> (val[..valLen] == column.data <==> |column.data| < buffer.Length)
    ensures |column.data| < buffer.Length ==> val == buffer
    ensures |column.data| >= buffer.Length && '\0' !in column.data ==>
      val[..valLen] == column.data[..buffer.Length - 1] || val[..valLen] == column.data[buffer.Length - 1..]
  {
    val := buffer;
    var rc, ind := column.GetData(val);
    if ind.NullData? {
      return val, 0, SQL_NULL_DATA;
    }
    if ind.NoTotal? {
      val[val.Length - 1] := '\0';
      valLen := StrLen(val);
      valNull := valLen;
      return;
    }
    if rc.SuccessWithInfo? && ind.n >= val.Length {
      val := new char[ind.n + 1];
      rc, ind := column.GetData(val);
    }
    // the length is below the size of the buffer here, so it is never cut down to it
    valLen := ind.n;
    ghost var got := val[..valLen];
    assert |column.data| < buffer.Length ==> got == column.data;
    valNull := valLen;
    val[valLen] := '\0';
    assert val[..valLen] == got;
  }

  /** A decimal of any scale, fetched into the buffer that was prepared for the layout of a DECIMAL(p, s) column. A computed
      value borrows the layout of a column in it, so its scale need not be s: its text arrives whole if and only if it is
      shorter than the buffer, as every value of the column itself is. */
  method FetchDecimal(n: int, scale: nat, p: nat, s: nat, colBytes: nat, separator: char) returns (val: array<char>, valLen: nat)
    ensures valLen < val.Length && val[valLen] == '\0'
    ensures var text, size := DecimalTextOf(n, scale, separator), PreparedSize(DescribedSize(p, s, colBytes), p, s);
      && (val[..valLen] == text <==> |text| < size) && (|text| < size ==> val.Length == size)
      && (0 < p && scale == s <= p && InRange(n, p) ==> val[..valLen] == text)
      && (|text| >= size && '\0' !in text ==> val[..valLen] == text[..size - 1] || val[..valLen] == text[size - 1..])
  {
    hide DecimalTextOf, PreparedSize, DescribedSize, InRange;
    if 0 < p && scale == s <= p && InRange(n, p) {
      DecimalFits(n, p, s, colBytes, separator);
    }
    var buffer := new char[PreparedSize(DescribedSize(p, s, colBytes), p, s)];
    var column := new Column(Nodes.Some(DecimalTextOf(n, scale, separator)), false);
    var valNull;
    val, valLen, valNull := FetchText(column, buffer);
  }

  lemma ProductParts()
    ensures Pow10(4) == 10_000 && Digits(999_980) == "999980" && Padded(1, 4) == "0001"
  {
    assert Digits(99) == "99" && Digits(9_999) == "9999" && Digits(99_998) == "99998";
    assert Padded(0, 2) == "00" && Padded(0, 3) == "000";
  }

  /** 999.99 times -999.99, the product of two DECIMAL(5, 2) columns. */
  lemma ProductText()
    ensures DecimalTextOf(-9_999_800_001, 4, '.') == "-999980.0001"
    ensures PreparedSize(DescribedSize(5, 2, 7), 5, 2) == 10
  {
    ProductParts();
    assert Quotient(9_999_800_001, 10_000) == 999_980 && Rest(9_999_800_001, 10_000) == 1;
    hide Pow10, Digits, Padded, Quotient, Rest;
  }

  /** `SELECT d1 * d2, count(*) .. GROUP BY d1 * d2`: of this product DB2's client delivers a part only. */
  method ProductIsCut() returns (val: array<char>, valLen: nat)
    ensures valLen < val.Length && (val[..valLen] == "-999980.0" || val[..valLen] == "001")
  {
    ProductText();
    val, valLen := FetchDecimal(99_999 * -99_999, 4, 5, 2, 7, '.');
  }

  // ----- bound columns

  /** The driver fills a bound column: as much text as fits in front of a terminator, and the full length. */
  method FillBound(data: string, isNull: bool, val: array<char>) returns (indicator: int)
    requires val.Length > 0
    modifies val
    ensures isNull ==> indicator == SQL_NULL_DATA
    ensures !isNull ==> indicator == |data| && val[..Min(|data|, val.Length - 1)] == data[..Min(|data|, val.Length - 1)]
  {
    if isNull {
      return SQL_NULL_DATA;
    }
    var count := Min(|data|, val.Length - 1);
    for i := 0 to count
      invariant forall k | 0 <= k < i :: val[k] == data[k]
    {
      val[i] := data[i];
    }
    val[count] := '\0';
    indicator := |data|;
  }

  /** The last loop of `db2FetchNext`, for one column. */
  method Terminate(val: array<char>, valNull: int) returns (valLen: nat)
    requires val.Length > 0
    modifies val
    ensures valNull < 0 ==> valLen == 0 && val[..] == old(val[..])
    ensures valNull >= 0 ==> valLen == Min(valNull, val.Length - 1) && val[..] == old(val[..])[valLen := '\0']
  {
    valLen := 0;
    if valNull >= 0 {
      valLen := valNull;
      if valLen >= val.Length {
        valLen := val.Length - 1;
      }
      val[valLen] := '\0';
    }
  }

  /** A bound text is shorter than its buffer and terminated; a longer one is cut, never overrun. */
  method FetchBound(data: string, isNull: bool, val: array<char>) returns (valNull: int, valLen: nat)
    requires val.Length > 0
    modifies val
    ensures isNull ==> valNull == SQL_NULL_DATA && valLen == 0
    ensures !isNull ==> valNull == |data| && valLen < val.Length && val[valLen] == '\0' && val[..valLen] <= data
    ensures !isNull ==> (val[..valLen] == data <==> |data| < val.Length)
  {
    valNull := FillBound(data, isNull, val);
    ghost var filled := val[..];
    valLen := Terminate(val, valNull);
    assert !isNull ==> val[..valLen] == filled[..valLen] == data[..valLen];
  }

  // ----- the decimal comma of a locale

  /** The first separator replaced by a point. */
  function PointForComma(s: string): string {
    if s == "" then "" else if s[0] == ',' then ['.'] + s[1..] else [s[0]] + PointForComma(s[1..])
  }

  /** The part of `convertTuple` for numbers. */
  method ReplaceComma(val: array<char>, valLen: nat)
    requires valLen <= val.Length
    modifies val
    ensures val[..valLen] == PointForComma(old(val[..valLen]))
    ensures forall k | valLen <= k < val.Length :: val[k] == old(val[k])
  {
    ghost var text := val[..valLen];
    var i := 0;
    while i < valLen && val[i] != ','
      invariant i <= valLen
      invariant forall k | 0 <= k < i :: text[k] != ','
    {
      i := i + 1;
    }
    FirstComma(text, i);
    if i < valLen {
      val[i] := '.';
      assert val[..valLen] == text[i := '.'];
    }
  }

  lemma {:induction false} FirstComma(s: string, i: nat)
    requires i <= |s| && (i < |s| ==> s[i] == ',') && forall k | 0 <= k < i :: s[k] != ','
    ensures PointForComma(s) == if i < |s| then s[i := '.'] else s
  {
    if i > 0 {
      FirstComma(s[1..], i - 1);
    }
  }

  lemma CommaAfter(a: string, b: string)
    requires forall i | 0 <= i < |a| :: a[i] != ','
    ensures PointForComma(a + [','] + b) == a + ['.'] + b
    ensures PointForComma(a) == a
  {
    FirstComma(a + [','] + b, |a|);
    FirstComma(a, |a|);
    assert (a + [','] + b)[|a| := '.'] == a + ['.'] + b;
  }

  lemma {:induction false} DigitsNoComma(n: nat, i: nat)
    requires i < |Digits(n)|
    ensures Digits(n)[i] != ','
    decreases n
  {
    if n >= 10 && i < |Digits(n / 10)| {
      DigitsNoComma(n / 10, i);
    }
  }

  /** Sign and integer part. */
  function HeadOf(n: int, q: nat): string {
    (if n < 0 then "-" else "") + Digits(q)
  }

  lemma HeadNoComma(n: int, q: nat, i: nat)
    requires i < |HeadOf(n, q)|
    ensures HeadOf(n, q)[i] != ','
  {
    var sign := if n < 0 then 1 else 0;
    if i >= sign {
      DigitsNoComma(q, i - sign);
    }
  }

  /** A number written with a decimal comma becomes the same number with a point. */
  lemma CommaBecomesPoint(n: int, s: nat)
    ensures PointForComma(DecimalTextOf(n, s, ',')) == DecimalTextOf(n, s, '.')
  {
    var m: nat := if n < 0 then -n else n;
    var head := HeadOf(n, Quotient(m, Pow10(s)));
    var tail := Padded(Rest(m, Pow10(s)), s);
    forall i | 0 <= i < |head| ensures head[i] != ',' {
      HeadNoComma(n, Quotient(m, Pow10(s)), i);
    }
    CommaAfter(head, tail);
    hide PointForComma, Digits, Padded;
    if s > 0 {
      assert DecimalTextOf(n, s, ',') == head + [','] + tail;
      assert DecimalTextOf(n, s, '.') == head + ['.'] + tail;
    } else {
      assert DecimalTextOf(n, s, ',') == head == DecimalTextOf(n, s, '.');
    }
  }
}
