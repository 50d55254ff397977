/** Quoting: `db2CopyText` fills exactly the memory it counted, and a scanner that follows sections 5.2
    and 5.3 of ISO/IEC 9075-2 reads quoted identifiers and string literals back. */
module Quoting {
  import opened Nodes

  /** Every quote character twice. */
  function Doubled(s: string, q: char): (r: string)
    ensures |r| >= |s|
  {
    if s == "" then "" else (if s[0] == q then [q, q] else [s[0]]) + Doubled(s[1..], q)
  }

  function Quoted(s: string, q: char): string {
    [q] + Doubled(s, q) + [q]
  }

  predicate Parenthesised(s: string) {
    s != "" && s[0] == '(' && s[|s| - 1] == ')'
  }

  /** What `db2CopyText` makes of a text. */
  function CopiedText(s: string, quote: bool): string {
    if quote && !Parenthesised(s) then Quoted(s, '"') else s
  }

  lemma {:induction false} DoubledSnoc(s: string, c: char, q: char)
    ensures Doubled(s + [c], q) == Doubled(s, q) + if c == q then [q, q] else [c]
  {
    if s == "" {
      assert s + [c] == [c];
    } else {
      assert (s + [c])[1..] == s[1..] + [c];
      DoubledSnoc(s[1..], c, q);
    }
  }

  /** The text without its closing quote, after i characters. */
  function Filled(s: string, i: nat, quote: bool): string
    requires i <= |s|
  {
    if quote then ['"'] + Doubled(s[..i], '"') else s[..i]
  }

  function Piece(c: char, quote: bool): string {
    if quote && c == '"' then [c, '"'] else [c]
  }

  lemma FilledStep(s: string, i: nat, quote: bool)
    requires i < |s|
    ensures Filled(s, i + 1, quote) == Filled(s, i, quote) + Piece(s[i], quote)
    ensures |Filled(s, i + 1, quote)| <= |Filled(s, |s|, quote)|
  {
    assert s[..i + 1] == s[..i] + [s[i]];
    DoubledSnoc(s[..i], s[i], '"');
    assert s == s[..i + 1] + s[i + 1..] && s[..|s|] == s;
    DoubledCat(s[..i + 1], s[i + 1..], '"');
  }

  lemma {:induction false} DoubledCat(a: string, b: string, q: char)
    ensures Doubled(a + b, q) == Doubled(a, q) + Doubled(b, q)
  {
    if a == "" {
      assert a + b == b;
    } else {
      assert (a + b)[1..] == a[1..] + b;
      DoubledCat(a[1..], b, q);
    }
  }

  method CopyVerbatim(s: string) returns (result: array<char>)
    ensures fresh(result) && result[..] == s + ['\0']
  {
    result := new char[|s| + 1];
    for i := 0 to |s|
      invariant forall k | 0 <= k < i :: result[k] == s[k]
    {
      result[i] := s[i];
    }
    result[|s|] := '\0';
  }

  /** The counting loop. */
  method ResultSize(s: string, quote: bool) returns (resultSize: nat)
    ensures resultSize == |Filled(s, |s|, quote)| + if quote then 1 else 0
  {
    resultSize := if quote then |s| + 2 else |s|;
    if quote {
      for i := 0 to |s|
        invariant resultSize == |Filled(s, i, true)| + |s| - i + 1
      {
        FilledStep(s, i, true);
        if s[i] == '"' {
          resultSize := resultSize + 1;
        }
      }
    }
  }

  /** The filling loop: j is the last position written. */
  method Fill(s: string, quote: bool, resultSize: nat) returns (result: array<char>)
    requires resultSize == |Filled(s, |s|, quote)| + if quote then 1 else 0
    ensures fresh(result) && result[..] == Filled(s, |s|, quote) + (if quote then ['"'] else []) + ['\0']
  {
    result := new char[resultSize + 1];
    var j := -1;
    if quote {
      j := j + 1;
      result[j] := '"';
    }
    for i := 0 to |s|
      invariant j + 1 == |Filled(s, i, quote)| <= resultSize
      invariant result[..j + 1] == Filled(s, i, quote)
    {
      FilledStep(s, i, quote);
      j := Put(result, j, s[i]);
      if quote && s[i] == '"' {
        j := Put(result, j, '"');
      }
    }
    if quote {
      j := Put(result, j, '"');
    }
    j := Put(result, j, '\0');
    assert result[..j + 1] == result[..];
  }

  /** `result[++j] = c`. */
  method Put(a: array<char>, j: int, c: char) returns (k: int)
    requires -1 <= j < a.Length - 1
    modifies a
    ensures k == j + 1 && a[..k + 1] == old(a[..j + 1]) + [c]
  {
    k := j + 1;
    a[k] := c;
  }

  /** `db2CopyText` uses every byte of the memory it counted, with the terminating zero last. */
  method CopyText(s: string, quote: bool) returns (result: array<char>)
    ensures fresh(result) && result[..] == CopiedText(s, quote) + ['\0']
  {
    if Parenthesised(s) {
      result := CopyVerbatim(s);
    } else {
      var resultSize := ResultSize(s, quote);
      result := Fill(s, quote, resultSize);
      assert s[..|s|] == s;
    }
  }

  /** `datumToString` for character types: no text for the empty string, which DB2 takes for NULL. */
  method QuoteLiteral(s: string) returns (r: Option<string>)
    ensures r == if s == "" then None else Some(Quoted(s, '\''))
  {
    if s == "" {
      return None;
    }
    var result := "'";
    for i := 0 to |s|
      invariant result == "'" + Doubled(s[..i], '\'')
    {
      assert s[..i + 1] == s[..i] + [s[i]];
      DoubledSnoc(s[..i], s[i], '\'');
      if s[i] == '\'' {
        result := result + "'";
      }
      result := result + [s[i]];
    }
    assert s[..|s|] == s;
    result := result + "'";
    r := Some(result);
  }

  // ----- reading back

  /** After the opening quote: two quotes stand for one, a single one ends the text. Yields the text and
      what follows its closing quote. */
  function ScanBody(s: string, q: char): Option<(string, string)> {
    if s == "" then None
    else if s[0] != q then
      var (t, rest) :- ScanBody(s[1..], q);
      Some(([s[0]] + t, rest))
    else if |s| > 1 && s[1] == q then
      var (t, rest) :- ScanBody(s[2..], q);
      Some(([q] + t, rest))
    else
      Some(("", s[1..]))
  }

  function ScanQuoted(s: string, q: char): Option<(string, string)> {
    if s != "" && s[0] == q then ScanBody(s[1..], q) else None
  }

  lemma {:induction false} ScanBodyReads(s: string, rest: string, q: char)
    requires rest == "" || rest[0] != q
    ensures ScanBody(Doubled(s, q) + [q] + rest, q) == Some((s, rest))
  {
    var text := Doubled(s, q) + [q] + rest;
    if s == "" {
      assert text == [q] + rest;
    } else {
      var more := Doubled(s[1..], q) + [q] + rest;
      ScanBodyReads(s[1..], rest, q);
      assert s == [s[0]] + s[1..];
      if s[0] == q {
        assert text == [q, q] + more;
        assert text[2..] == more;
      } else {
        assert text == [s[0]] + more;
        assert text[1..] == more;
      }
    }
  }

  lemma {:induction false} QuoteFollowedByQuote(s: string, rest: string, q: char)
    requires rest != "" && rest[0] == q
    ensures ScanBody(Doubled(s, q) + [q] + rest, q) != Some((s, rest))
  {
    var text := Doubled(s, q) + [q] + rest;
    if s == "" {
      assert text == [q] + rest;
      assert text[0] == q && text[1] == q;
    } else {
      var more := Doubled(s[1..], q) + [q] + rest;
      QuoteFollowedByQuote(s[1..], rest, q);
      if s[0] == q {
        assert text == [q, q] + more;
        assert text[2..] == more;
      } else {
        assert text == [s[0]] + more;
        assert text[1..] == more;
      }
    }
  }

  /** A quoted text is read back, and scanning stops at its end, for every text and everything that may
      follow it except another quote. */
  lemma QuotedReadsBack(s: string, rest: string, q: char)
    ensures ScanQuoted(Quoted(s, q) + rest, q) == Some((s, rest)) <==> rest == "" || rest[0] != q
  {
    var text := Quoted(s, q) + rest;
    assert text == [q] + (Doubled(s, q) + [q] + rest);
    assert text[1..] == Doubled(s, q) + [q] + rest;
    if rest == "" || rest[0] != q {
      ScanBodyReads(s, rest, q);
    } else {
      QuoteFollowedByQuote(s, rest, q);
    }
  }

  /** The name of a column survives quoting unless it is in parentheses, which are sent as they are. */
  lemma CopiedNameReadsBack(s: string)
    ensures ScanQuoted(CopiedText(s, true), '"') == Some((s, "")) <==> !(s != "" && s[0] == '(' && s[|s| - 1] == ')')
  {
    if !Parenthesised(s) {
      QuotedReadsBack(s, "", '"');
      assert Quoted(s, '"') + "" == Quoted(s, '"');
    }
  }
}
