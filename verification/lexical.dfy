/** The lexical classes of the WebIDL grammar: the regular expressions of the
    `identifier`, `integer`, `decimal`, `string` and `comment` tokens, written
    as predicates over whole lexemes, together with scanners that find them at
    the start of a text and the facts that set the number classes apart. */
module Lexical {

  predicate IsAsciiLetter(c: char) { 'A' <= c <= 'Z' || 'a' <= c <= 'z' }

  predicate IsDigit(c: char) { '0' <= c <= '9' }

  predicate IsNonZeroDigit(c: char) { '1' <= c <= '9' }

  predicate IsOctalDigit(c: char) { '0' <= c <= '7' }

  predicate IsHexDigit(c: char) { IsDigit(c) || 'A' <= c <= 'F' || 'a' <= c <= 'f' }

  /** `[0-9A-Za-z_-]` */
  predicate IsIdentifierChar(c: char) { IsAsciiLetter(c) || IsDigit(c) || c == '_' || c == '-' }

  predicate AllDigits(s: string) { forall i :: 0 <= i < |s| ==> IsDigit(s[i]) }

  predicate AllOctalDigits(s: string) { forall i :: 0 <= i < |s| ==> IsOctalDigit(s[i]) }

  predicate AllHexDigits(s: string) { forall i :: 0 <= i < |s| ==> IsHexDigit(s[i]) }

  predicate AllIdentifierChars(s: string) { forall i :: 0 <= i < |s| ==> IsIdentifierChar(s[i]) }

  /** `[0-9]+` */
  predicate IsDigitRun(s: string) { |s| > 0 && AllDigits(s) }

  // ---------------------------------------------------------------------------
  // identifier: /[_-]?[A-Za-z][0-9A-Za-z_-]*/

  predicate IsIdentifier(s: string) {
    || (|s| > 0 && IsAsciiLetter(s[0]) && AllIdentifierChars(s[1..]))
    || (|s| > 1 && (s[0] == '_' || s[0] == '-') && IsAsciiLetter(s[1]) && AllIdentifierChars(s[2..]))
  }

  /** The lexer's longest match for an identifier at the start of `s`: the
      length of the longest identifier prefix, or 0 when no prefix is one. */
  method LongestIdentifier(s: string) returns (n: nat)
    ensures n <= |s|
    ensures n == 0 || IsIdentifier(s[..n])
    ensures forall m :: n < m <= |s| ==> !IsIdentifier(s[..m])
  {
    var start := if |s| > 0 && (s[0] == '_' || s[0] == '-') then 1 else 0;
    if start >= |s| || !IsAsciiLetter(s[start]) {
      forall m | 0 < m <= |s|
        ensures !IsIdentifier(s[..m])
      {
        assert s[..m][0] == s[0];
        if m > 1 {
          assert s[..m][1] == s[1];
        }
      }
      return 0;
    }
    n := start + 1;
    while n < |s| && IsIdentifierChar(s[n])
      invariant start + 1 <= n <= |s|
      invariant forall i :: start < i < n ==> IsIdentifierChar(s[i])
    {
      n := n + 1;
    }
    assert s[..n][start + 1..] == s[start + 1..n];
    forall m | n < m <= |s|
      ensures !IsIdentifier(s[..m])
    {
      var p := s[..m];
      assert p[0] == s[0];
      assert p[n] == s[n];
      if start == 0 {
        assert p[1..][n - 1] == s[n];
      } else {
        assert p[2..][n - 2] == s[n];
      }
    }
  }

  // ---------------------------------------------------------------------------
  // integer: /-?([1-9][0-9]*|0[Xx][0-9A-Fa-f]+|0[0-7]*)/

  predicate IsUnsignedInteger(s: string) {
    || (|s| > 0 && IsNonZeroDigit(s[0]) && AllDigits(s[1..]))
    || (|s| > 2 && s[0] == '0' && (s[1] == 'x' || s[1] == 'X') && AllHexDigits(s[2..]))
    || (|s| > 0 && s[0] == '0' && AllOctalDigits(s[1..]))
  }

  predicate IsInteger(s: string) {
    IsUnsignedInteger(s) || (|s| > 0 && s[0] == '-' && IsUnsignedInteger(s[1..]))
  }

  // ---------------------------------------------------------------------------
  // decimal: /-?(([0-9]+\.[0-9]*|[0-9]*\.[0-9]+)([Ee][+-]?[0-9]+)?|[0-9]+[Ee][+-]?[0-9]+)/

  /** `[Ee][+-]?[0-9]+` */
  predicate IsExponent(s: string) {
    && |s| > 1
    && (s[0] == 'E' || s[0] == 'e')
    && (IsDigitRun(s[1..]) || ((s[1] == '+' || s[1] == '-') && IsDigitRun(s[2..])))
  }

  /** `[0-9]+\.[0-9]*|[0-9]*\.[0-9]+`: digits, one point, digits, with at
      least one digit on some side of the point. */
  predicate IsPointedMantissa(s: string) {
    exists p :: 0 <= p < |s| && s[p] == '.' && AllDigits(s[..p]) && AllDigits(s[p + 1..]) && (0 < p || p + 1 < |s|)
  }

  predicate IsUnsignedDecimal(s: string) {
    || IsPointedMantissa(s)
    || exists k :: 0 < k < |s| && (IsPointedMantissa(s[..k]) || IsDigitRun(s[..k])) && IsExponent(s[k..])
  }

  predicate IsDecimal(s: string) {
    IsUnsignedDecimal(s) || (|s| > 0 && s[0] == '-' && IsUnsignedDecimal(s[1..]))
  }

  /** The characters a decimal lexeme is made of. */
  predicate IsDecimalChar(c: char) {
    IsDigit(c) || c == '.' || c == 'E' || c == 'e' || c == '+' || c == '-'
  }

  /** A point with a digit on at least one side of it. */
  ghost predicate HasDigitPoint(s: string) {
    exists i :: 0 <= i < |s| && s[i] == '.' && ((0 < i && IsDigit(s[i - 1])) || (i + 1 < |s| && IsDigit(s[i + 1])))
  }

  /** An exponent part ending the lexeme after something else. */
  ghost predicate HasExponent(s: string) {
    exists i :: 0 < i < |s| && IsExponent(s[i..])
  }

  lemma UnsignedDecimalShape(u: string)
    requires IsUnsignedDecimal(u)
    ensures HasDigitPoint(u) || HasExponent(u)
  {
    if IsPointedMantissa(u) {
      var p :| 0 <= p < |u| && u[p] == '.' && AllDigits(u[..p]) && AllDigits(u[p + 1..]) && (0 < p || p + 1 < |u|);
      if 0 < p {
        assert u[..p][p - 1] == u[p - 1];
      } else {
        assert u[p + 1..][0] == u[p + 1];
      }
    }
  }

  /** A decimal needs a point with a digit beside it, or an exponent. */
  lemma DecimalShape(s: string)
    requires IsDecimal(s)
    ensures HasDigitPoint(s) || HasExponent(s)
  {
    if IsUnsignedDecimal(s) {
      UnsignedDecimalShape(s);
    } else {
      var u := s[1..];
      UnsignedDecimalShape(u);
      if HasDigitPoint(u) {
        var i :| 0 <= i < |u| && u[i] == '.' && ((0 < i && IsDigit(u[i - 1])) || (i + 1 < |u| && IsDigit(u[i + 1])));
        assert s[i + 1] == '.';
      } else {
        var i :| 0 < i < |u| && IsExponent(u[i..]);
        assert s[i + 1..] == u[i..];
      }
    }
  }

  /** Neither a point nor an exponent occurs in a lexeme made of digits and
      at most a leading minus. */
  lemma NoPointNorExponent(s: string)
    requires forall i :: 0 <= i < |s| ==> IsDigit(s[i]) || (i == 0 && s[i] == '-')
    ensures !HasDigitPoint(s) && !HasExponent(s)
  {
    forall i | 0 < i < |s|
      ensures !IsExponent(s[i..])
    {
      assert s[i..][0] == s[i];
    }
  }

  /** A run of digits alone is never a decimal. */
  lemma DigitRunIsNotDecimal(s: string)
    requires IsDigitRun(s)
    ensures !IsDecimal(s)
  {
    NoPointNorExponent(s);
    if IsDecimal(s) {
      DecimalShape(s);
    }
  }

  lemma MantissaChars(m: string)
    requires IsPointedMantissa(m)
    ensures forall i :: 0 <= i < |m| ==> IsDigit(m[i]) || m[i] == '.'
  {
    var p :| 0 <= p < |m| && m[p] == '.' && AllDigits(m[..p]) && AllDigits(m[p + 1..]) && (0 < p || p + 1 < |m|);
    forall i | 0 <= i < |m|
      ensures IsDigit(m[i]) || m[i] == '.'
    {
      if i < p {
        assert m[..p][i] == m[i];
      } else if i > p {
        assert m[p + 1..][i - p - 1] == m[i];
      }
    }
  }

  lemma ExponentChars(e: string)
    requires IsExponent(e)
    ensures forall i :: 0 <= i < |e| ==> IsDecimalChar(e[i])
  {
    forall i | 0 <= i < |e|
      ensures IsDecimalChar(e[i])
    {
      if i >= 2 {
        if IsDigitRun(e[1..]) {
          assert e[1..][i - 1] == e[i];
        } else {
          assert e[2..][i - 2] == e[i];
        }
      } else if i == 1 && IsDigitRun(e[1..]) {
        assert e[1..][0] == e[1];
      }
    }
  }

  lemma UnsignedDecimalChars(u: string)
    requires IsUnsignedDecimal(u)
    ensures forall i :: 0 <= i < |u| ==> IsDecimalChar(u[i])
  {
    if IsPointedMantissa(u) {
      MantissaChars(u);
    } else {
      var k :| 0 < k < |u| && (IsPointedMantissa(u[..k]) || IsDigitRun(u[..k])) && IsExponent(u[k..]);
      if IsPointedMantissa(u[..k]) {
        MantissaChars(u[..k]);
      }
      ExponentChars(u[k..]);
      forall i | 0 <= i < |u|
        ensures IsDecimalChar(u[i])
      {
        if i < k {
          assert u[..k][i] == u[i];
        } else {
          assert u[k..][i - k] == u[i];
        }
      }
    }
  }

  lemma DecimalChars(s: string)
    requires IsDecimal(s)
    ensures forall i :: 0 <= i < |s| ==> IsDecimalChar(s[i])
  {
    if IsUnsignedDecimal(s) {
      UnsignedDecimalChars(s);
    } else {
      UnsignedDecimalChars(s[1..]);
      forall i | 0 < i < |s|
        ensures IsDecimalChar(s[i])
      {
        assert s[1..][i - 1] == s[i];
      }
    }
  }

  /** No lexeme is both an integer and a decimal: an integer has no point and
      carries an `e` only as a hexadecimal digit after `0x`, which no decimal
      contains. */
  lemma IntegerAndDecimalAreDisjoint(s: string)
    ensures !(IsInteger(s) && IsDecimal(s))
  {
    if IsInteger(s) {
      var u := if IsUnsignedInteger(s) then s else s[1..];
      var d := if IsUnsignedInteger(s) then 0 else 1;
      assert forall i :: 0 <= i < |u| ==> u[i] == s[i + d];
      if |u| > 2 && u[0] == '0' && (u[1] == 'x' || u[1] == 'X') && AllHexDigits(u[2..]) {
        assert !IsDecimalChar(s[1 + d]);
        if IsDecimal(s) {
          DecimalChars(s);
        }
      } else {
        forall i | 0 < i < |u|
          ensures IsDigit(u[i])
        {
          assert u[1..][i - 1] == u[i];
        }
        NoPointNorExponent(s);
        if IsDecimal(s) {
          DecimalShape(s);
        }
      }
    }
  }

  /** Among digit runs, exactly those that do not start with `0` and those
      whose remaining digits are octal are integers: a bare `0` is one, `08`
      is not. */
  lemma DigitRunInteger(s: string)
    requires IsDigitRun(s)
    ensures IsInteger(s) <==> (s[0] != '0' || AllOctalDigits(s[1..]))
  {
    if s[0] != '0' {
      assert forall i :: 0 <= i < |s[1..]| ==> s[1..][i] == s[i + 1];
    }
  }

  // ---------------------------------------------------------------------------
  // string: /"[^"]*"/

  predicate IsString(s: string) {
    |s| >= 2 && s[0] == '"' && s[|s| - 1] == '"' && forall i :: 0 < i < |s| - 1 ==> s[i] != '"'
  }

  /** The string lexeme at the start of `s`: it ends at the first closing
      quote, so at most one prefix of `s` is a string; 0 when none is. */
  method ScanString(s: string) returns (n: nat)
    ensures n <= |s|
    ensures n == 0 || IsString(s[..n])
    ensures forall m :: 0 < m <= |s| && m != n ==> !IsString(s[..m])
  {
    if |s| == 0 || s[0] != '"' {
      forall m | 0 < m <= |s|
        ensures !IsString(s[..m])
      {
        assert s[..m][0] == s[0];
      }
      return 0;
    }
    var i := 1;
    while i < |s| && s[i] != '"'
      invariant 1 <= i <= |s|
      invariant forall j :: 0 < j < i ==> s[j] != '"'
    {
      i := i + 1;
    }
    if i == |s| {
      forall m | 0 < m <= |s|
        ensures !IsString(s[..m])
      {
        assert s[..m][m - 1] == s[m - 1];
      }
      return 0;
    }
    n := i + 1;
    forall m | 0 < m <= |s| && m != n
      ensures !IsString(s[..m])
    {
      var p := s[..m];
      if m > n {
        assert p[i] == s[i];
      } else {
        assert p[m - 1] == s[m - 1];
      }
    }
  }

  // ---------------------------------------------------------------------------
  // comment: "//" /.*/  |  "/*" /[^*]*\*+(?:[^/*][^*]*\*+)*/ "/"

  /** A line comment runs from `//` to the end of the line (`.` matches any
      character but a line feed). */
  predicate IsLineComment(s: string) {
    |s| >= 2 && s[0] == '/' && s[1] == '/' && forall i :: 2 <= i < |s| ==> s[i] != '\n'
  }

  /** `*` immediately followed by `/`, with the star at index 2 or later:
      a closing delimiter inside s[2..hi]. */
  ghost predicate ClosesWithin(s: string, hi: int)
    requires hi <= |s|
  {
    exists k :: 2 <= k && k + 1 < hi && s[k] == '*' && s[k + 1] == '/'
  }

  // A block comment opens with slash-star, ends with the first star-slash
  // after the opening, and does not nest.
  predicate IsBlockComment(s: string) {
    && |s| >= 4
    && s[0] == '/' && s[1] == '*'
    && s[|s| - 2] == '*' && s[|s| - 1] == '/'
    && forall k :: 2 <= k < |s| - 2 ==> !(s[k] == '*' && s[k + 1] == '/')
  }

  predicate IsComment(s: string) { IsLineComment(s) || IsBlockComment(s) }

  // The states of the block-comment expression after its opening slash-star:
  // inside `[^*]*`, inside `\*+`, after the final slash, and dead.
  datatype CommentState = InText | InStars | Closed | Dead

  function Step(q: CommentState, c: char): CommentState {
    match q
    case InText => if c == '*' then InStars else InText
    case InStars => if c == '*' then InStars else if c == '/' then Closed else InText
    case Closed => Dead
    case Dead => Dead
  }

  /** The block-comment expression run as its automaton over `s`. */
  method MatchBlockComment(s: string) returns (ok: bool)
    ensures ok <==> IsBlockComment(s)
  {
    if |s| < 2 || s[0] != '/' || s[1] != '*' {
      return false;
    }
    var q := InText;
    var i := 2;
    while i < |s|
      invariant 2 <= i <= |s|
      invariant q == Dead <==> ClosesWithin(s, i - 1)
      invariant q == Closed <==> !ClosesWithin(s, i - 1) && i >= 4 && s[i - 2] == '*' && s[i - 1] == '/'
      invariant q == InStars <==> !ClosesWithin(s, i) && i > 2 && s[i - 1] == '*'
      invariant q == InText <==> !ClosesWithin(s, i) && (i == 2 || s[i - 1] != '*')
    {
      q := Step(q, s[i]);
      i := i + 1;
    }
    ok := q == Closed;
  }
}
