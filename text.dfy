/** String helpers shared by the topic router, the PHP casts, the client
    roster and the publisher's signature: splitting on a separator,
    trimming, decimal text, PHP's (int) cast of a string, and the
    code-point order in which device ids and labels are sorted. */
module Text {

  // ---------------------------------------------------------------------
  // Splitting and joining on a one-character separator
  // ---------------------------------------------------------------------

  /** PHP explode / JS String.split with a one-character separator:
      "" gives [""], and k separators give k + 1 pieces. */
  function Split(s: string, sep: char): (parts: seq<string>)
    ensures |parts| >= 1
    ensures forall i :: 0 <= i < |parts| ==> sep !in parts[i]
    decreases |s|
  {
    if s == [] then [""]
    else if s[0] == sep then [""] + Split(s[1..], sep)
    else
      var rest := Split(s[1..], sep);
      [[s[0]] + rest[0]] + rest[1..]
  }

  /** The inverse of Split: the pieces glued back with the separator. */
  function Join(parts: seq<string>, sep: char): string
    requires |parts| >= 1
    decreases |parts|
  {
    if |parts| == 1 then parts[0] else parts[0] + [sep] + Join(parts[1..], sep)
  }

  /** Splitting and joining again gives back the original string. */
  lemma {:induction false} JoinSplit(s: string, sep: char)
    ensures Join(Split(s, sep), sep) == s
    decreases |s|
  {
    if s == [] {
    } else if s[0] == sep {
      JoinSplit(s[1..], sep);
      assert Split(s, sep)[1..] == Split(s[1..], sep);
    } else {
      var rest := Split(s[1..], sep);
      JoinSplit(s[1..], sep);
      assert Split(s, sep) == [[s[0]] + rest[0]] + rest[1..];
      JoinConsPiece(s[0], rest, sep);
      assert [s[0]] + s[1..] == s;
    }
  }

  /** Putting a character in front of the first piece puts it in front of
      the join. */
  lemma JoinConsPiece(c: char, rest: seq<string>, sep: char)
    requires |rest| >= 1
    ensures Join([[c] + rest[0]] + rest[1..], sep) == [c] + Join(rest, sep)
  {
    var parts := [[c] + rest[0]] + rest[1..];
    assert parts[0] == [c] + rest[0] && parts[1..] == rest[1..];
    if |rest| > 1 {
      var tail := Join(rest[1..], sep);
      assert Join(parts, sep) == parts[0] + [sep] + tail;
      assert parts[0] + [sep] + tail == [c] + (rest[0] + [sep] + tail);
    }
  }

  lemma {:induction false} SplitWithoutSeparator(a: string, sep: char)
    requires sep !in a
    ensures Split(a, sep) == [a]
    decreases |a|
  {
    if a != [] {
      SplitWithoutSeparator(a[1..], sep);
      assert [a[0]] + a[1..] == a;
    }
  }

  lemma {:induction false} SplitFirstPiece(a: string, sep: char, rest: string)
    requires sep !in a
    ensures Split(a + [sep] + rest, sep) == [a] + Split(rest, sep)
    decreases |a|
  {
    var s := a + [sep] + rest;
    if a == [] {
      assert s[0] == sep && s[1..] == rest;
    } else {
      assert s[0] == a[0] && s[1..] == a[1..] + [sep] + rest;
      SplitFirstPiece(a[1..], sep, rest);
      assert [a[0]] + a[1..] == a;
    }
  }

  /** Joining separator-free pieces and splitting again gives back the pieces. */
  lemma {:induction false} SplitJoin(parts: seq<string>, sep: char)
    requires |parts| >= 1
    requires forall i :: 0 <= i < |parts| ==> sep !in parts[i]
    ensures Split(Join(parts, sep), sep) == parts
    decreases |parts|
  {
    if |parts| == 1 {
      SplitWithoutSeparator(parts[0], sep);
    } else {
      SplitJoin(parts[1..], sep);
      SplitFirstPiece(parts[0], sep, Join(parts[1..], sep));
      assert [parts[0]] + parts[1..] == parts;
    }
  }

  // ---------------------------------------------------------------------
  // Trimming
  // ---------------------------------------------------------------------

  /** Drops every leading character that belongs to cs. */
  function TrimStart(s: string, cs: set<char>): (r: string)
    ensures |r| <= |s| && r == s[|s| - |r|..]
    ensures forall i :: 0 <= i < |s| - |r| ==> s[i] in cs
    ensures r == [] || r[0] !in cs
    decreases |s|
  {
    if s != [] && s[0] in cs then TrimStart(s[1..], cs) else s
  }

  /** Drops every trailing character that belongs to cs. */
  function TrimEnd(s: string, cs: set<char>): (r: string)
    ensures |r| <= |s| && r == s[..|r|]
    ensures forall i :: |r| <= i < |s| ==> s[i] in cs
    ensures r == [] || r[|r| - 1] !in cs
    decreases |s|
  {
    if s != [] && s[|s| - 1] in cs then TrimEnd(s[..|s| - 1], cs) else s
  }

  /** Both ends: PHP trim($s, $chars), and JS replace(/^\/+|\/+$/g, '')
      when cs is {'/'}. */
  function Trim(s: string, cs: set<char>): (r: string)
    ensures r == [] || (r[0] !in cs && r[|r| - 1] !in cs)
  {
    TrimEnd(TrimStart(s, cs), cs)
  }

  /** A string that neither starts nor ends with a member of cs is left alone. */
  lemma TrimUntouched(s: string, cs: set<char>)
    requires s == [] || (s[0] !in cs && s[|s| - 1] !in cs)
    ensures Trim(s, cs) == s
  {
  }

  /** The characters PHP's trim() removes when no list is given. */
  const PhpWhitespace: set<char> := {' ', '\t', '\n', '\r', '\0', '\U{B}'}

  /** The characters JS String.prototype.trim() removes: WhiteSpace and
      LineTerminator of ECMA-262 (section 12.2 and 12.3 of the 2023 edition). */
  const JsWhitespace: set<char> :=
    {'\t', '\n', '\U{B}', '\U{C}', '\r', ' ', '\U{A0}', '\U{1680}',
     '\U{2000}', '\U{2001}', '\U{2002}', '\U{2003}', '\U{2004}', '\U{2005}',
     '\U{2006}', '\U{2007}', '\U{2008}', '\U{2009}', '\U{200A}',
     '\U{2028}', '\U{2029}', '\U{202F}', '\U{205F}', '\U{3000}', '\U{FEFF}'}

  // ---------------------------------------------------------------------
  // Decimal text
  // ---------------------------------------------------------------------

  predicate IsDigit(c: char) { '0' <= c <= '9' }

  function DigitChar(d: nat): (c: char)
    requires d < 10
    ensures IsDigit(c)
  {
    ['0', '1', '2', '3', '4', '5', '6', '7', '8', '9'][d]
  }

  function DigitValue(c: char): (d: nat)
    requires IsDigit(c)
    ensures d < 10
  {
    (c as int - '0' as int) as nat
  }

  /** Decimal digits of n, most significant first, without leading zeros. */
  function NatToString(n: nat): (s: string)
    ensures |s| >= 1 && forall i :: 0 <= i < |s| ==> IsDigit(s[i])
    ensures |s| > 1 ==> s[0] != '0'
    decreases n
  {
    if n < 10 then [DigitChar(n)] else NatToString(n / 10) + [DigitChar(n % 10)]
  }

  /** String(i) in JS, (string) $i in PHP, str(i) in Python. */
  function IntToString(i: int): string
  {
    if i < 0 then "-" + NatToString(-i) else NatToString(i)
  }

  /** The value of a run of decimal digits. */
  function DigitsValue(s: string): nat
    requires forall i :: 0 <= i < |s| ==> IsDigit(s[i])
    decreases |s|
  {
    if s == [] then 0 else DigitsValue(s[..|s| - 1]) * 10 + DigitValue(s[|s| - 1])
  }

  lemma {:induction false} DigitValueOfDigitChar(d: nat)
    requires d < 10
    ensures DigitValue(DigitChar(d)) == d
  {
  }

  /** NatToString is read back by DigitsValue. */
  lemma {:induction false} NatToStringValue(n: nat)
    ensures DigitsValue(NatToString(n)) == n
    decreases n
  {
    var s := NatToString(n);
    if n < 10 {
      DigitValueOfDigitChar(n);
    } else {
      NatToStringValue(n / 10);
      DigitValueOfDigitChar(n % 10);
      assert s[..|s| - 1] == NatToString(n / 10);
    }
  }

  /** The longest prefix of s made of decimal digits. */
  function LeadingDigits(s: string): (r: string)
    ensures |r| <= |s| && r == s[..|r|]
    ensures forall i :: 0 <= i < |r| ==> IsDigit(r[i])
    ensures |r| < |s| ==> !IsDigit(s[|r|])
    decreases |s|
  {
    if s != [] && IsDigit(s[0]) then [s[0]] + LeadingDigits(s[1..]) else []
  }

  lemma {:induction false} LeadingDigitsOfDigits(s: string)
    requires forall i :: 0 <= i < |s| ==> IsDigit(s[i])
    ensures LeadingDigits(s) == s
    decreases |s|
  {
    if s != [] {
      LeadingDigitsOfDigits(s[1..]);
      assert [s[0]] + s[1..] == s;
    }
  }

  const PhpIntMax: int := 0x7FFF_FFFF_FFFF_FFFF
  const PhpIntMin: int := -0x8000_0000_0000_0000

  /** The characters PHP 8 accepts before a numeric string. */
  const PhpNumericLeadingSpace: set<char> := {' ', '\t', '\n', '\r', '\U{B}', '\U{C}'}

  /** m times 10 to the power shift, truncated toward zero when shift is
      negative. */
  function ScaleBy10(m: nat, shift: int): nat
    decreases if shift >= 0 then shift else -shift
  {
    if shift == 0 then m
    else if shift > 0 then ScaleBy10(m * 10, shift - 1)
    else ScaleBy10(m / 10, shift + 1)
  }

  /** The least magnitude that a double rounds up to infinity:
      2^1024 - 2^970, half a unit above the largest finite double. */
  const DoubleOverflow: nat := 0xFFFF_FFFF_FFFF_FC00_0000_0000_0000_0000_0000_0000_0000_0000_0000_0000_0000_0000_0000_0000_0000_0000_0000_0000_0000_0000_0000_0000_0000_0000_0000_0000_0000_0000_0000_0000_0000_0000_0000_0000_0000_0000_0000_0000_0000_0000_0000_0000_0000_0000_0000_0000_0000_0000_0000_0000_0000_0000_0000_0000_0000_0000_0000_0000_0000_0000

  /** The exponent at the head of s: e or E, an optional sign and at least
      one digit; 0 when s does not start with one (the e is then trailing
      text, as in "1e" or "1e+"). */
  function ExponentOf(s: string): int
  {
    if |s| >= 2 && (s[0] == 'e' || s[0] == 'E') then
      if IsDigit(s[1]) then DigitsValue(LeadingDigits(s[1..]))
      else if |s| >= 3 && (s[1] == '+' || s[1] == '-') && IsDigit(s[2]) then
        var e: int := DigitsValue(LeadingDigits(s[2..]));
        if s[1] == '-' then -e else e
      else 0
    else 0
  }

  /** The unsigned numeric prefix of body read as PHP reads a numeric
      string (digits, then "." and digits, then an exponent), truncated
      toward zero; 0 when no digit comes before or right after the point. */
  function NumericMagnitude(body: string): nat
  {
    var whole := LeadingDigits(body);
    var rest := body[|whole|..];
    var fraction := if rest != [] && rest[0] == '.' then LeadingDigits(rest[1..]) else [];
    var tail := if rest != [] && rest[0] == '.' then rest[1 + |fraction|..] else rest;
    var mantissa := DigitsValue(whole + fraction);
    ScaleBy10(mantissa, ExponentOf(tail) - |fraction|)
  }

  /** PHP 8's (int) cast of a string on a 64-bit build: leading whitespace,
      an optional sign, then the leading numeric string (integer digits, a
      fraction, an exponent); trailing text is ignored and a string with
      no numeric prefix reads as 0. A fractional value is truncated toward
      zero, a value beyond the 64-bit range saturates, and one too large
      for a double (infinity) reads as 0. */
  function PhpStringToInt(s: string): (r: int)
    ensures PhpIntMin <= r <= PhpIntMax
  {
    var t := TrimStart(s, PhpNumericLeadingSpace);
    var negative := t != [] && t[0] == '-';
    var body := if t != [] && (t[0] == '-' || t[0] == '+') then t[1..] else t;
    var magnitude: int := NumericMagnitude(body);
    if magnitude >= DoubleOverflow then 0
    else
      var v: int := if negative then -magnitude else magnitude;
      if v > PhpIntMax then PhpIntMax else if v < PhpIntMin then PhpIntMin else v
  }

  /** A run of digits reads as its value. */
  lemma NumericMagnitudeOfDigits(digits: string)
    requires forall i :: 0 <= i < |digits| ==> IsDigit(digits[i])
    ensures NumericMagnitude(digits) == DigitsValue(digits)
  {
    LeadingDigitsOfDigits(digits);
    var rest := digits[|digits|..];
    assert rest == [];
    assert ExponentOf(rest) == 0;
    assert digits + [] == digits;
    assert ScaleBy10(DigitsValue(digits), 0) == DigitsValue(digits);
  }

  /** An exponent is read, not cut off at the e: "1e3" is 1000. */
  lemma PhpStringToIntReadsExponent()
    ensures PhpStringToInt("1e3") == 1000
  {
    var s := "1e3";
    assert s[0] == '1' && s[0] !in PhpNumericLeadingSpace;
    assert TrimStart(s, PhpNumericLeadingSpace) == s;
    assert LeadingDigits(s[1..]) == [];
    assert LeadingDigits(s) == "1";
    assert DigitsValue("1") == 1;
    assert s[1..] == "e3";
    assert LeadingDigits("3") == "3";
    assert DigitsValue("3") == 3;
    assert ExponentOf("e3") == 3;
    assert ScaleBy10(1, 3) == 1000;
    assert NumericMagnitude(s) == 1000;
  }

  /** A fraction is truncated toward zero: "-2.9" is -2. */
  lemma PhpStringToIntTruncatesFraction()
    ensures PhpStringToInt("-2.9") == -2
  {
    var s := "-2.9";
    var body := "2.9";
    assert s[0] == '-' && s[0] !in PhpNumericLeadingSpace;
    assert TrimStart(s, PhpNumericLeadingSpace) == s;
    assert s[1..] == body;
    assert LeadingDigits(body[1..]) == [];
    assert LeadingDigits(body) == "2";
    assert body[1..] == ".9";
    assert LeadingDigits("9") == "9";
    assert "2" + "9" == "29";
    assert DigitsValue("29") == 29;
    assert ExponentOf([]) == 0;
    assert ScaleBy10(29, -1) == 2;
    assert NumericMagnitude(body) == 2;
  }

  /** Every 64-bit integer survives printing and PHP's (int) cast. */
  lemma PhpStringToIntOfIntToString(i: int)
    requires PhpIntMin <= i <= PhpIntMax
    ensures PhpStringToInt(IntToString(i)) == i
  {
    var n: nat := if i < 0 then -i else i;
    var digits := NatToString(n);
    NatToStringValue(n);
    NumericMagnitudeOfDigits(digits);
    assert n <= 0x8000_0000_0000_0000 < DoubleOverflow;
    PhpStringToIntOfSigned(i < 0, digits);
  }

  /** An optional minus sign and a run of digits read as their value. */
  lemma PhpStringToIntOfSigned(negative: bool, digits: string)
    requires digits != [] && forall i :: 0 <= i < |digits| ==> IsDigit(digits[i])
    requires NumericMagnitude(digits) < DoubleOverflow
    ensures var v: int := if negative then -(NumericMagnitude(digits) as int) else NumericMagnitude(digits);
      var s := if negative then "-" + digits else digits;
      PhpStringToInt(s) == if v > PhpIntMax then PhpIntMax else if v < PhpIntMin then PhpIntMin else v
  {
    var s := if negative then "-" + digits else digits;
    assert s[0] == '-' || IsDigit(s[0]);
    assert s[0] !in PhpNumericLeadingSpace;
    assert TrimStart(s, PhpNumericLeadingSpace) == s;
    if negative {
      assert s[1..] == digits;
    }
  }

  // ---------------------------------------------------------------------
  // Code-point order on strings
  // ---------------------------------------------------------------------

  /** a sorts no later than b: Python's sorted() on str, and the order of
      Object.keys(...).sort(...) in the dashboard scripts. */
  predicate LexLe(a: string, b: string)
    decreases |a|
  {
    a == [] || (b != [] && (a[0] < b[0] || (a[0] == b[0] && LexLe(a[1..], b[1..]))))
  }

  lemma {:induction false} LexLeReflexive(a: string)
    ensures LexLe(a, a)
    decreases |a|
  {
    if a != [] {
      LexLeReflexive(a[1..]);
    }
  }

  lemma {:induction false} LexLeTotal(a: string, b: string)
    ensures LexLe(a, b) || LexLe(b, a)
    decreases |a|
  {
    if a != [] && b != [] && a[0] == b[0] {
      LexLeTotal(a[1..], b[1..]);
    }
  }

  lemma {:induction false} LexLeAntisymmetric(a: string, b: string)
    requires LexLe(a, b) && LexLe(b, a)
    ensures a == b
    decreases |a|
  {
    if a != [] {
      LexLeAntisymmetric(a[1..], b[1..]);
      assert a == [a[0]] + a[1..] && b == [b[0]] + b[1..];
    }
  }

  lemma {:induction false} LexLeTransitive(a: string, b: string, c: string)
    requires LexLe(a, b) && LexLe(b, c)
    ensures LexLe(a, c)
    decreases |a|
  {
    if a != [] && a[0] == b[0] && b[0] == c[0] {
      LexLeTransitive(a[1..], b[1..], c[1..]);
    }
  }

  ghost predicate IsLeast(m: string, s: set<string>)
  {
    m in s && forall k :: k in s ==> LexLe(m, k)
  }

  /** The smallest member of a non-empty set of strings (the loop the
      clients use to find ids[0] after sorting). */
  method Smallest(s: set<string>) returns (m: string)
    requires s != {}
    ensures IsLeast(m, s)
  {
    m :| m in s;
    var rest := s - {m};
    LexLeReflexive(m);
    while rest != {}
      invariant rest <= s && m in s
      invariant forall k :: k in s - rest ==> LexLe(m, k)
      decreases |rest|
    {
      var k :| k in rest;
      LexLeTotal(m, k);
      if !LexLe(m, k) {
        LexLeReflexive(k);
        forall j | j in s - rest
          ensures LexLe(k, j)
        {
          LexLeTransitive(k, m, j);
        }
        m := k;
      }
      rest := rest - {k};
    }
  }

  lemma LeastUnique(m1: string, m2: string, s: set<string>)
    requires IsLeast(m1, s) && IsLeast(m2, s)
    ensures m1 == m2
  {
    LexLeAntisymmetric(m1, m2);
  }

  lemma {:induction false} LeastExists(s: set<string>)
    requires s != {}
    ensures exists m :: IsLeast(m, s)
    decreases |s|
  {
    var x :| x in s;
    if s != {x} {
      var rest := s - {x};
      LeastExists(rest);
      var m :| IsLeast(m, rest);
      LexLeTotal(m, x);
      if LexLe(m, x) {
        assert IsLeast(m, s);
      } else {
        forall k | k in s ensures LexLe(x, k) {
          if k != x { LexLeTransitive(x, m, k); } else { LexLeReflexive(x); }
        }
        assert IsLeast(x, s);
      }
    } else {
      LexLeReflexive(x);
      assert IsLeast(x, s);
    }
  }

  /** The members of s in ascending order. */
  ghost function SortedMembers(s: set<string>): (r: seq<string>)
    ensures |r| == |s|
    ensures forall x :: x in r <==> x in s
    decreases |s|
  {
    if s == {} then []
    else
      LeastExists(s);
      var m :| IsLeast(m, s);
      [m] + SortedMembers(s - {m})
  }

  /** Peeling the least member off the front of the ascending order. */
  lemma SortedMembersFirst(m: string, s: set<string>)
    requires IsLeast(m, s)
    ensures SortedMembers(s) == [m] + SortedMembers(s - {m})
  {
    LeastExists(s);
    var m' :| IsLeast(m', s) && SortedMembers(s) == [m'] + SortedMembers(s - {m'});
    LeastUnique(m, m', s);
  }

  /** Python's sorted(keys): the members of s in ascending order. */
  method SortMembers(s: set<string>) returns (r: seq<string>)
    ensures r == SortedMembers(s)
  {
    r := [];
    var rest := s;
    while rest != {}
      invariant rest <= s
      invariant r + SortedMembers(rest) == SortedMembers(s)
      decreases |rest|
    {
      var m := Smallest(rest);
      SortedMembersFirst(m, rest);
      r := r + [m];
      rest := rest - {m};
    }
  }
}
