/** Text as Python splits it, and integers as Python prints and reads them in ASCII. */
module Texts {
  import opened Wrappers

  // ----- Splitting at a character -----

  /** The first place of c in s, or else the length of s. */
  function IndexOf(s: string, c: char): (i: nat)
    ensures i <= |s| && c !in s[..i] && (i < |s| ==> s[i] == c)
  {
    if s == "" || s[0] == c then 0
    else
      assert s[..1 + IndexOf(s[1..], c)] == [s[0]] + s[1..][..IndexOf(s[1..], c)];
      1 + IndexOf(s[1..], c)
  }

  lemma {:induction false} IndexOfJoin(a: string, c: char, b: string)
    requires c !in a
    ensures IndexOf(a + [c] + b, c) == |a|
  {
    if a != "" {
      assert (a + [c] + b)[1..] == a[1..] + [c] + b;
      IndexOfJoin(a[1..], c, b);
    }
  }

  // ----- Integers -----

  predicate IsDigit(c: char) { '0' <= c <= '9' }

  predicate IsSpace(c: char) { c == ' ' || 9 <= c as int <= 13 }

  function Digits(n: nat): (s: string)
    ensures s != "" && forall c :: c in s ==> IsDigit(c)
  {
    if n < 10 then [(n as char) + '0'] else Digits(n / 10) + [(n % 10) as char + '0']
  }

  function Show(n: int): string {
    if n < 0 then "-" + Digits(-n) else Digits(n)
  }

  /** Decimal digits, with single underscores allowed between two of them. */
  function ReadDigits(s: string): Option<nat>
    decreases |s|
  {
    if s == "" || !IsDigit(s[|s| - 1]) then None
    else
      var last := (s[|s| - 1] - '0') as nat;
      if |s| == 1 then Some(last)
      else
        match ReadDigits(if s[|s| - 2] == '_' then s[..|s| - 2] else s[..|s| - 1])
        case None => None
        case Some(n) => Some(10 * n + last)
  }

  function Strip(s: string): string
    decreases |s|
  {
    if s != "" && IsSpace(s[0]) then Strip(s[1..])
    else if s != "" && IsSpace(s[|s| - 1]) then Strip(s[..|s| - 1])
    else s
  }

  /** None where Python raises ValueError. */
  function Read(s: string): Option<int> {
    var t := Strip(s);
    if t != "" && t[0] in "+-" then
      match ReadDigits(t[1..])
      case None => None
      case Some(n) => var value: int := if t[0] == '-' then -(n as int) else n; Some(value)
    else
      match ReadDigits(t)
      case None => None
      case Some(n) => Some(n)
  }

  lemma {:induction false} DigitsRead(n: nat)
    ensures ReadDigits(Digits(n)) == Some(n)
  {
    if n >= 10 {
      DigitsRead(n / 10);
      var s := Digits(n / 10);
      var t := Digits(n);
      assert t[..|t| - 1] == s && IsDigit(s[|s| - 1]);
    }
  }

  /** What is printed is read back, whatever the sign. */
  lemma ShowRead(n: int)
    ensures Read(Show(n)) == Some(n)
  {
    var s := Show(n);
    var t := Digits(if n < 0 then -n else n);
    DigitsRead(if n < 0 then -n else n);
    assert IsDigit(t[0]) && IsDigit(t[|t| - 1]);
    assert n < 0 ==> s[0] == '-' && s[1..] == t;
    assert s[|s| - 1] == t[|t| - 1];
  }

  /** Printing adds nothing but digits and a sign. */
  lemma ShowPlain(n: int)
    ensures forall c :: c in Show(n) ==> IsDigit(c) || c == '-'
  {
  }

  // ----- Exactly what is read as an integer -----

  predicate DigitOrLine(c: char) { IsDigit(c) || c == '_' }

  /** Digits, with underscores only between two of them. */
  predicate Numeral(s: string) {
    && s != "" && IsDigit(s[0]) && IsDigit(s[|s| - 1])
    && (forall i :: 0 <= i < |s| ==> DigitOrLine(s[i]))
    && (forall i :: 0 <= i < |s| - 1 ==> s[i] != '_' || s[i + 1] != '_')
  }

  /** The digits of s alone, read in base ten. */
  function ValueOf(s: string): nat {
    if s == "" then 0
    else if IsDigit(s[|s| - 1]) then 10 * ValueOf(s[..|s| - 1]) + (s[|s| - 1] - '0') as nat
    else ValueOf(s[..|s| - 1])
  }

  lemma NumeralWithout(s: string, k: nat)
    requires 0 < k <= |s| && IsDigit(s[k - 1]) && Numeral(s)
    ensures Numeral(s[..k])
  {
  }

  lemma NumeralWith(s: string, k: nat)
    requires 0 < k < |s| && Numeral(s[..k]) && IsDigit(s[|s| - 1])
    requires k == |s| - 1 || (k == |s| - 2 && s[k] == '_')
    ensures Numeral(s)
  {
    forall i | 0 <= i < |s| ensures DigitOrLine(s[i]) {
      if i < k { assert s[..k][i] == s[i]; }
    }
    forall i | 0 <= i < |s| - 1 ensures s[i] != '_' || s[i + 1] != '_' {
      if i < k - 1 { assert s[..k][i] == s[i] && s[..k][i + 1] == s[i + 1]; }
    }
  }

  /** Exactly numerals are read, at their value. */
  lemma {:induction false} ReadDigitsIff(s: string)
    ensures ReadDigits(s).Some? <==> Numeral(s)
    ensures ReadDigits(s).Some? ==> ReadDigits(s).value == ValueOf(s)
    decreases |s|
  {
    if s != "" && IsDigit(s[|s| - 1]) && |s| > 1 {
      var k := if s[|s| - 2] == '_' then |s| - 2 else |s| - 1;
      ReadDigitsIff(s[..k]);
      if k == |s| - 2 {
        assert s[..|s| - 1][..k] == s[..k];
        assert ValueOf(s[..|s| - 1]) == ValueOf(s[..k]);
      }
      if Numeral(s) {
        if k > 0 && IsDigit(s[k - 1]) { NumeralWithout(s, k); }
      }
      if k > 0 && Numeral(s[..k]) { NumeralWith(s, k); }
    }
  }

  predicate Blank(s: string) {
    forall i :: 0 <= i < |s| ==> IsSpace(s[i])
  }

  lemma {:induction false} StripBlank(s: string)
    requires Blank(s)
    ensures Strip(s) == ""
  {
    if s != "" { StripBlank(s[1..]); }
  }

  lemma {:induction false} StripEnd(s: string, b: string)
    requires Blank(b)
    ensures Strip(s + b) == Strip(s)
    decreases |s| + |b|
  {
    if b == "" {
      assert s + b == s;
    } else if s == "" {
      assert s + b == b;
      StripBlank(b);
    } else if IsSpace(s[0]) {
      assert (s + b)[1..] == s[1..] + b;
      StripEnd(s[1..], b);
    } else {
      assert (s + b)[..|s + b| - 1] == s + b[..|b| - 1];
      StripEnd(s, b[..|b| - 1]);
    }
  }

  /** Blank space around an integer makes no difference. */
  lemma {:induction false} ReadIgnoresBlanks(a: string, s: string, b: string)
    requires Blank(a) && Blank(b)
    ensures Read(a + s + b) == Read(s)
  {
    if a == "" {
      assert a + s + b == s + b;
      StripEnd(s, b);
    } else {
      assert (a + s + b)[1..] == a[1..] + s + b;
      ReadIgnoresBlanks(a[1..], s, b);
    }
  }

  /** Without blank space at its ends a text is an integer exactly if it is a numeral, perhaps after
      one sign. */
  lemma ReadIff(s: string)
    requires s != "" && !IsSpace(s[0]) && !IsSpace(s[|s| - 1])
    ensures Read(s) == if s[0] == '-' then (if Numeral(s[1..]) then Some(-(ValueOf(s[1..]) as int)) else None)
                       else if s[0] == '+' then (if Numeral(s[1..]) then Some(ValueOf(s[1..])) else None)
                       else if Numeral(s) then Some(ValueOf(s)) else None
  {
    ReadDigitsIff(s);
    ReadDigitsIff(s[1..]);
  }

  lemma {:induction false} StripKeeps(s: string, c: char)
    requires !IsSpace(c) && c in s
    ensures c in Strip(s)
    decreases |s|
  {
    if s != "" && IsSpace(s[0]) {
      assert s == [s[0]] + s[1..];
      StripKeeps(s[1..], c);
    } else if s != "" && IsSpace(s[|s| - 1]) {
      assert s == s[..|s| - 1] + [s[|s| - 1]];
      StripKeeps(s[..|s| - 1], c);
    }
  }

  /** What is read as an integer contains only spaces, signs, digits and underscores. */
  lemma ReadHasOnly(s: string, c: char)
    requires Read(s).Some? && c in s
    ensures IsSpace(c) || c == '+' || c == '-' || DigitOrLine(c)
  {
    if !IsSpace(c) {
      StripKeeps(s, c);
      var t := Strip(s);
      if t[0] in "+-" {
        ReadDigitsIff(t[1..]);
        assert t == [t[0]] + t[1..];
      } else {
        ReadDigitsIff(t);
      }
    }
  }
}
