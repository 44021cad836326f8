/**
 * Character and string helpers shared by the screens: ASCII digits and case,
 * decimal rendering of counters and indices, and the camelCase-to-words
 * formatting used in the "missing field" messages.
 */
module Text {

  predicate IsDigit(c: char) { '0' <= c <= '9' }

  predicate AllDigits(s: string) {
    forall i :: 0 <= i < |s| ==> IsDigit(s[i])
  }

  predicate IsUpper(c: char) { 'A' <= c <= 'Z' }

  predicate IsLower(c: char) { 'a' <= c <= 'z' }

  /** `toLowerCase` on one character (ASCII letters only). */
  function LowerChar(c: char): (r: char)
    ensures !IsUpper(r)
    ensures IsUpper(c) ==> IsLower(r) && r as int == c as int + 32
    ensures !IsUpper(c) ==> r == c
  {
    if IsUpper(c) then (c as int + 32) as char else c
  }

  /** `toUpperCase` on one character (ASCII letters only). */
  function UpperChar(c: char): (r: char)
    ensures !IsLower(r)
    ensures IsLower(c) ==> IsUpper(r) && r as int == c as int - 32
    ensures !IsLower(c) ==> r == c
  {
    if IsLower(c) then (c as int - 32) as char else c
  }

  /** `String.prototype.toLowerCase` over ASCII. */
  function ToLower(s: string): (r: string)
    ensures |r| == |s|
    ensures forall i :: 0 <= i < |r| ==> !IsUpper(r[i])
    ensures forall i :: 0 <= i < |s| ==>
      (IsUpper(s[i]) ==> r[i] as int == s[i] as int + 32) && (!IsUpper(s[i]) ==> r[i] == s[i])
  {
    seq(|s|, i requires 0 <= i < |s| => LowerChar(s[i]))
  }

  /** `String.prototype.toUpperCase` over ASCII. */
  function ToUpper(s: string): (r: string)
    ensures |r| == |s|
    ensures forall i :: 0 <= i < |r| ==> !IsLower(r[i])
    ensures forall i :: 0 <= i < |s| ==>
      (IsLower(s[i]) ==> r[i] as int == s[i] as int - 32) && (!IsLower(s[i]) ==> r[i] == s[i])
  {
    seq(|s|, i requires 0 <= i < |s| => UpperChar(s[i]))
  }

  lemma ToLowerNoCapitals(s: string)
    requires forall i :: 0 <= i < |s| ==> !IsUpper(s[i])
    ensures ToLower(s) == s
  {
  }

  lemma ToLowerAppend(a: string, b: string)
    ensures ToLower(a + b) == ToLower(a) + ToLower(b)
  {
    assert forall i :: 0 <= i < |a + b| ==> ToLower(a + b)[i] == (ToLower(a) + ToLower(b))[i];
  }

  // ---------------------------------------------------------------------------
  // Decimal rendering of naturals (template literals such as `L${index + 1}`)

  function DigitChar(d: nat): (c: char)
    requires d < 10
    ensures IsDigit(c)
  {
    ('0' as int + d) as char
  }

  function DigitValue(c: char): (d: nat)
    requires IsDigit(c)
    ensures d < 10
  {
    c as int - '0' as int
  }

  /** The decimal text of `n`, as JavaScript prints a non-negative integer. */
  function NatToString(n: nat): (s: string)
    ensures |s| > 0 && AllDigits(s)
    decreases n
  {
    if n < 10 then [DigitChar(n)] else NatToString(n / 10) + [DigitChar(n % 10)]
  }

  /** The number a string of decimal digits denotes. */
  function ParseNat(s: string): nat
    requires AllDigits(s)
  {
    if s == [] then 0 else ParseNat(s[..|s| - 1]) * 10 + DigitValue(s[|s| - 1])
  }

  /** Parsing the printed number gives the number back. */
  lemma {:induction false} ParseNatToString(n: nat)
    ensures ParseNat(NatToString(n)) == n
    decreases n
  {
    var s := NatToString(n);
    if n < 10 {
      assert s[..|s| - 1] == [];
    } else {
      var p := NatToString(n / 10);
      assert s[..|s| - 1] == p;
      ParseNatToString(n / 10);
    }
  }

  /** Distinct numbers print as distinct strings. */
  lemma NatToStringInjective(m: nat, n: nat)
    requires NatToString(m) == NatToString(n)
    ensures m == n
  {
    ParseNatToString(m);
    ParseNatToString(n);
  }

  // ---------------------------------------------------------------------------
  // camelCase keys as words: key.replace(/([A-Z])/g, " $1").toLowerCase()

  /** `replace(/([A-Z])/g, " $1")`: a space before every capital letter. */
  function SpaceBeforeCapitals(s: string): (r: string)
    ensures |r| >= |s|
  {
    if s == [] then []
    else (if IsUpper(s[0]) then [' ', s[0]] else [s[0]]) + SpaceBeforeCapitals(s[1..])
  }

  /** The field key written as lower-case words, e.g. "contactNumber" as "contact number". */
  function Humanize(key: string): (r: string)
    ensures forall i :: 0 <= i < |r| ==> !IsUpper(r[i])
  {
    ToLower(SpaceBeforeCapitals(key))
  }

  /** The inverse reading: a space followed by a character becomes that character in upper case. */
  function Camelize(s: string): string
  {
    if s == [] then []
    else if s[0] == ' ' && |s| >= 2 then [UpperChar(s[1])] + Camelize(s[2..])
    else [s[0]] + Camelize(s[1..])
  }

  predicate NoSpaces(s: string) {
    forall i :: 0 <= i < |s| ==> s[i] != ' '
  }

  lemma HumanizeCons(c: char, rest: string)
    ensures Humanize([c] + rest)
         == (if IsUpper(c) then [' ', LowerChar(c)] else [c]) + Humanize(rest)
  {
    var s := [c] + rest;
    assert s[1..] == rest;
    var head := if IsUpper(c) then [' ', c] else [c];
    ToLowerAppend(head, SpaceBeforeCapitals(rest));
  }

  /** The message text loses nothing: a key without spaces is recovered from its words. */
  lemma {:induction false} CamelizeHumanize(key: string)
    requires NoSpaces(key)
    ensures Camelize(Humanize(key)) == key
    decreases |key|
  {
    if key != [] {
      var c, rest := key[0], key[1..];
      assert key == [c] + rest;
      HumanizeCons(c, rest);
      assert NoSpaces(rest) by {
        forall i | 0 <= i < |rest| ensures rest[i] != ' ' { assert rest[i] == key[i + 1]; }
      }
      CamelizeHumanize(rest);
      var h := Humanize(rest);
      if IsUpper(c) {
        var w := [' ', LowerChar(c)] + h;
        assert w[2..] == h;
        assert Camelize(w) == [UpperChar(LowerChar(c))] + Camelize(h);
      } else {
        var w := [c] + h;
        assert w[1..] == h;
        assert Camelize(w) == [c] + Camelize(h);
      }
    }
  }

  lemma {:induction false} SpaceBeforeCapitalsAppend(a: string, b: string)
    ensures SpaceBeforeCapitals(a + b) == SpaceBeforeCapitals(a) + SpaceBeforeCapitals(b)
    decreases |a|
  {
    if a != [] {
      assert (a + b)[0] == a[0] && (a + b)[1..] == a[1..] + b;
      SpaceBeforeCapitalsAppend(a[1..], b);
      var head := if IsUpper(a[0]) then [' ', a[0]] else [a[0]];
      assert SpaceBeforeCapitals(a + b) == head + SpaceBeforeCapitals(a[1..] + b);
    } else {
      assert a + b == b;
    }
  }

  lemma {:induction false} SpaceBeforeCapitalsNoCapitals(s: string)
    requires forall i :: 0 <= i < |s| ==> !IsUpper(s[i])
    ensures SpaceBeforeCapitals(s) == s
    decreases |s|
  {
    if s != [] {
      SpaceBeforeCapitalsNoCapitals(s[1..]);
    }
  }

  /** A key with a single capital becomes its two words joined by a space, all in lower case. */
  lemma HumanizeOneCapital(a: string, c: char, b: string)
    requires forall i :: 0 <= i < |a| ==> !IsUpper(a[i])
    requires forall i :: 0 <= i < |b| ==> !IsUpper(b[i])
    requires IsUpper(c)
    ensures Humanize(a + [c] + b) == a + [' ', LowerChar(c)] + b
  {
    SpaceBeforeCapitalsNoCapitals(a);
    SpaceBeforeCapitalsNoCapitals(b);
    SpaceBeforeCapitalsAppend(a + [c], b);
    SpaceBeforeCapitalsAppend(a, [c]);
    assert SpaceBeforeCapitals([c]) == [' ', c] by {
      assert [c][1..] == [];
    }
    ToLowerAppend(a + [' ', c], b);
    ToLowerAppend(a, [' ', c]);
    ToLowerNoCapitals(a);
    ToLowerNoCapitals(b);
  }

  /** The example key and its words, cut around the capital (kept apart to keep the example's proof small). */
  lemma ContactNumberPieces()
    ensures "contactNumber" == "contact" + ['N'] + "umber"
    ensures "contact number" == "contact" + [' ', 'n'] + "umber"
  {
  }

  /** The worked example: "contactNumber" is reported as "contact number". */
  lemma HumanizeContactNumber()
    ensures Humanize("contactNumber") == "contact number"
  {
    ContactNumberPieces();
    HumanizeOneCapital("contact", 'N', "umber");
  }
}
