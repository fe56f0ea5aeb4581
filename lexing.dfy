/**
 * Character-level helpers used by the decoder: whitespace splitting as a
 * string stream performs it with `>>`, and decimal integer conversion as
 * `std::stoi` performs it (with its failure cases), together with the
 * decimal printing that serves as the inverse of the conversion.
 */
module Lexing {
  import opened Wrappers

  /** Characters that `isspace` accepts in the "C" locale: space, \t, \n, \v, \f, \r. */
  predicate IsSpace(c: char) { c == ' ' || ('\t' <= c <= '\r') }

  predicate IsDigit(c: char) { '0' <= c <= '9' }

  predicate NoSpace(w: string) { forall i :: 0 <= i < |w| ==> !IsSpace(w[i]) }

  predicate AllDigits(d: string) { forall i :: 0 <= i < |d| ==> IsDigit(d[i]) }

  predicate NoDigit(s: string) { forall i :: 0 <= i < |s| ==> !IsDigit(s[i]) }

  // ---------------------------------------------------------------------------
  // Whitespace splitting
  // ---------------------------------------------------------------------------

  /** The longest prefix of `s` without whitespace. */
  function WordAt(s: string): (w: string)
    ensures w <= s && NoSpace(w)
    ensures |w| < |s| ==> IsSpace(s[|w|])
    ensures s != [] && !IsSpace(s[0]) ==> w != []
  {
    if s == [] || IsSpace(s[0]) then [] else [s[0]] + WordAt(s[1..])
  }

  /** The tokens that successive `>>` extractions of strings read from `s`. */
  function Words(s: string): (ws: seq<string>)
    ensures forall i :: 0 <= i < |ws| ==> ws[i] != [] && NoSpace(ws[i])
    decreases |s|
  {
    if s == [] then []
    else if IsSpace(s[0]) then Words(s[1..])
    else
      var w := WordAt(s);
      [w] + Words(s[|w|..])
  }

  /** The i-th extraction; once the stream is exhausted the target string stays empty. */
  function Token(ws: seq<string>, i: nat): string
  {
    if i < |ws| then ws[i] else ""
  }

  /** Tokens joined by single spaces: the inverse of Words on well-formed tokens. */
  function Unwords(ws: seq<string>): string
  {
    if ws == [] then ""
    else if |ws| == 1 then ws[0]
    else ws[0] + " " + Unwords(ws[1..])
  }

  lemma {:induction false} WordAtOfWord(w: string, rest: string)
    requires NoSpace(w)
    requires rest == [] || IsSpace(rest[0])
    ensures WordAt(w + rest) == w
    decreases |w|
  {
    if w == [] {
      assert w + rest == rest;
    } else {
      assert (w + rest)[1..] == w[1..] + rest;
      WordAtOfWord(w[1..], rest);
    }
  }

  /** Splitting a space-joined list of nonempty space-free tokens gives the tokens back. */
  lemma {:induction false} WordsUnwords(ws: seq<string>)
    requires forall i :: 0 <= i < |ws| ==> ws[i] != [] && NoSpace(ws[i])
    ensures Words(Unwords(ws)) == ws
    decreases |ws|
  {
    if ws == [] {
    } else if |ws| == 1 {
      var w := ws[0];
      WordAtOfWord(w, []);
      assert w + [] == w;
      assert w[|w|..] == [];
    } else {
      var w, rest := ws[0], Unwords(ws[1..]);
      var s := w + " " + rest;
      assert s == w + (" " + rest);
      WordAtOfWord(w, " " + rest);
      assert s[|w|..] == " " + rest;
      assert (" " + rest)[1..] == rest;
      WordsUnwords(ws[1..]);
    }
  }

  // ---------------------------------------------------------------------------
  // Decimal conversion
  // ---------------------------------------------------------------------------

  const IntMin: int := -0x8000_0000
  const IntMax: int := 0x7FFF_FFFF

  predicate InIntRange(v: int) { IntMin <= v <= IntMax }

  /** `s` with its leading whitespace removed. */
  function DropSpace(s: string): (t: string)
    ensures |t| <= |s|
    ensures t == [] || !IsSpace(t[0])
  {
    if s != [] && IsSpace(s[0]) then DropSpace(s[1..]) else s
  }

  /** The longest prefix of `s` made of decimal digits. */
  function DigitRun(s: string): (d: string)
    ensures d <= s && AllDigits(d)
  {
    if s == [] || !IsDigit(s[0]) then [] else [s[0]] + DigitRun(s[1..])
  }

  function DigitValue(c: char): nat
    requires IsDigit(c)
  {
    c as int - '0' as int
  }

  /** The value of a string of decimal digits, most significant first. */
  function DigitsValue(d: string): nat
    requires AllDigits(d)
  {
    if d == [] then 0 else DigitsValue(d[..|d| - 1]) * 10 + DigitValue(d[|d| - 1])
  }

  /**
   * `std::stoi` in base 10: skip leading whitespace, read an optional sign and
   * the longest run of digits, ignore whatever follows. It fails (the C++
   * function throws) when no digit follows the sign or when the value does not
   * fit in a 32-bit `int`.
   */
  function StoI(s: string): (r: Option<int>)
    ensures r.Some? ==> InIntRange(r.value)
  {
    var t := DropSpace(s);
    var signed := t != [] && (t[0] == '-' || t[0] == '+');
    var u := if signed then t[1..] else t;
    var d := DigitRun(u);
    if d == [] then None
    else
      var v: int := if signed && t[0] == '-' then -(DigitsValue(d) as int) else DigitsValue(d);
      if InIntRange(v) then Some(v) else None
  }

  function DigitChar(n: nat): (c: char)
    requires n < 10
    ensures IsDigit(c) && DigitValue(c) == n
  {
    (48 + n) as char
  }

  /** Decimal rendering of a natural number, without leading zeros. */
  function ShowNat(n: nat): (s: string)
    ensures s != [] && AllDigits(s)
  {
    if n < 10 then [DigitChar(n)] else ShowNat(n / 10) + [DigitChar(n % 10)]
  }

  /** Decimal rendering of an integer, with a leading '-' when negative. */
  function ShowInt(i: int): (s: string)
    ensures s != []
  {
    if i < 0 then "-" + ShowNat(-i) else ShowNat(i)
  }

  /** Every character of a rendered integer is a digit, except a leading minus sign. */
  lemma ShowIntChars(i: int)
    ensures forall k :: 0 <= k < |ShowInt(i)| ==> IsDigit(ShowInt(i)[k]) || (k == 0 && ShowInt(i)[k] == '-')
  {
    if i < 0 {
      var d := ShowNat(-i);
      forall k | 1 <= k < |ShowInt(i)| ensures IsDigit(ShowInt(i)[k]) {
        assert ShowInt(i)[k] == d[k - 1];
      }
    }
  }

  lemma {:induction false} DigitsValueShowNat(n: nat)
    ensures DigitsValue(ShowNat(n)) == n
    decreases n
  {
    if n >= 10 {
      var s := ShowNat(n);
      assert s[..|s| - 1] == ShowNat(n / 10);
      DigitsValueShowNat(n / 10);
    }
  }

  /** Skipping whitespace leaves a suffix of the text. */
  lemma {:induction false} DropSpaceSuffix(s: string)
    ensures DropSpace(s) == s[|s| - |DropSpace(s)|..]
    decreases |s|
  {
    if s != [] && IsSpace(s[0]) {
      DropSpaceSuffix(s[1..]);
      assert s[1..][|s| - 1 - |DropSpace(s)|..] == s[|s| - |DropSpace(s)|..];
    }
  }

  lemma {:induction false} DigitRunOfDigits(d: string)
    requires AllDigits(d)
    ensures DigitRun(d) == d
    decreases |d|
  {
    if d != [] {
      DigitRunOfDigits(d[1..]);
    }
  }

  /**
   * What `std::stoi` makes of text: text without any digit is rejected, and so
   * is text whose first character is neither white space, a sign nor a digit
   * (a label such as `L1`); text that starts with a digit is read up to the
   * first non-digit; a run of digits, possibly after a minus sign, gives its
   * value exactly when that fits in an int.
   */
  lemma StoIValue(s: string)
    ensures NoDigit(s) ==> StoI(s) == None
    ensures s != [] && !IsSpace(s[0]) && !IsDigit(s[0]) && s[0] != '-' && s[0] != '+' ==> StoI(s) == None
    ensures s != [] && IsDigit(s[0]) ==>
      StoI(s) == if DigitsValue(DigitRun(s)) <= IntMax then Some(DigitsValue(DigitRun(s)) as int) else None
    ensures s != [] && AllDigits(s) ==>
      (StoI(s).Some? <==> DigitsValue(s) <= IntMax) && (StoI(s).Some? ==> StoI(s).value == DigitsValue(s))
    ensures |s| >= 2 && s[0] == '-' && AllDigits(s[1..]) ==>
      && (StoI(s).Some? <==> DigitsValue(s[1..]) <= -IntMin)
      && (StoI(s).Some? ==> StoI(s).value == -(DigitsValue(s[1..]) as int))
  {
    if NoDigit(s) {
      StoINoDigit(s);
    }
    if s != [] && !IsSpace(s[0]) && !IsDigit(s[0]) && s[0] != '-' && s[0] != '+' {
      assert DropSpace(s) == s;
    }
    if s != [] && IsDigit(s[0]) {
      StoIPrefix(s);
    }
    if s != [] && AllDigits(s) {
      StoIDigits(s);
    }
    if |s| >= 2 && s[0] == '-' && AllDigits(s[1..]) {
      StoINegative(s);
    }
  }

  lemma StoIPrefix(s: string)
    requires s != [] && IsDigit(s[0])
    ensures StoI(s) == if DigitsValue(DigitRun(s)) <= IntMax then Some(DigitsValue(DigitRun(s)) as int) else None
  {
    assert DropSpace(s) == s;
    assert DigitRun(s) != [];
  }

  lemma StoIDigits(s: string)
    requires s != [] && AllDigits(s)
    ensures StoI(s) == if DigitsValue(s) <= IntMax then Some(DigitsValue(s) as int) else None
  {
    assert DropSpace(s) == s;
    DigitRunOfDigits(s);
  }

  lemma StoINegative(s: string)
    requires |s| >= 2 && s[0] == '-' && AllDigits(s[1..])
    ensures StoI(s) == if DigitsValue(s[1..]) <= -IntMin then Some(-(DigitsValue(s[1..]) as int)) else None
  {
    assert DropSpace(s) == s;
    DigitRunOfDigits(s[1..]);
  }

  lemma StoINoDigit(s: string)
    requires NoDigit(s)
    ensures StoI(s) == None
  {
    var t := DropSpace(s);
    var signed := t != [] && (t[0] == '-' || t[0] == '+');
    var u := if signed then t[1..] else t;
    DropSpaceSuffix(s);
    assert u == s[|s| - |u|..];
    if u != [] {
      assert u[0] == s[|s| - |u|];
    }
  }

  /** Converting the decimal rendering of a 32-bit integer gives the integer back. */
  lemma StoIShowInt(i: int)
    requires InIntRange(i)
    ensures StoI(ShowInt(i)) == Some(i)
  {
    var n: nat := if i < 0 then -i else i;
    var digits := ShowNat(n);
    DigitRunOfDigits(digits);
    DigitsValueShowNat(n);
    var s := ShowInt(i);
    assert DropSpace(s) == s;
    if i < 0 {
      assert s[0] == '-';
      assert s[1..] == digits;
    } else {
      assert s == digits;
      assert IsDigit(s[0]);
    }
  }
}
