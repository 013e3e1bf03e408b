/** String operations the source relies on, restricted to what the model needs:
    trimming (JavaScript's String.prototype.trim and Python's str.strip as used by
    int()), ASCII lower-casing, prefix and substring tests, splitting on one
    separator character, and the decimal rendering and parsing of integers. */
module Text {
  import opened Collections

  /** White space removed by String.prototype.trim: the ASCII controls TAB, LF,
      VT, FF, CR, the space, NO-BREAK SPACE and the byte-order mark. */
  predicate IsJsSpace(c: char) {
    c == ' ' || c == '\t' || c == '\n' || c == '\U{B}' || c == '\U{C}' || c == '\r' ||
    c == '\U{A0}' || c == '\U{FEFF}'
  }

  /** White space stripped by Python's int() around its argument (ASCII and NO-BREAK SPACE). */
  predicate IsPySpace(c: char) {
    c == ' ' || c == '\t' || c == '\n' || c == '\U{B}' || c == '\U{C}' || c == '\r' ||
    ('\U{1C}' <= c <= '\U{1F}') || c == '\U{85}' || c == '\U{A0}'
  }

  function TrimStart(s: string, space: char -> bool): string
  {
    if |s| > 0 && space(s[0]) then TrimStart(s[1..], space) else s
  }

  function TrimEnd(s: string, space: char -> bool): string
  {
    if |s| > 0 && space(s[|s| - 1]) then TrimEnd(s[..|s| - 1], space) else s
  }

  /** `s` with leading and trailing white space removed. */
  function TrimBy(s: string, space: char -> bool): (r: string)
  {
    TrimEnd(TrimStart(s, space), space)
  }

  lemma {:induction false} TrimStartSlice(s: string, space: char -> bool)
    ensures var r := TrimStart(s, space);
            |r| <= |s| && r == s[|s| - |r|..] &&
            (forall k :: 0 <= k < |s| - |r| ==> space(s[k])) &&
            (r != [] ==> !space(r[0]))
  {
    if |s| > 0 && space(s[0]) {
      TrimStartSlice(s[1..], space);
      var r := TrimStart(s, space);
      forall k | 0 <= k < |s| - |r| ensures space(s[k]) {
        if k > 0 { assert s[k] == s[1..][k - 1]; }
      }
    }
  }

  lemma {:induction false} TrimEndSlice(s: string, space: char -> bool)
    ensures var r := TrimEnd(s, space);
            |r| <= |s| && r == s[..|r|] &&
            (forall k :: |r| <= k < |s| ==> space(s[k])) &&
            (r != [] ==> !space(r[|r| - 1]))
  {
    if |s| > 0 && space(s[|s| - 1]) {
      TrimEndSlice(s[..|s| - 1], space);
      var r := TrimEnd(s, space);
      forall k | |r| <= k < |s| ensures space(s[k]) {
        if k < |s| - 1 { assert s[k] == s[..|s| - 1][k]; }
      }
    }
  }

  /** Trimming gives the empty string exactly when every character is white space. */
  lemma TrimEmptyIffAllSpace(s: string, space: char -> bool)
    ensures TrimBy(s, space) == "" <==> forall k :: 0 <= k < |s| ==> space(s[k])
  {
    TrimStartSlice(s, space);
    TrimEndSlice(TrimStart(s, space), space);
  }

  /** String.prototype.trim. */
  function JsTrim(s: string): string { TrimBy(s, IsJsSpace) }

  /** ASCII lower-casing (String.prototype.toLowerCase on ASCII text). */
  function LowerChar(c: char): (r: char)
    ensures 'A' <= c <= 'Z' ==> 'a' <= r <= 'z' && r as int - 'a' as int == c as int - 'A' as int
    ensures !('A' <= c <= 'Z') ==> r == c
  {
    if 'A' <= c <= 'Z' then (c as int + 32) as char else c
  }

  function Lower(s: string): (r: string)
    ensures |r| == |s| && forall i :: 0 <= i < |s| ==> r[i] == LowerChar(s[i])
  {
    seq(|s|, i requires 0 <= i < |s| => LowerChar(s[i]))
  }

  /** String.prototype.startsWith / str.startswith. */
  predicate StartsWith(s: string, prefix: string) {
    |prefix| <= |s| && s[..|prefix|] == prefix
  }

  /** `t` occurs in `s` starting at position `i`. */
  predicate OccursAt(s: string, t: string, i: int) {
    0 <= i <= |s| - |t| && s[i..i + |t|] == t
  }

  /** String.prototype.includes: `t` occurs in `s` at some position. */
  predicate Contains(s: string, t: string)
    decreases |s|
  {
    StartsWith(s, t) || (|s| > 0 && Contains(s[1..], t))
  }

  /** Contains agrees with the positional definition of a substring. */
  lemma {:induction false} ContainsAt(s: string, t: string)
    ensures Contains(s, t) <==> exists i :: OccursAt(s, t, i)
  {
    if StartsWith(s, t) {
      assert OccursAt(s, t, 0);
    } else if |s| > 0 {
      ContainsAt(s[1..], t);
      if exists i :: OccursAt(s, t, i) {
        var i :| OccursAt(s, t, i);
        assert i != 0;
        assert OccursAt(s[1..], t, i - 1);
      }
      if Contains(s[1..], t) {
        var i :| OccursAt(s[1..], t, i);
        assert s[i + 1..i + 1 + |t|] == s[1..][i..i + |t|];
        assert OccursAt(s, t, i + 1);
      }
    }
  }

  /** String.prototype.split with a one-character separator: the pieces
      between separators, including empty ones ("".split(' ') is [""]). */
  function Split(s: string, sep: char): (r: seq<string>)
    ensures |r| >= 1
    ensures forall i :: 0 <= i < |r| ==> sep !in r[i]
  {
    if s == [] then [""]
    else
      var rest := Split(s[1..], sep);
      if s[0] == sep then [""] + rest else [[s[0]] + rest[0]] + rest[1..]
  }

  /** Array.prototype.join with a one-character separator. */
  function Join(pieces: seq<string>, sep: char): string
  {
    if pieces == [] then ""
    else if |pieces| == 1 then pieces[0]
    else pieces[0] + [sep] + Join(pieces[1..], sep)
  }

  /** Splitting loses nothing: joining the pieces back gives the input. */
  lemma {:induction false} JoinSplit(s: string, sep: char)
    ensures Join(Split(s, sep), sep) == s
  {
    if s != [] {
      var rest := Split(s[1..], sep);
      JoinSplit(s[1..], sep);
      if s[0] == sep {
        assert Split(s, sep)[1..] == rest;
      } else {
        var r := Split(s, sep);
        assert r[0] == [s[0]] + rest[0] && r[1..] == rest[1..];
        if |rest| == 1 {
          assert Join(rest, sep) == rest[0];
        } else {
          assert Join(rest, sep) == rest[0] + [sep] + Join(rest[1..], sep);
        }
      }
    }
  }

  /** The search terms of a query: lower-cased, split on single spaces, empty
      pieces dropped (`query.toLowerCase().split(' ').filter(t => t.length > 0)`). */
  function Terms(query: string): (terms: seq<string>)
    ensures forall t :: t in terms ==> |t| > 0 && ' ' !in t
    ensures forall t :: t in terms <==> t in Split(Lower(query), ' ') && |t| > 0
    ensures IsSubsequence(terms, Split(Lower(query), ' '))
  {
    var words := Split(Lower(query), ' ');
    var nonEmpty := (t: string) => |t| > 0;
    FilterExactly(words, nonEmpty);
    FilterIsSubsequence(words, nonEmpty);
    Filter(words, nonEmpty)
  }

  // ---- decimal numbers ----

  predicate IsDigit(c: char) { '0' <= c <= '9' }

  function DigitChar(d: nat): (c: char)
    requires d < 10
    ensures IsDigit(c)
  {
    ('0' as int + d) as char
  }

  function DigitValue(c: char): nat
    requires IsDigit(c)
  {
    c as int - '0' as int
  }

  predicate AllDigits(s: string) {
    forall i :: 0 <= i < |s| ==> IsDigit(s[i])
  }

  /** The value of a string of decimal digits, most significant first. */
  function DigitsValue(s: string): nat
    requires AllDigits(s)
  {
    if s == [] then 0 else 10 * DigitsValue(s[..|s| - 1]) + DigitValue(s[|s| - 1])
  }

  /** The decimal rendering of a natural number, as JavaScript's template
      literals and Python's f-strings write it: no leading zeros. */
  function NatToString(n: nat): (r: string)
    ensures |r| >= 1 && AllDigits(r)
    ensures |r| > 1 ==> r[0] != '0'
  {
    if n < 10 then [DigitChar(n)] else NatToString(n / 10) + [DigitChar(n % 10)]
  }

  /** Rendering and reading back a natural number is the identity. */
  lemma {:induction false} NatToStringValue(n: nat)
    ensures DigitsValue(NatToString(n)) == n
  {
    if n >= 10 {
      NatToStringValue(n / 10);
      var s := NatToString(n);
      assert s[..|s| - 1] == NatToString(n / 10);
    }
  }

  /** The decimal rendering of an integer: a minus sign before negative values. */
  function IntToString(i: int): string
  {
    if i < 0 then "-" + NatToString(-i) else NatToString(i)
  }

  /** Length of the longest prefix of `s` made of digits. */
  function DigitRun(s: string): (k: nat)
    ensures k <= |s| && AllDigits(s[..k]) && (k < |s| ==> !IsDigit(s[k]))
  {
    if s == [] || !IsDigit(s[0]) then 0
    else
      var k := DigitRun(s[1..]);
      assert s[..k + 1] == [s[0]] + s[1..][..k];
      k + 1
  }

  lemma {:induction false} DigitRunAll(s: string)
    requires AllDigits(s)
    ensures DigitRun(s) == |s|
  {
    if s != [] {
      DigitRunAll(s[1..]);
    }
  }

  /** A sign followed by digits: the value, or None when there are no digits
      at the start. Used by both parsers below. */
  function SignedDigits(s: string): Option<(int, nat)>
  {
    var neg := |s| > 0 && s[0] == '-';
    var body := if |s| > 0 && (s[0] == '-' || s[0] == '+') then s[1..] else s;
    var k := DigitRun(body);
    if k == 0 then None
    else
      var v: int := DigitsValue(body[..k]);
      Some((if neg then -v else v, |s| - |body| + k))
  }

  /** JavaScript's parseInt(s) in base 10: leading white space, an optional
      sign, then as many digits as there are; NaN (None) when there is none. */
  function JsParseInt(s: string): Option<int>
  {
    match SignedDigits(TrimStart(s, IsJsSpace))
    case None => None
    case Some((v, _)) => Some(v)
  }

  /** Python's int(s) on a string: white space around an optional sign and a
      non-empty run of digits, and nothing else; a ValueError (None) otherwise. */
  function PyInt(s: string): Option<int>
  {
    var t := TrimBy(s, IsPySpace);
    match SignedDigits(t)
    case None => None
    case Some((v, used)) => if used == |t| then Some(v) else None
  }

  /** A run of digits reads back as its value and is used up entirely. */
  lemma SignedDigitsOfDigits(d: string)
    requires d != [] && AllDigits(d)
    ensures SignedDigits(d) == Some((DigitsValue(d) as int, |d|))
  {
    assert IsDigit(d[0]);
    DigitRunAll(d);
    assert d[..|d|] == d;
  }

  /** So does a minus sign followed by a run of digits, as the negated value. */
  lemma SignedDigitsOfNegative(s: string)
    requires |s| > 1 && s[0] == '-' && AllDigits(s[1..])
    ensures SignedDigits(s) == Some((0 - DigitsValue(s[1..]), |s|))
  {
    var d := s[1..];
    DigitRunAll(d);
    assert d[..|d|] == d;
  }

  lemma SignedDigitsOfIntToString(i: int)
    ensures SignedDigits(IntToString(i)) == Some((i, |IntToString(i)|))
  {
    var n: nat := if i < 0 then -i else i;
    NatToStringValue(n);
    if i < 0 {
      assert IntToString(i)[1..] == NatToString(n);
      SignedDigitsOfNegative(IntToString(i));
    } else {
      SignedDigitsOfDigits(NatToString(n));
    }
  }

  /** A data-id written with `${id}` and read back with parseInt is the same id. */
  lemma JsParseIntRoundTrip(i: int)
    ensures JsParseInt(IntToString(i)) == Some(i)
  {
    SignedDigitsOfIntToString(i);
    var s := IntToString(i);
    assert !IsJsSpace(s[0]);
  }

  /** A query parameter written as an integer is read back by int() as that integer. */
  lemma PyIntRoundTrip(i: int)
    ensures PyInt(IntToString(i)) == Some(i)
  {
    var s := IntToString(i);
    SignedDigitsOfIntToString(i);
    assert !IsPySpace(s[0]) && !IsPySpace(s[|s| - 1]);
    assert TrimStart(s, IsPySpace) == s;
    assert TrimEnd(s, IsPySpace) == s;
  }

  /** int() refuses text that contains a non-digit inside the number. */
  lemma PyIntRejectsLetters()
    ensures PyInt("12a") == None && PyInt("") == None && PyInt(" 7 ") == Some(7)
  {
    assert TrimBy("12a", IsPySpace) == "12a";
    assert DigitRun("12a") == 2;
    assert TrimBy(" 7 ", IsPySpace) == "7" by {
      assert TrimStart(" 7 ", IsPySpace) == TrimStart("7 ", IsPySpace) == "7 ";
      assert "7 "[..1] == "7";
    }
    assert DigitRun("7") == 1;
    assert "7"[..1] == "7";
  }
}
