/**
 * String helpers shared by the server and the browser scripts:
 * decimal rendering and parsing of integers, joining with a separator
 * and trimming of surrounding whitespace.
 */
module Text {
  import opened Wrappers

  predicate IsDigit(c: char) { '0' <= c <= '9' }

  function DigitChar(d: nat): (c: char)
    requires d < 10
    ensures IsDigit(c) && c as int - '0' as int == d
  {
    ('0' as int + d) as char
  }

  function DigitValue(c: char): nat
    requires IsDigit(c)
  {
    c as int - '0' as int
  }

  predicate AllDigits(s: string) { forall i :: 0 <= i < |s| ==> IsDigit(s[i]) }

  /** Decimal rendering of a natural number, most significant digit first. */
  function NatToString(n: nat): (s: string)
    ensures s != [] && AllDigits(s)
  {
    if n < 10 then [DigitChar(n)] else NatToString(n / 10) + [DigitChar(n % 10)]
  }

  /** Decimal rendering of an integer, as `str(i)` in Python and `String(i)` in JavaScript. */
  function IntToString(i: int): string
  {
    if i < 0 then "-" + NatToString(-i) else NatToString(i)
  }

  /** Value of a digit string read left to right. */
  function DigitsValue(s: string): nat
    requires AllDigits(s)
  {
    if s == [] then 0 else DigitsValue(s[..|s| - 1]) * 10 + DigitValue(s[|s| - 1])
  }

  /** A non-empty run of decimal digits. */
  function ParseNat(s: string): Option<nat>
  {
    if s != [] && AllDigits(s) then Some(DigitsValue(s)) else None
  }

  /** An optionally signed decimal integer: `[+-]?[0-9]+`. */
  function ParseInt(s: string): Option<int>
  {
    if s != [] && (s[0] == '-' || s[0] == '+') then
      match ParseNat(s[1..])
      case Some(n) => var v: int := n; Some(if s[0] == '-' then -v else v)
      case None => None
    else
      match ParseNat(s)
      case Some(n) => Some(n)
      case None => None
  }

  lemma {:induction false} DigitsValueOfNatToString(n: nat)
    ensures DigitsValue(NatToString(n)) == n
  {
    if n >= 10 {
      var s := NatToString(n / 10);
      DigitsValueOfNatToString(n / 10);
      assert (s + [DigitChar(n % 10)])[..|s|] == s;
    }
  }

  /** Rendering an integer and parsing it back gives the integer. */
  lemma ParseIntRoundTrip(i: int)
    ensures ParseInt(IntToString(i)) == Some(i)
  {
    if i < 0 {
      var d := NatToString(-i);
      DigitsValueOfNatToString(-i);
      assert IntToString(i) == "-" + d;
      assert ("-" + d)[1..] == d;
      assert ParseNat(d) == Some(-i);
    } else {
      var d := NatToString(i);
      DigitsValueOfNatToString(i);
      assert IsDigit(d[0]);
      assert ParseNat(d) == Some(i);
    }
  }

  /** Digits and underscores, each underscore followed by a digit. */
  predicate DigitRun(s: string)
  {
    s == [] || ((IsDigit(s[0]) || (s[0] == '_' && |s| > 1 && IsDigit(s[1]))) && DigitRun(s[1..]))
  }

  /** Python's digit grouping: decimal digits, where a single underscore may stand
      between two digits. */
  predicate Grouped(s: string)
  {
    s != [] && IsDigit(s[0]) && DigitRun(s)
  }

  lemma {:induction false} DigitsAreRun(s: string)
    ensures AllDigits(s) ==> DigitRun(s)
  {
    if s != [] && AllDigits(s) {
      DigitsAreRun(s[1..]);
    }
  }

  /** The string with its underscores dropped. */
  function Ungroup(s: string): (r: string)
    ensures |r| <= |s|
  {
    if s == [] then [] else (if s[0] == '_' then [] else [s[0]]) + Ungroup(s[1..])
  }

  lemma {:induction false} UngroupDigits(s: string)
    requires DigitRun(s)
    ensures AllDigits(Ungroup(s))
  {
    if s != [] {
      UngroupDigits(s[1..]);
    }
  }

  /** Without underscores there is nothing to drop. */
  lemma {:induction false} UngroupId(s: string)
    ensures AllDigits(s) ==> Ungroup(s) == s
  {
    if s != [] && AllDigits(s) {
      UngroupId(s[1..]);
      assert s == [s[0]] + s[1..];
    }
  }

  /** Python `int(s)` on a string without surrounding whitespace: an optional sign,
      then decimal digits, possibly grouped by single underscores (`"1_000"`). It
      accepts everything `ParseInt` accepts, with the same value. */
  function PyParseInt(s: string): (r: Option<int>)
    ensures ParseInt(s).Some? ==> r == ParseInt(s)
  {
    var signed := s != [] && (s[0] == '-' || s[0] == '+');
    var body := if signed then s[1..] else s;
    UngroupId(body);
    DigitsAreRun(body);
    if !Grouped(body) then None
    else
      UngroupDigits(body);
      var v: int := DigitsValue(Ungroup(body));
      Some(if signed && s[0] == '-' then -v else v)
  }

  /** A grouped numeral keeps its first digit and leaves only digits. */
  lemma UngroupGrouped(body: string)
    requires Grouped(body)
    ensures Ungroup(body) != [] && AllDigits(Ungroup(body)) && Ungroup(body)[0] == body[0]
  {
    UngroupDigits(body);
  }

  /** Reading a grouped numeral is reading it with its underscores dropped. */
  lemma PyParseIntUngroups(s: string)
    ensures PyParseInt(s).Some? ==> ParseInt(Ungroup(s)) == PyParseInt(s)
  {
    if s != [] && (s[0] == '-' || s[0] == '+') {
      if Grouped(s[1..]) {
        SignedUngroups(s);
      }
    } else if Grouped(s) {
      UngroupGrouped(s);
      assert ParseNat(Ungroup(s)) == Some(DigitsValue(Ungroup(s)));
    }
  }

  lemma SignedUngroups(s: string)
    requires s != [] && (s[0] == '-' || s[0] == '+') && Grouped(s[1..])
    ensures ParseInt(Ungroup(s)) == PyParseInt(s)
  {
    var u := Ungroup(s[1..]);
    UngroupGrouped(s[1..]);
    UngroupSign(s);
    ParseSigned(s[0], u);
    PyParseSigned(s);
  }

  lemma UngroupSign(s: string)
    requires s != [] && s[0] != '_'
    ensures Ungroup(s) == [s[0]] + Ungroup(s[1..])
  {
  }

  lemma ParseSigned(c: char, u: string)
    requires (c == '-' || c == '+') && u != [] && AllDigits(u)
    ensures ParseInt([c] + u) == Some(if c == '-' then -(DigitsValue(u) as int) else DigitsValue(u))
  {
    assert ([c] + u)[1..] == u;
  }

  lemma PyParseSigned(s: string)
    requires s != [] && (s[0] == '-' || s[0] == '+') && Grouped(s[1..])
    ensures AllDigits(Ungroup(s[1..]))
    ensures PyParseInt(s) == Some(if s[0] == '-' then -(DigitsValue(Ungroup(s[1..])) as int) else DigitsValue(Ungroup(s[1..])))
  {
    UngroupDigits(s[1..]);
  }

  /** Underscores group digits: `int("1_000")` is 1000. */
  lemma PyParseIntGroups()
    ensures PyParseInt("1_000") == Some(1000)
  {
    var s := "1_000";
    assert s[1..] == "_000" && "_000"[1..] == "000" && "000"[1..] == "00" && "00"[1..] == "0" && "0"[1..] == [];
    assert Ungroup(s) == "1000";
    DigitsThousand();
  }

  lemma DigitsThousand()
    ensures DigitsValue("1000") == 1000
  {
    assert "1"[..0] == [];
    assert DigitsValue("1") == 1;
    assert "10"[..1] == "1";
    assert DigitsValue("10") == 10;
    assert "100"[..2] == "10";
    assert DigitsValue("100") == 100;
    assert "1000"[..3] == "100";
  }

  /** An underscore at either end, or two in a row, make `int` raise. */
  lemma PyParseIntMisgrouped()
    ensures PyParseInt("_1") == None && PyParseInt("1_") == None && PyParseInt("1__0") == None
  {
    assert "1__0"[1..] == "__0" && "__0"[1] == '_';
  }

  /** Parts joined with a separator between consecutive parts, as `sep.join(parts)` / `parts.join(sep)`. */
  function Join(parts: seq<string>, sep: string): string
  {
    if |parts| == 0 then ""
    else if |parts| == 1 then parts[0]
    else Join(parts[..|parts| - 1], sep) + sep + parts[|parts| - 1]
  }

  lemma JoinOne(part: string, sep: string)
    ensures Join([part], sep) == part
  {
  }

  /** Whitespace removed by `str.strip()` / `String.prototype.trim` (ASCII subset). */
  predicate IsSpace(c: char)
  {
    c == ' ' || c == '\t' || c == '\n' || c == '\r' || c == '\U{000B}' || c == '\U{000C}'
  }

  /** The number of whitespace characters that open the string. */
  function LeadingSpaces(s: string): (n: nat)
    ensures n <= |s|
    ensures forall k :: 0 <= k < n ==> IsSpace(s[k])
    ensures n < |s| ==> !IsSpace(s[n])
  {
    if s == [] || !IsSpace(s[0]) then 0 else 1 + LeadingSpaces(s[1..])
  }

  /** The length of the string once its closing whitespace is cut off. */
  function UnspacedEnd(s: string): (n: nat)
    ensures n <= |s|
    ensures forall k :: n <= k < |s| ==> IsSpace(s[k])
    ensures n > 0 ==> !IsSpace(s[n - 1])
  {
    if s == [] || !IsSpace(s[|s| - 1]) then |s| else UnspacedEnd(s[..|s| - 1])
  }

  function TrimStart(s: string): (r: string)
  {
    s[LeadingSpaces(s)..]
  }

  function TrimEnd(s: string): (r: string)
  {
    s[..UnspacedEnd(s)]
  }

  /** Surrounding whitespace removed. */
  function Trim(s: string): string
  {
    TrimEnd(TrimStart(s))
  }

  /** Trimming leaves a contiguous piece of the input with no whitespace at either end,
      and cuts away nothing but whitespace. */
  lemma TrimSpec(s: string)
    ensures var r, i := Trim(s), |s| - |TrimStart(s)|;
      && i + |r| <= |s| && r == s[i..i + |r|]
      && (forall k :: 0 <= k < i ==> IsSpace(s[k]))
      && (forall k :: i + |r| <= k < |s| ==> IsSpace(s[k]))
      && (r != [] ==> !IsSpace(r[0]) && !IsSpace(r[|r| - 1]))
  {
    var i := LeadingSpaces(s);
    var t := s[i..];
    var n := UnspacedEnd(t);
    assert Trim(s) == s[i..i + n];
    forall k | i + n <= k < |s| ensures IsSpace(s[k]) {
      assert s[k] == t[k - i];
    }
  }

  /** A string with no whitespace at either end trims to itself. */
  lemma TrimUnspaced(s: string)
    requires s != [] ==> !IsSpace(s[0]) && !IsSpace(s[|s| - 1])
    ensures Trim(s) == s
  {
    if s != [] {
      assert TrimStart(s) == s;
      assert TrimEnd(s) == s;
    }
  }

  /** A string trims to nothing exactly when it is all whitespace. */
  lemma TrimEmptyIff(s: string)
    ensures Trim(s) == [] <==> forall i :: 0 <= i < |s| ==> IsSpace(s[i])
  {
    var t := TrimStart(s);
    if Trim(s) == [] {
      assert t == [];
    } else if t != [] {
      assert s[|s| - |t|] == t[0];
    }
  }
}
