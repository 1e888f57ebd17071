/** String helpers shared by the model: decimal and hexadecimal numerals (the
    JavaScript `String(n)`, `n.toString(16)` and `parseInt(s, 10)`), joining,
    `indexOf`, `substring` with clamping and ASCII `toUpperCase`. */
module Text {
  import opened Wrappers

  predicate IsDigit(c: char) {
    '0' <= c <= '9'
  }

  function DigitChar(d: nat): (c: char)
    requires d < 10
    ensures IsDigit(c)
  {
    ('0' as int + d) as char
  }

  function DigitValue(c: char): (d: nat)
    requires IsDigit(c)
    ensures d < 10
  {
    c as int - '0' as int
  }

  /** `String(n)` for a non-negative integer: its base-10 numeral. */
  function NatToDecimal(n: nat): (s: string)
    ensures |s| >= 1
    ensures forall i :: 0 <= i < |s| ==> IsDigit(s[i])
    decreases n
  {
    if n < 10 then [DigitChar(n)] else NatToDecimal(n / 10) + [DigitChar(n % 10)]
  }

  /** The value of a string of decimal digits. */
  function DigitsValue(s: string): nat
    requires forall i :: 0 <= i < |s| ==> IsDigit(s[i])
  {
    if s == [] then 0 else DigitsValue(s[..|s| - 1]) * 10 + DigitValue(s[|s| - 1])
  }

  lemma {:induction false} DigitsValueOfDecimal(n: nat)
    ensures DigitsValue(NatToDecimal(n)) == n
    decreases n
  {
    var s := NatToDecimal(n);
    if n >= 10 {
      DigitsValueOfDecimal(n / 10);
      assert s[..|s| - 1] == NatToDecimal(n / 10);
    }
  }

  /** Different numbers have different numerals, so `'source' + i` names are distinct. */
  lemma NatToDecimalInjective(a: nat, b: nat)
    ensures NatToDecimal(a) == NatToDecimal(b) ==> a == b
  {
    DigitsValueOfDecimal(a);
    DigitsValueOfDecimal(b);
  }

  /** The longest prefix of `s` made of decimal digits. */
  function DigitPrefix(s: string): (p: string)
    ensures |p| <= |s| && p == s[..|p|]
    ensures forall i :: 0 <= i < |p| ==> IsDigit(p[i])
    ensures |p| < |s| ==> !IsDigit(s[|p|])
  {
    if s == [] || !IsDigit(s[0]) then [] else [s[0]] + DigitPrefix(s[1..])
  }

  predicate IsSpace(c: char) {
    c == ' ' || c == '\t' || c == '\n' || c == '\r'
  }

  function TrimStart(s: string): (t: string)
    ensures |t| <= |s| && t == s[|s| - |t|..]
    ensures t != [] ==> !IsSpace(t[0])
  {
    if s != [] && IsSpace(s[0]) then TrimStart(s[1..]) else s
  }

  /** `parseInt(s, 10)`: leading white space, an optional sign and the longest
      run of digits; `None` stands for `NaN` (no digit at all). */
  function ParseInt(s: string): Option<int>
  {
    var t := TrimStart(s);
    var negative := t != [] && t[0] == '-';
    var body := if t != [] && (t[0] == '-' || t[0] == '+') then t[1..] else t;
    var digits := DigitPrefix(body);
    if digits == [] then None
    else if negative then Some(-(DigitsValue(digits) as int))
    else Some(DigitsValue(digits))
  }

  lemma DigitPrefixOfDigits(s: string)
    requires forall i :: 0 <= i < |s| ==> IsDigit(s[i])
    ensures DigitPrefix(s) == s
  {
    if s != [] {
      DigitPrefixOfDigits(s[1..]);
    }
  }

  lemma ParseIntOfDigits(s: string)
    requires |s| >= 1 && forall i :: 0 <= i < |s| ==> IsDigit(s[i])
    ensures ParseInt(s) == Some(DigitsValue(s))
  {
    assert IsDigit(s[0]);
    assert !IsSpace(s[0]);
    var t := TrimStart(s);
    assert t == s;
    assert t[0] != '-' && t[0] != '+';
    DigitPrefixOfDigits(s);
    assert DigitPrefix(t) == s;
  }

  /** `parseInt` reads back what `String` wrote. */
  lemma ParseIntOfDecimal(n: nat)
    ensures ParseInt(NatToDecimal(n)) == Some(n)
  {
    ParseIntOfDigits(NatToDecimal(n));
    DigitsValueOfDecimal(n);
  }

  function HexDigit(d: nat): (c: char)
    requires d < 16
  {
    if d < 10 then DigitChar(d) else ('a' as int + (d - 10)) as char
  }

  predicate IsLowerHex(c: char) {
    IsDigit(c) || 'a' <= c <= 'f'
  }

  lemma HexDigitIsLowerHex(d: nat)
    requires d < 16
    ensures IsLowerHex(HexDigit(d))
  {
  }

  /** `n.toString(16)` for a non-negative integer. */
  function ToHex(n: nat): (s: string)
    ensures |s| >= 1
    ensures forall i :: 0 <= i < |s| ==> IsLowerHex(s[i])
    decreases n
  {
    if n < 16 then [HexDigit(n)] else ToHex(n / 16) + [HexDigit(n % 16)]
  }

  /** `sep`-separated concatenation, as `Array.prototype.join(sep)`. */
  function Join(xs: seq<string>, sep: string): string
  {
    if xs == [] then "" else if |xs| == 1 then xs[0] else xs[0] + sep + Join(xs[1..], sep)
  }

  /** `s.split(c)` for a one-character separator: the pieces between the
      separators, empty ones included; never fewer than one. */
  function Split(s: string, c: char): (parts: seq<string>)
    ensures |parts| >= 1
    ensures forall i :: 0 <= i < |parts| ==> c !in parts[i]
    ensures |parts| == 1 <==> c !in s
  {
    if s == [] then [""]
    else if s[0] == c then [""] + Split(s[1..], c)
    else
      var rest := Split(s[1..], c);
      [[s[0]] + rest[0]] + rest[1..]
  }

  /** Joining the pieces back with the separator gives the string again. */
  lemma {:induction false} JoinSplit(s: string, c: char)
    ensures Join(Split(s, c), [c]) == s
  {
    if s != [] {
      JoinSplit(s[1..], c);
      var rest := Split(s[1..], c);
      if s[0] != c && |rest| > 1 {
        assert rest == [rest[0]] + rest[1..];
      }
    }
  }

  /** Splitting words that do not contain the separator, once joined with it,
      gives the words back. */
  lemma {:induction false} SplitJoin(ws: seq<string>, c: char)
    requires |ws| >= 1
    requires forall i :: 0 <= i < |ws| ==> c !in ws[i]
    ensures Split(Join(ws, [c]), c) == ws
  {
    if |ws| == 1 {
      SplitSingle(ws[0], c);
    } else {
      SplitJoin(ws[1..], c);
      SplitWord(ws[0], c, Join(ws[1..], [c]));
    }
  }

  /** A word without the separator is its own only piece. */
  lemma {:induction false} SplitSingle(w: string, c: char)
    requires c !in w
    ensures Split(w, c) == [w]
  {
    if w != [] {
      SplitSingle(w[1..], c);
      assert w[0] != c && w == [w[0]] + w[1..];
    }
  }

  /** A word without the separator, followed by the separator, splits off as
      the first piece. */
  lemma {:induction false} SplitWord(w: string, c: char, tail: string)
    requires c !in w
    ensures Split(w + [c] + tail, c) == [w] + Split(tail, c)
  {
    if w != [] {
      SplitWord(w[1..], c, tail);
      assert (w + [c] + tail)[1..] == w[1..] + [c] + tail;
      assert w[0] != c && w == [w[0]] + w[1..];
    } else {
      assert w + [c] + tail == [c] + tail;
    }
  }

  /** `s.substring(0, k)` with JavaScript's clamping of out-of-range ends. */
  function Prefix(s: string, k: int): (r: string)
    ensures |r| == if k <= 0 then 0 else if k >= |s| then |s| else k
  {
    if k <= 0 then [] else if k >= |s| then s else s[..k]
  }

  /** `s.substring(0, s.length - 2)`: everything but the last two characters. */
  function DropLastTwo(s: string): (r: string)
    ensures |s| >= 2 ==> r == s[..|s| - 2]
    ensures |s| < 2 ==> r == []
  {
    Prefix(s, |s| - 2)
  }

  predicate Occurs(needle: string, hay: string, i: int) {
    0 <= i && i + |needle| <= |hay| && hay[i..i + |needle|] == needle
  }

  /** Every piece occurs in the joined text. */
  lemma {:induction false} JoinOccurs(xs: seq<string>, sep: string, i: nat)
    requires i < |xs|
    ensures exists k :: Occurs(xs[i], Join(xs, sep), k)
  {
    var j := Join(xs, sep);
    if |xs| == 1 {
      assert Occurs(xs[0], j, 0);
    } else if i == 0 {
      assert j == xs[0] + (sep + Join(xs[1..], sep));
      assert Occurs(xs[0], j, 0);
    } else {
      JoinOccurs(xs[1..], sep, i - 1);
      var rest := Join(xs[1..], sep);
      var k :| Occurs(xs[1..][i - 1], rest, k);
      var head := xs[0] + sep;
      assert j == head + rest;
      assert j[|head| + k..|head| + k + |xs[i]|] == rest[k..k + |xs[i]|];
      assert Occurs(xs[i], j, |head| + k);
    }
  }

  /** `hay.indexOf(needle)`: the first position of `needle`, or -1. */
  function IndexOf(hay: string, needle: string): (r: int)
    ensures r == -1 || Occurs(needle, hay, r)
    ensures r == -1 ==> forall i :: 0 <= i <= |hay| - |needle| ==> !Occurs(needle, hay, i)
    ensures r != -1 ==> forall i :: 0 <= i < r ==> !Occurs(needle, hay, i)
    decreases |hay|
  {
    if |needle| > |hay| then -1
    else if hay[..|needle|] == needle then 0
    else
      var k := IndexOf(hay[1..], needle);
      assert !Occurs(needle, hay, 0) by {
        assert hay[0..|needle|] == hay[..|needle|];
      }
      assert forall j {:trigger Occurs(needle, hay, j)} :: 1 <= j ==> (Occurs(needle, hay, j) <==> Occurs(needle, hay[1..], j - 1));
      if k == -1 then -1 else k + 1
  }

  function UpperChar(c: char): char {
    if 'a' <= c <= 'z' then (c as int - 'a' as int + 'A' as int) as char else c
  }

  /** `toUpperCase` on ASCII letters; other characters are kept. */
  function Upper(s: string): (r: string)
    ensures |r| == |s|
    ensures forall i :: 0 <= i < |s| ==> r[i] == UpperChar(s[i])
  {
    if s == [] then [] else [UpperChar(s[0])] + Upper(s[1..])
  }
}
