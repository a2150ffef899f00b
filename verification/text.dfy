/** The few JavaScript string operations the program relies on:
    `String.prototype.trim`, `Array.prototype.join`, `String.prototype.split`
    with a one-character separator, and the decimal rendering of a whole
    number inside a template literal. */
module Text {

  /** The characters `trim` removes: the ECMAScript WhiteSpace set (tab,
      vertical tab, form feed, space, no-break space, byte order mark and the
      Unicode space separators) and the LineTerminator set. */
  predicate IsTrimmable(c: char)
  {
    || c == '\t' || c == '\n' || c == '\U{000B}' || c == '\U{000C}' || c == '\r' || c == ' '
    || c == '\U{00A0}' || c == '\U{1680}' || ('\U{2000}' <= c <= '\U{200A}')
    || c == '\U{2028}' || c == '\U{2029}' || c == '\U{202F}' || c == '\U{205F}'
    || c == '\U{3000}' || c == '\U{FEFF}'
  }

  /** Every character is trimmable (in particular, the empty string). */
  predicate IsBlank(s: string)
  {
    forall i :: 0 <= i < |s| ==> IsTrimmable(s[i])
  }

  /** `s` without its leading trimmable characters. */
  function TrimStart(s: string): (r: string)
    ensures |r| <= |s| && r == s[|s| - |r|..]
    ensures forall k :: 0 <= k < |s| - |r| ==> IsTrimmable(s[k])
    ensures r != [] ==> !IsTrimmable(r[0])
  {
    if |s| == 0 || !IsTrimmable(s[0]) then s else TrimStart(s[1..])
  }

  /** `s` without its trailing trimmable characters. */
  function TrimEnd(s: string): (r: string)
    ensures |r| <= |s| && r == s[..|r|]
    ensures forall k :: |r| <= k < |s| ==> IsTrimmable(s[k])
    ensures r != [] ==> !IsTrimmable(r[|r| - 1])
  {
    if |s| == 0 || !IsTrimmable(s[|s| - 1]) then s else TrimEnd(s[..|s| - 1])
  }

  /** `s.trim()`: it neither starts nor ends with a trimmable character, and
      it is empty exactly when `s` is blank. */
  function Trim(s: string): (r: string)
    ensures r != [] ==> !IsTrimmable(r[0]) && !IsTrimmable(r[|r| - 1])
    ensures r == [] <==> IsBlank(s)
  {
    TrimBlank(s);
    TrimEnd(TrimStart(s))
  }

  lemma TrimBlank(s: string)
    ensures TrimEnd(TrimStart(s)) == [] <==> IsBlank(s)
  {
    var a := TrimStart(s);
    if TrimEnd(a) == [] {
      assert |a| == 0;
    } else {
      assert a[0] in s;
    }
  }

  /** Where the trimmed text sits in `s`. */
  function TrimOffset(s: string): (off: nat)
    ensures off <= |s|
  {
    |s| - |TrimStart(s)|
  }

  /** `s.trim()` is the slice of `s` left after dropping trimmable characters
      at both ends: everything before and after the slice is trimmable. */
  lemma TrimIsSlice(s: string)
    ensures TrimOffset(s) + |Trim(s)| <= |s|
    ensures Trim(s) == s[TrimOffset(s)..TrimOffset(s) + |Trim(s)|]
    ensures forall k :: 0 <= k < TrimOffset(s) ==> IsTrimmable(s[k])
    ensures forall k :: TrimOffset(s) + |Trim(s)| <= k < |s| ==> IsTrimmable(s[k])
  {
    var a := TrimStart(s);
    var off := TrimOffset(s);
    var r := Trim(s);
    forall k | off + |r| <= k < |s|
      ensures IsTrimmable(s[k])
    {
      assert s[k] == a[k - off];
    }
  }

  // ---------------------------------------------------------------------
  // join and split

  /** `lines.join(sep)`: the items with `sep` between neighbours, no trailing separator. */
  function Join(lines: seq<string>, sep: string): string
  {
    if |lines| == 0 then ""
    else if |lines| == 1 then lines[0]
    else lines[0] + sep + Join(lines[1..], sep)
  }

  /** The position of the first `c` in `s`, or `|s|` when there is none. */
  function IndexOf(s: string, c: char): (r: nat)
    ensures r <= |s|
    ensures r < |s| ==> s[r] == c
    ensures forall k :: 0 <= k < r ==> s[k] != c
  {
    if |s| == 0 then 0
    else if s[0] == c then 0
    else 1 + IndexOf(s[1..], c)
  }

  /** `s.split(c)`: the pieces between occurrences of `c`; never empty, and
      the empty string splits into one empty piece. */
  function Split(s: string, c: char): (pieces: seq<string>)
    ensures |pieces| > 0
    ensures forall k :: 0 <= k < |pieces| ==> c !in pieces[k]
    decreases |s|
  {
    var i := IndexOf(s, c);
    if i == |s| then [s] else [s[..i]] + Split(s[i + 1..], c)
  }

  /** Splitting a joined text gives back the lines, provided there is at least
      one line and no line contains the separator. */
  lemma {:induction false} SplitJoin(lines: seq<string>, c: char)
    requires |lines| > 0
    requires forall k :: 0 <= k < |lines| ==> c !in lines[k]
    ensures Split(Join(lines, [c]), c) == lines
    decreases |lines|
  {
    var l := lines[0];
    assert forall k :: 0 <= k < |l| ==> l[k] != c by {
      assert c !in l;
    }
    if |lines| > 1 {
      var rest := Join(lines[1..], [c]);
      var s := l + [c] + rest;
      assert IndexOf(s, c) == |l| by {
        assert s[|l|] == c;
        assert forall k :: 0 <= k < |l| ==> s[k] == l[k];
      }
      assert s[..|l|] == l;
      assert s[|l| + 1..] == rest;
      assert Join(lines, [c]) == s;
      assert Split(s, c) == [l] + Split(rest, c);
      SplitJoin(lines[1..], c);
      assert lines == [l] + lines[1..];
    } else {
      assert IndexOf(l, c) == |l|;
    }
  }

  /** Joining the pieces of a split text gives back the text. */
  lemma {:induction false} JoinSplit(s: string, c: char)
    ensures Join(Split(s, c), [c]) == s
    decreases |s|
  {
    var i := IndexOf(s, c);
    if i < |s| {
      var rest := Split(s[i + 1..], c);
      JoinSplit(s[i + 1..], c);
      var pieces := Split(s, c);
      assert pieces == [s[..i]] + rest;
      assert pieces[1..] == rest;
      assert Join(pieces, [c]) == s[..i] + [c] + Join(rest, [c]);
      assert s == s[..i] + [c] + s[i + 1..];
    }
  }

  // ---------------------------------------------------------------------
  // Whole numbers in decimal

  function DigitChar(d: nat): (c: char)
    requires d < 10
    ensures '0' <= c <= '9'
  {
    ['0', '1', '2', '3', '4', '5', '6', '7', '8', '9'][d]
  }

  function DigitValue(c: char): nat
    requires '0' <= c <= '9'
  {
    c as int - '0' as int
  }

  lemma DigitRoundTrip(d: nat)
    requires d < 10
    ensures DigitValue(DigitChar(d)) == d
  {
  }

  /** The decimal rendering of a whole number: digits only, no leading zero. */
  function NatToString(n: nat): (s: string)
    ensures |s| > 0
    ensures forall k :: 0 <= k < |s| ==> '0' <= s[k] <= '9'
    ensures s[0] == '0' ==> n == 0
  {
    if n < 10 then [DigitChar(n)] else NatToString(n / 10) + [DigitChar(n % 10)]
  }

  /** Reads decimal digits back into a number. */
  function ParseDecimal(s: string): nat
    requires forall k :: 0 <= k < |s| ==> '0' <= s[k] <= '9'
  {
    if |s| == 0 then 0 else ParseDecimal(s[..|s| - 1]) * 10 + DigitValue(s[|s| - 1])
  }

  /** Rendering a whole number and reading it back gives the number: the
      rendering loses nothing. */
  lemma {:induction false} ParseNatToString(n: nat)
    ensures ParseDecimal(NatToString(n)) == n
    decreases n
  {
    DigitRoundTrip(n % 10);
    if n >= 10 {
      ParseNatToString(n / 10);
      var s := NatToString(n);
      assert s[..|s| - 1] == NatToString(n / 10);
    }
  }

  /** How a template literal renders an integer: a minus sign, then digits. */
  function IntToString(i: int): (s: string)
    ensures |s| > 0
    ensures i >= 0 ==> s == NatToString(i)
    ensures i < 0 ==> s[0] == '-' && s[1..] == NatToString(-i)
  {
    if i < 0 then "-" + NatToString(-i) else NatToString(i)
  }
}
