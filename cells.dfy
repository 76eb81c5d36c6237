/** Spreadsheet cell values and the Python string operations `bulk_import`
    applies to them: truthiness, `str()`, `strip()` and `lower()`. */
module Cells {
  /** A cell value as the spreadsheet reader hands it over. */
  datatype Cell = Empty | Text(text: string) | Integer(n: int) | Boolean(b: bool)

  /** Python truthiness of the value. */
  predicate Truthy(c: Cell)
  {
    match c
    case Empty => false
    case Text(s) => s != ""
    case Integer(n) => n != 0
    case Boolean(b) => b
  }

  function Digit(d: nat): char
    requires d < 10
  {
    "0123456789"[d]
  }

  function Decimal(n: nat): (r: string)
    ensures |r| >= 1
    decreases n
  {
    if n < 10 then [Digit(n)] else Decimal(n / 10) + [Digit(n % 10)]
  }

  /** Python `str()` of the value; an empty cell gives "None". */
  function Str(c: Cell): string
  {
    match c
    case Empty => "None"
    case Text(s) => s
    case Integer(n) => if n < 0 then "-" + Decimal(-n) else Decimal(n)
    case Boolean(b) => if b then "True" else "False"
  }

  /** The characters `str.strip()` removes, as far as they are modelled:
      the ASCII whitespace, the separators U+001C to U+001F, NEL and NBSP. */
  predicate IsSpace(c: char)
  {
    c == ' ' || ('\t' <= c <= '\r') || ('\U{1C}' <= c <= '\U{1F}') || c == '\U{85}' || c == '\U{A0}'
  }

  function TrimLeft(s: string): (r: string)
    ensures |r| <= |s| && r == s[|s| - |r|..]
    ensures r == [] || !IsSpace(r[0])
    ensures forall i :: 0 <= i < |s| - |r| ==> IsSpace(s[i])
  {
    if s == [] || !IsSpace(s[0]) then s else TrimLeft(s[1..])
  }

  function TrimRight(s: string): (r: string)
    ensures |r| <= |s| && r == s[..|r|]
    ensures r == [] || !IsSpace(r[|r| - 1])
    ensures forall i :: |r| <= i < |s| ==> IsSpace(s[i])
  {
    if s == [] || !IsSpace(s[|s| - 1]) then s else TrimRight(s[..|s| - 1])
  }

  /** `r` is `s[i..j]`, and everything before `i` and from `j` on is
      whitespace. */
  predicate CutFrom(s: string, r: string, i: int, j: int)
  {
    && 0 <= i <= j <= |s| && r == s[i..j]
    && (forall k :: 0 <= k < i ==> IsSpace(s[k]))
    && (forall k :: j <= k < |s| ==> IsSpace(s[k]))
  }

  /** `str.strip()`: the middle of `s` between its leading and trailing
      whitespace; everything cut off on either side is whitespace. */
  function Strip(s: string): (r: string)
    ensures r == [] || (!IsSpace(r[0]) && !IsSpace(r[|r| - 1]))
    ensures exists i, j :: CutFrom(s, r, i, j)
  {
    CutTwice(s, TrimLeft(s), TrimRight(TrimLeft(s)));
    TrimRight(TrimLeft(s))
  }

  /** Cutting whitespace off the front of `s` to get `l`, then off the back
      of `l` to get `r`, cuts `r` out of `s`. */
  lemma CutTwice(s: string, l: string, r: string)
    requires |l| <= |s| && l == s[|s| - |l|..]
    requires forall k :: 0 <= k < |s| - |l| ==> IsSpace(s[k])
    requires |r| <= |l| && r == l[..|r|]
    requires forall k :: |r| <= k < |l| ==> IsSpace(l[k])
    ensures CutFrom(s, r, |s| - |l|, |s| - |l| + |r|)
  {
    var i := |s| - |l|;
    assert r == s[i..i + |r|];
    forall k | i + |r| <= k < |s| ensures IsSpace(s[k]) {
      assert s[k] == l[k - i];
    }
  }

  function LowerChar(c: char): char
  {
    if 'A' <= c <= 'Z' then (c as int + 32) as char else c
  }

  /** `str.lower()` on ASCII letters. */
  function Lower(s: string): (r: string)
    ensures |r| == |s|
    ensures forall i :: 0 <= i < |s| ==> r[i] == LowerChar(s[i])
  {
    if s == [] then [] else [LowerChar(s[0])] + Lower(s[1..])
  }

  predicate TransportWord(s: string)
  {
    s == "yes" || s == "true" || s == "1" || s == "y"
  }

  /** `has_transport` from its cell: set exactly when the trimmed,
      lower-cased text is one of "yes", "true", "1", "y"; an empty cell
      gives false. */
  predicate TransportFlag(c: Cell)
  {
    var hasTransStr := if Truthy(c) then Lower(Strip(Str(c))) else "";
    TransportWord(hasTransStr)
  }

  /** Text with nothing to trim is left as it is. */
  lemma StripUnpadded(s: string)
    requires s == [] || (!IsSpace(s[0]) && !IsSpace(s[|s| - 1]))
    ensures Strip(s) == s
  {
  }

  /** An empty cell's text, "None", survives `strip()`. */
  lemma StripEmpty()
    ensures Strip(Str(Empty)) == "None"
  {
    StripUnpadded("None");
  }

  /** One space on either side of unpadded text is stripped again. */
  lemma StripPadded(s: string)
    requires s != [] && !IsSpace(s[0]) && !IsSpace(s[|s| - 1])
    ensures Strip([' '] + s + [' ']) == s
  {
    var t := [' '] + s + [' '];
    assert t[1..] == s + [' '];
    assert TrimLeft(t) == s + [' '];
    assert (s + [' '])[..|s|] == s;
    assert TrimRight(s + [' ']) == s;
  }

  lemma LowerYes()
    ensures Lower("YES") == "yes"
  {
    var l := Lower("YES");
    assert l[0] == 'y' && l[1] == 'e' && l[2] == 's';
  }

  /** A padded upper-case "YES" counts. */
  lemma TransportFlagPaddedYes()
    ensures TransportFlag(Text(" YES "))
  {
    StripPadded("YES");
    assert [' '] + "YES" + [' '] == " YES ";
    LowerYes();
  }

  lemma LowerTrue()
    ensures Lower("True") == "true"
  {
    var l := Lower("True");
    assert l[0] == 't' && l[1] == 'r' && l[2] == 'u' && l[3] == 'e';
  }

  /** A boolean cell holding true counts: its `str` is "True". */
  lemma TransportFlagTrue()
    ensures TransportFlag(Boolean(true))
  {
    StripUnpadded("True");
    LowerTrue();
  }

  /** The number 1 counts. */
  lemma TransportFlagOne()
    ensures TransportFlag(Integer(1))
  {
    assert Str(Integer(1)) == "1";
    StripUnpadded("1");
    var l := Lower("1");
    assert l[0] == '1';
  }

  /** "no" does not count. */
  lemma TransportFlagNo()
    ensures !TransportFlag(Text("no"))
  {
    StripUnpadded("no");
  }

  /** An empty cell does not count. */
  lemma TransportFlagEmpty()
    ensures !TransportFlag(Empty)
  {
  }

}
