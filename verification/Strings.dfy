/** The few string operations of JavaScript the components rely on. */
module Strings {
  import opened Sequences


  /** What String.prototype.trim removes: the white space and line terminator characters. */
  predicate IsSpace(c: char) {
    c in " \t\n\r\U{000B}\U{000C}\U{00A0}\U{1680}\U{2028}\U{2029}\U{202F}\U{205F}\U{3000}\U{FEFF}"
    || '\U{2000}' <= c <= '\U{200A}'
  }

  function TrimStart(s: string): string {
    if s != "" && IsSpace(s[0]) then TrimStart(s[1..]) else s
  }

  function TrimEnd(s: string): string {
    if s != "" && IsSpace(s[|s| - 1]) then TrimEnd(s[..|s| - 1]) else s
  }

  function Trim(s: string): string { TrimEnd(TrimStart(s)) }

  predicate Blank(s: string) { Trim(s) == "" }

  lemma TrimFixed(s: string)
    requires s == "" || (!IsSpace(s[0]) && !IsSpace(s[|s| - 1]))
    ensures Trim(s) == s
  {
  }

  lemma {:induction false} TrimEndKeepsStart(s: string)
    ensures TrimEnd(s) <= s
    ensures TrimEnd(s) != "" ==> !IsSpace(TrimEnd(s)[|TrimEnd(s)| - 1])
  {
    hide IsSpace;
    if s != "" && IsSpace(s[|s| - 1]) {
      TrimEndKeepsStart(s[..|s| - 1]);
    }
  }

  lemma {:induction false} TrimStartStops(s: string)
    ensures TrimStart(s) != "" ==> !IsSpace(TrimStart(s)[0])
  {
    if s != "" && IsSpace(s[0]) {
      TrimStartStops(s[1..]);
    }
  }

  /** A trimmed text neither begins nor ends with white space. */
  lemma TrimTrims(s: string)
    ensures Trim(s) != "" ==> !IsSpace(Trim(s)[0]) && !IsSpace(Trim(s)[|Trim(s)| - 1])
  {
    TrimStartStops(s);
    TrimEndKeepsStart(TrimStart(s));
  }

  predicate OnlySpace(s: string) {
    forall i :: 0 <= i < |s| ==> IsSpace(s[i])
  }

  lemma {:induction false} TrimStartDrops(s: string)
    ensures |TrimStart(s)| <= |s| && s[|s| - |TrimStart(s)|..] == TrimStart(s)
    ensures OnlySpace(s[..|s| - |TrimStart(s)|])
  {
    hide IsSpace;
    if s != "" && IsSpace(s[0]) {
      TrimStartDrops(s[1..]);
      var n := |s| - |TrimStart(s)|;
      assert s[..n] == [s[0]] + s[1..][..n - 1];
    }
  }

  lemma {:induction false} TrimEndDrops(s: string)
    ensures TrimEnd(s) <= s && OnlySpace(s[|TrimEnd(s)|..])
  {
    hide IsSpace;
    if s != "" && IsSpace(s[|s| - 1]) {
      TrimEndDrops(s[..|s| - 1]);
      assert s[|TrimEnd(s)|..] == s[..|s| - 1][|TrimEnd(s)|..] + [s[|s| - 1]];
    }
  }

  /** Trimming removes white space at both ends and nothing else. */
  lemma TrimDrops(s: string) returns (before: string, after: string)
    ensures s == before + Trim(s) + after && OnlySpace(before) && OnlySpace(after)
  {
    hide TrimStart, TrimEnd, OnlySpace;
    var t := TrimStart(s);
    TrimStartDrops(s);
    TrimEndDrops(t);
    before, after := s[..|s| - |t|], t[|TrimEnd(t)|..];
    assert t == TrimEnd(t) + after && s == before + t;
  }

  predicate NoSpace(s: string) {
    forall i :: 0 <= i < |s| ==> !IsSpace(s[i])
  }

  /** toLowerCase as far as letters a to z can come out of it: the two characters outside ASCII
      that lower to one are the dotted capital I and the Kelvin sign. */
  function LowerChar(c: char): string {
    if 'A' <= c <= 'Z' then [c - 'A' + 'a']
    else if c == '\U{212A}' then "k"
    else if c == '\U{0130}' then "i\U{0307}"
    else [c]
  }

  function Lower(s: string): string {
    if s == "" then "" else LowerChar(s[0]) + Lower(s[1..])
  }

  lemma {:induction false} LowerAppend(a: string, b: string)
    ensures Lower(a + b) == Lower(a) + Lower(b)
  {
    if a == "" {
      assert a + b == b;
    } else {
      assert (a + b)[0] == a[0] && (a + b)[1..] == a[1..] + b;
      LowerAppend(a[1..], b);
      assert LowerChar(a[0]) + (Lower(a[1..]) + Lower(b)) == (LowerChar(a[0]) + Lower(a[1..])) + Lower(b);
    }
  }

  lemma LowerOne(c: char)
    ensures Lower([c]) == LowerChar(c)
  {
    assert [c][1..] == "";
  }

  lemma LowerCharIsLower(c: char)
    ensures Lower(LowerChar(c)) == LowerChar(c)
    ensures !IsSpace(c) ==> NoSpace(LowerChar(c))
  {
    if c == '\U{0130}' {
      LowerOne('i');
      LowerOne('\U{0307}');
      LowerAppend("i", "\U{0307}");
      assert LowerChar(c) == "i" + "\U{0307}";
    } else {
      LowerOne(LowerChar(c)[0]);
    }
  }

  lemma {:induction false} LowerIsLower(s: string)
    ensures Lower(Lower(s)) == Lower(s)
    ensures NoSpace(s) ==> NoSpace(Lower(s))
  {
    if s != "" {
      LowerIsLower(s[1..]);
      LowerCharIsLower(s[0]);
      LowerAppend(LowerChar(s[0]), Lower(s[1..]));
    }
  }

  /** toUpperCase as far as letters A to Z can come out of it. */
  function UpperChar(c: char): string {
    if 'a' <= c <= 'z' then [c - 'a' + 'A']
    else if c == '\U{0131}' then "I"
    else if c == '\U{017F}' then "S"
    else if c == '\U{00DF}' then "SS"
    else if c == '\U{FB00}' then "FF"
    else if c == '\U{FB01}' then "FI"
    else if c == '\U{FB02}' then "FL"
    else if c == '\U{FB03}' then "FFI"
    else if c == '\U{FB04}' then "FFL"
    else if c == '\U{FB05}' || c == '\U{FB06}' then "ST"
    else [c]
  }

  const CAPITALS := "ABCDEFGHIJKLMNOPQRSTUVWXYZ"
  const SMALL := "abcdefghijklmnopqrstuvwxyz"

  /** Each letter is lowered to, and raised from, the letter at its place in the alphabet. */
  lemma LettersCorrespond(k: nat)
    requires k < 26
    ensures LowerChar(CAPITALS[k]) == [SMALL[k]] && UpperChar(SMALL[k]) == [CAPITALS[k]]
  {
    assert CAPITALS[k] == 'A' + k as char by { hide LowerChar, UpperChar; }
    assert SMALL[k] == 'a' + k as char by { hide LowerChar, UpperChar; }
    hide CAPITALS, SMALL;
  }

  function Upper(s: string): string {
    if s == "" then "" else UpperChar(s[0]) + Upper(s[1..])
  }

  lemma {:induction false} UpperFixed(s: string)
    requires forall i :: 0 <= i < |s| ==> 'A' <= s[i] <= 'Z'
    ensures Upper(s) == s
  {
    if s != "" {
      UpperFixed(s[1..]);
    }
  }

  predicate Includes(s: string, part: string) {
    part <= s || (s != "" && Includes(s[1..], part))
  }

  predicate StandsAt(s: string, part: string, i: nat) {
    i + |part| <= |s| && s[i..i + |part|] == part
  }

  /** A text includes a part exactly when the part stands somewhere in it. */
  lemma {:induction false} IncludesIff(s: string, part: string)
    ensures Includes(s, part) <==> exists i: nat :: StandsAt(s, part, i)
  {
    if part <= s {
      assert StandsAt(s, part, 0);
    } else if s != "" {
      var rest := s[1..];
      IncludesIff(rest, part);
      if i: nat :| StandsAt(rest, part, i) {
        SliceOfTail(s, i, i + |part|);
        assert StandsAt(s, part, i + 1);
      }
      if i: nat :| StandsAt(s, part, i) {
        assert i == 0 ==> part <= s;
        SliceOfTail(s, i - 1, i - 1 + |part|);
        assert StandsAt(rest, part, i - 1);
      }
    }
  }

  lemma {:induction false} IncludesStart(s: string, part: string, start: string)
    requires start <= part && Includes(s, part)
    ensures Includes(s, start)
  {
    if !(part <= s) {
      IncludesStart(s[1..], part, start);
    }
  }

  // ----- Array.join -----

  function Join(texts: seq<string>, separator: string): string {
    if texts == [] then ""
    else if |texts| == 1 then texts[0]
    else texts[0] + separator + Join(texts[1..], separator)
  }

  /** The joined text of two lists is that of the first, a separator, and that of the second. */
  lemma {:induction false} JoinAppend(a: seq<string>, b: seq<string>, separator: string)
    requires a != [] && b != []
    ensures Join(a + b, separator) == Join(a, separator) + separator + Join(b, separator)
  {
    assert (a + b)[0] == a[0] && (a + b)[1..] == a[1..] + b;
    if |a| == 1 {
      assert a[1..] + b == b;
    } else {
      JoinAppend(a[1..], b, separator);
      var rest := Join(a[1..], separator);
      assert a[0] + separator + (rest + separator + Join(b, separator))
          == (a[0] + separator + rest) + separator + Join(b, separator);
    }
  }

  lemma JoinOne(text: string, separator: string)
    ensures Join([text], separator) == text
  {
  }

  lemma JoinPush(texts: seq<string>, text: string, separator: string)
    ensures Join(texts + [text], separator)
         == (if texts == [] then "" else Join(texts, separator) + separator) + text
  {
    if texts == [] {
      assert texts + [text] == [text];
    } else {
      JoinAppend(texts, [text], separator);
    }
  }

  /** Where the `k`-th text begins when single separators stand between them. */
  function Offset(texts: seq<string>, k: nat): nat
    requires k <= |texts|
  {
    if k == 0 then 0 else Offset(texts, k - 1) + |texts[k - 1]| + 1
  }

  lemma {:induction false} JoinLength(texts: seq<string>, k: nat)
    requires 0 < k <= |texts|
    ensures |Join(texts[..k], " ")| + 1 == Offset(texts, k)
  {
    assert texts[..k] == texts[..k - 1] + [texts[k - 1]];
    JoinPush(texts[..k - 1], texts[k - 1], " ");
    if k > 1 {
      JoinLength(texts, k - 1);
    }
  }

  lemma FirstOffset(texts: seq<string>)
    ensures Offset(texts, 0) == 0
  {
  }

  lemma LastPlace(texts: seq<string>, k: nat)
    requires k < |texts|
    ensures var at, all := Offset(texts, k), Join(texts[..k + 1], " ");
      && |all| == at + |texts[k]| && all[at..] == texts[k] && (k > 0 ==> at > 0 && all[at - 1] == ' ')
  {
    hide Join, Offset;
    var all, last := Join(texts[..k + 1], " "), texts[k];
    assert texts[..k + 1] == texts[..k] + [last];
    JoinPush(texts[..k], last, " ");
    if k > 0 {
      JoinLength(texts, k);
      var head := Join(texts[..k], " ") + " ";
      assert all == head + last && head[|head| - 1] == ' ';
    } else {
      FirstOffset(texts);
      assert all == last;
    }
  }

  lemma JoinExtends(texts: seq<string>, k: nat)
    requires 0 < k <= |texts|
    ensures Join(texts[..k], " ") <= Join(texts, " ")
  {
    hide Join;
    if k < |texts| {
      assert texts == texts[..k] + texts[k..];
      JoinAppend(texts[..k], texts[k..], " ");
    } else {
      assert texts == texts[..k];
    }
  }

  /** Joined by blanks, the texts stand at their offsets, each after a blank but the first. */
  lemma JoinPlaces(texts: seq<string>, k: nat)
    requires k < |texts|
    ensures var at, all := Offset(texts, k), Join(texts, " ");
      && at + |texts[k]| <= |all| && all[at..at + |texts[k]|] == texts[k]
      && (k > 0 ==> at > 0 && all[at - 1] == ' ')
      && |all| + 1 == Offset(texts, |texts|)
  {
    hide Join, Offset;
    JoinLength(texts, |texts|);
    assert texts[..|texts|] == texts;
    LastPlace(texts, k);
    JoinExtends(texts, k + 1);
    var front := Join(texts[..k + 1], " ");
    assert front == Join(texts, " ")[..|front|];
  }

  // ----- decimal numerals -----

  predicate IsDigit(c: char) { '0' <= c <= '9' }

  function Digit(d: nat): (c: char)
    requires d < 10
    ensures IsDigit(c)
  {
    '0' + d as char
  }

  function Decimal(n: nat): (s: string)
    ensures s != "" && forall i :: 0 <= i < |s| ==> IsDigit(s[i])
  {
    if n < 10 then [Digit(n)] else Decimal(n / 10) + [Digit(n % 10)]
  }

  function Value(s: string): int {
    if s == "" then 0 else 10 * Value(s[..|s| - 1]) + (s[|s| - 1] as int - '0' as int)
  }

  lemma {:induction false} DecimalValue(n: nat)
    ensures Value(Decimal(n)) == n
  {
    if n < 10 {
      assert Decimal(n)[..0] == "";
    } else {
      DecimalValue(n / 10);
      assert Decimal(n)[..|Decimal(n)| - 1] == Decimal(n / 10);
    }
  }
}
