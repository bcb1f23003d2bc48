/** Column names: the slug of a spreadsheet header, and the numbering of repeated names that
    three normalisers perform. */
module HeaderNames {
  import opened Sequences
  import opened Strings

  // ----- normalizeXlsxHeader -----

  predicate Alnum(c: char) { 'a' <= c <= 'z' || '0' <= c <= '9' }

  const IS_ALNUM: char -> bool := (c: char) => Alnum(c)

  function SkipOthers(p: char -> bool, s: string): (r: string)
    ensures |r| <= |s| && (r != "" ==> p(r[0]))
  {
    if s != "" && !p(s[0]) then SkipOthers(p, s[1..]) else s
  }

  /** Replace each maximal run of other characters by one underscore. */
  function Collapse(p: char -> bool, s: string): string
    decreases |s|
  {
    if s == "" then ""
    else if p(s[0]) then [s[0]] + Collapse(p, s[1..])
    else "_" + Collapse(p, SkipOthers(p, s[1..]))
  }

  function StripStart(s: string): string {
    if s != "" && s[0] == '_' then StripStart(s[1..]) else s
  }

  function StripEnd(s: string): string {
    if s != "" && s[|s| - 1] == '_' then StripEnd(s[..|s| - 1]) else s
  }

  function NormalizeXlsxHeader(header: string): string {
    StripEnd(StripStart(Collapse(IS_ALNUM, Lower(Trim(header)))))
  }

  /** Lower-case words and digits joined by single underscores. */
  ghost predicate Words(s: string) {
    && (forall i :: 0 <= i < |s| ==> Alnum(s[i]) || s[i] == '_')
    && (forall i, j :: 0 <= i && j == i + 1 < |s| ==> Alnum(s[i]) || Alnum(s[j]))
  }

  ghost predicate Slug(s: string) {
    Words(s) && (s != "" ==> Alnum(s[0]) && Alnum(s[|s| - 1]))
  }

  lemma {:induction false} CollapseGivesWords(s: string)
    ensures Words(Collapse(IS_ALNUM, s))
    ensures Collapse(IS_ALNUM, s) != "" && Alnum(Collapse(IS_ALNUM, s)[0]) <==> s != "" && Alnum(s[0])
    decreases |s|
  {
    if s != "" {
      var rest := if Alnum(s[0]) then s[1..] else SkipOthers(IS_ALNUM, s[1..]);
      CollapseGivesWords(rest);
      assert Collapse(IS_ALNUM, s)[1..] == Collapse(IS_ALNUM, rest);
    }
  }

  lemma {:induction false} StripStartGivesWords(s: string)
    requires Words(s)
    ensures Words(StripStart(s)) && (StripStart(s) != "" ==> Alnum(StripStart(s)[0]))
  {
    if s != "" && s[0] == '_' {
      StripStartGivesWords(s[1..]);
    }
  }

  lemma {:induction false} StripEndGivesSlug(s: string)
    requires Words(s) && (s != "" ==> Alnum(s[0]))
    ensures Slug(StripEnd(s))
  {
    if s != "" && s[|s| - 1] == '_' {
      StripEndGivesSlug(s[..|s| - 1]);
    }
  }

  lemma WordsTail(s: string)
    requires Words(s) && s != ""
    ensures Words(s[1..]) && (!Alnum(s[0]) ==> s[0] == '_' && (|s| > 1 ==> Alnum(s[1])))
  {
    assert Alnum(s[0]) || s[0] == '_';
  }

  lemma {:induction false} WordsCollapse(s: string)
    requires Words(s) && (s != "" ==> Alnum(s[|s| - 1]))
    ensures Collapse(IS_ALNUM, s) == s
  {
    if s != "" {
      var rest := s[1..];
      WordsTail(s);
      WordsCollapse(rest);
      assert !Alnum(s[0]) ==> SkipOthers(IS_ALNUM, rest) == rest;
      assert s == [s[0]] + rest;
    }
  }

  lemma {:induction false} WordsAreLower(s: string)
    requires forall i :: 0 <= i < |s| ==> Alnum(s[i]) || s[i] == '_'
    ensures Lower(s) == s
  {
    if s != "" {
      assert Alnum(s[0]) || s[0] == '_';
      WordsAreLower(s[1..]);
    }
  }

  lemma NormalizeGivesSlug(header: string)
    ensures Slug(NormalizeXlsxHeader(header))
  {
    var c := Collapse(IS_ALNUM, Lower(Trim(header)));
    CollapseGivesWords(Lower(Trim(header)));
    StripStartGivesWords(c);
    StripEndGivesSlug(StripStart(c));
  }

  lemma SlugIsFixed(s: string)
    requires Slug(s)
    ensures NormalizeXlsxHeader(s) == s
  {
    hide Trim, Lower;
    TrimFixed(s);
    WordsAreLower(s);
    WordsCollapse(s);
  }

  /** Every header is normalised to a slug, and the slugs are exactly the fixed points; so
      normalising twice is normalising once. */
  lemma NormalizeIsIdempotent(header: string)
    ensures Slug(NormalizeXlsxHeader(header))
    ensures NormalizeXlsxHeader(NormalizeXlsxHeader(header)) == NormalizeXlsxHeader(header)
    ensures NormalizeXlsxHeader(header) == header <==> Slug(header)
  {
    NormalizeGivesSlug(header);
    SlugIsFixed(NormalizeXlsxHeader(header));
    if Slug(header) {
      SlugIsFixed(header);
    }
  }

  // ----- the words of a header -----

  /** How many characters from the start on satisfy `p`. */
  function Leading(p: char -> bool, s: string): (n: nat)
    ensures n <= |s| && (forall i :: 0 <= i < n ==> p(s[i])) && (n < |s| ==> !p(s[n]))
  {
    if s != "" && p(s[0]) then 1 + Leading(p, s[1..]) else 0
  }

  /** The maximal runs of characters that satisfy `p`. */
  function Tokens(p: char -> bool, s: string): seq<string>
    decreases |s|
  {
    if s == "" then []
    else if p(s[0]) then [s[..Leading(p, s)]] + Tokens(p, s[Leading(p, s)..])
    else Tokens(p, s[1..])
  }

  lemma {:induction false} SkippedTokens(p: char -> bool, s: string)
    ensures Tokens(p, SkipOthers(p, s)) == Tokens(p, s)
    ensures SkipOthers(p, s) != "" ==> SkipOthers(p, s)[|SkipOthers(p, s)| - 1] == s[|s| - 1]
    ensures SkipOthers(p, s) == "" ==> Tokens(p, s) == [] && forall i :: 0 <= i < |s| ==> !p(s[i])
  {
    if s != "" && !p(s[0]) {
      SkippedTokens(p, s[1..]);
    }
  }

  lemma {:induction false} CollapseLeading(p: char -> bool, s: string, n: nat)
    requires n <= Leading(p, s)
    ensures Collapse(p, s) == s[..n] + Collapse(p, s[n..])
  {
    if n > 0 {
      CollapseLeading(p, s[1..], n - 1);
      HeadAndSlice(s, n);
    } else {
      assert s[0..] == s;
    }
  }

  /** One underscore for white space, or whatever does not satisfy `p`, at the end. */
  function Tail(p: char -> bool, s: string): string {
    if s != "" && !p(s[|s| - 1]) then "_" else ""
  }

  lemma FirstRun(p: char -> bool, s: string)
    requires s != "" && p(s[0])
    ensures var n := Leading(p, s);
      n > 0 && (if n == |s| then Tail(p, s) == "" else Tail(p, s) == Tail(p, s[n..]))
  {
  }

  lemma FirstToken(p: char -> bool, s: string)
    requires s != "" && p(s[0])
    ensures var n := Leading(p, s);
      Tokens(p, s) == [s[..n]] + Tokens(p, s[n..]) && Collapse(p, s) == s[..n] + Collapse(p, s[n..])
  {
    hide Leading, Collapse;
    CollapseLeading(p, s, Leading(p, s));
  }

  lemma SkipRun(p: char -> bool, s: string)
    requires s != "" && !p(s[0])
    ensures var next := SkipOthers(p, s[1..]);
      && Collapse(p, s) == "_" + Collapse(p, next) && Tokens(p, s) == Tokens(p, next)
      && Tail(p, s) == if next == "" then "_" else Tail(p, next)
  {
    SkippedTokens(p, s[1..]);
  }

  lemma NoTokens(p: char -> bool)
    ensures Tokens(p, "") == [] && Collapse(p, "") == ""
  {
  }

  lemma {:induction false} CollapseJoins(p: char -> bool, s: string)
    requires s != "" && p(s[0])
    ensures Collapse(p, s) == Join(Tokens(p, s), "_") + Tail(p, s)
    ensures Tokens(p, s) != []
    decreases |s|
  {
    hide Collapse, Tokens, Tail, SkipOthers;
    var n := Leading(p, s);
    var word, rest := s[..n], s[n..];
    FirstRun(p, s);
    FirstToken(p, s);
    NoTokens(p);
    hide Leading;
    if rest != "" {
      var next := SkipOthers(p, rest[1..]);
      SkipRun(p, rest);
      if next != "" {
        CollapseJoins(p, next);
        hide Join;
        JoinOne(word, "_");
        JoinAppend([word], Tokens(p, next), "_");
        assert word + ("_" + (Join(Tokens(p, next), "_") + Tail(p, next)))
            == (word + "_" + Join(Tokens(p, next), "_")) + Tail(p, next);
      }
    }
  }

  lemma StripStartOf(s: string)
    requires s == "" || s[0] != '_'
    ensures StripStart(s) == s && StripStart("_" + s) == s
  {
    assert ("_" + s)[1..] == s;
  }

  lemma StripEndOf(s: string)
    requires s == "" || s[|s| - 1] != '_'
    ensures StripEnd(s) == s && StripEnd(s + "_") == s
  {
    assert (s + "_")[..|s|] == s;
  }

  /** Joined words begin as the first of them and end as the last. */
  lemma JoinedWords(words: seq<string>)
    requires words != [] && words[0] != "" && words[|words| - 1] != ""
    ensures var all, last := Join(words, "_"), words[|words| - 1];
      all != "" && all[0] == words[0][0] && all[|all| - 1] == last[|last| - 1]
  {
    hide Join;
    var front, last := words[..|words| - 1], words[|words| - 1];
    assert words == front + [last];
    JoinPush(front, last, "_");
    JoinOne(words[0], "_");
    if |words| > 1 {
      assert words == [words[0]] + words[1..];
      JoinAppend([words[0]], words[1..], "_");
      assert Join(words, "_") == words[0] + ("_" + Join(words[1..], "_"));
    }
  }

  lemma {:induction false} TokensAreRuns(p: char -> bool, s: string)
    ensures forall i :: 0 <= i < |Tokens(p, s)| ==>
      var t := Tokens(p, s)[i]; t != "" && forall k :: 0 <= k < |t| ==> p(t[k])
    decreases |s|
  {
    if s != "" {
      TokensAreRuns(p, if p(s[0]) then s[Leading(p, s)..] else s[1..]);
    }
  }

  lemma SkippedCollapse(s: string)
    ensures var next := SkipOthers(IS_ALNUM, s);
      Collapse(IS_ALNUM, s) == (if next == s then "" else "_") + Collapse(IS_ALNUM, next)
      && (next == s <==> s == "" || Alnum(s[0]))
  {
  }

  lemma StripJoined(words: seq<string>, tail: string)
    requires words != [] && tail in ["", "_"]
    requires forall i :: 0 <= i < |words| ==> words[i] != "" && forall k :: 0 <= k < |words[i]| ==> Alnum(words[i][k])
    ensures var all := Join(words, "_");
      StripEnd(StripStart(all + tail)) == all && StripEnd(StripStart("_" + (all + tail))) == all
  {
    hide StripStart, StripEnd, Join;
    var all := Join(words, "_");
    JoinedWords(words);
    StripStartOf(all + tail);
    assert all + "" == all;
    StripEndOf(all);
  }

  lemma StripNothing()
    ensures StripEnd(StripStart("")) == "" && StripEnd(StripStart("_")) == "" && Join([], "_") == ""
  {
    StripStartOf("");
    assert "_" + "" == "_";
  }

  lemma StripCollapse(s: string)
    ensures StripEnd(StripStart(Collapse(IS_ALNUM, s))) == Join(Tokens(IS_ALNUM, s), "_")
  {
    hide Collapse, Tokens, SkipOthers, Join, StripStart, StripEnd;
    var next := SkipOthers(IS_ALNUM, s);
    SkippedTokens(IS_ALNUM, s);
    SkippedCollapse(s);
    if next != "" {
      CollapseJoins(IS_ALNUM, next);
      TokensAreRuns(IS_ALNUM, next);
      StripJoined(Tokens(IS_ALNUM, next), Tail(IS_ALNUM, next));
      assert "" + Collapse(IS_ALNUM, next) == Collapse(IS_ALNUM, next);
    } else {
      NoTokens(IS_ALNUM);
      StripNothing();
      assert "_" + "" == "_" && "" + "" == "";
    }
  }

  /** A normalised spreadsheet header is the list of the header's words, the maximal runs of letters
      and digits of its trimmed lower-case text, joined by single underscores. */
  lemma XlsxHeaderIsItsWords(header: string)
    ensures NormalizeXlsxHeader(header) == Join(Tokens(IS_ALNUM, Lower(Trim(header))), "_")
  {
    hide Trim, Lower, Join, Collapse, StripStart, StripEnd;
    StripCollapse(Lower(Trim(header)));
  }

  // ----- normalizeCsvHeader and the reduction of HeaderNormalizer -----

  const NOT_SPACE: char -> bool := (c: char) => !IsSpace(c)

  /** Replace each maximal run of white space by one underscore. */
  function Underscored(s: string): string { Collapse(NOT_SPACE, s) }

  function StripMark(s: string): string {
    if s != "" && s[0] == '\U{FEFF}' then s[1..] else s
  }

  /** CSV headers keep letters of every script, so `toLowerCase` is a parameter here. */
  function NormalizeCsvHeader(toLowerCase: string -> string, header: string): string {
    toLowerCase(Underscored(StripMark(Trim(header))))
  }

  /** Lowering leaves lowered text as it is and makes no white space. */
  ghost predicate IsLowering(toLowerCase: string -> string) {
    forall s :: toLowerCase(toLowerCase(s)) == toLowerCase(s) && (NoSpace(s) ==> NoSpace(toLowerCase(s)))
  }

  lemma LowerIsLowering()
    ensures IsLowering(Lower)
  {
    forall s ensures Lower(Lower(s)) == Lower(s) && (NoSpace(s) ==> NoSpace(Lower(s))) {
      LowerIsLower(s);
    }
  }

  const IS_NAME_CHAR: char -> bool := (c: char) => Alnum(c) || c == '_'

  function ReduceHeader(header: string): string {
    Filter(IS_NAME_CHAR, Underscored(Lower(Trim(header))))
  }

  lemma {:induction false} UnderscoredHasNoSpace(s: string)
    ensures NoSpace(Underscored(s))
    decreases |s|
  {
    if s != "" {
      var rest := if IsSpace(s[0]) then SkipOthers(NOT_SPACE, s[1..]) else s[1..];
      UnderscoredHasNoSpace(rest);
      assert Underscored(s) == [if IsSpace(s[0]) then '_' else s[0]] + Underscored(rest);
    }
  }

  lemma {:induction false} UnderscoredIsFixed(s: string)
    requires NoSpace(s)
    ensures Underscored(s) == s
  {
    if s != "" {
      UnderscoredIsFixed(s[1..]);
      assert s == [s[0]] + s[1..];
    }
  }

  lemma NoSpaceTrims(s: string)
    requires NoSpace(s)
    ensures Trim(s) == s && StripMark(s) == s
  {
    TrimFixed(s);
  }

  /** A CSV header loses its white space and capitals; normalising twice is normalising once, and
      the step that strips a byte order mark never finds one, since trimming removes it. */
  lemma CsvHeaderIsIdempotent(toLowerCase: string -> string, header: string)
    requires IsLowering(toLowerCase)
    ensures StripMark(Trim(header)) == Trim(header)
    ensures var name := NormalizeCsvHeader(toLowerCase, header);
      NoSpace(name) && NormalizeCsvHeader(toLowerCase, name) == name
  {
    hide Underscored, Trim, NoSpace;
    var name := NormalizeCsvHeader(toLowerCase, header);
    assert StripMark(Trim(header)) == Trim(header) by { TrimTrims(header); }
    UnderscoredHasNoSpace(Trim(header));
    NoSpaceTrims(name);
    UnderscoredIsFixed(name);
  }

  lemma UnderscoredJoins(s: string)
    requires s != "" ==> !IsSpace(s[0]) && !IsSpace(s[|s| - 1])
    ensures Underscored(s) == Join(Tokens(NOT_SPACE, s), "_")
  {
    hide IsSpace;
    if s != "" {
      CollapseJoins(NOT_SPACE, s);
    }
  }

  lemma LoweredIsNotEmpty(c: char)
    ensures LowerChar(c) != ""
  {
  }

  lemma LowerKeepsEnds(s: string)
    requires s != "" ==> !IsSpace(s[0]) && !IsSpace(s[|s| - 1])
    ensures var lower := Lower(s); lower != "" ==> !IsSpace(lower[0]) && !IsSpace(lower[|lower| - 1])
  {
    hide IsSpace, LowerChar;
    if s != "" {
      var front, last := s[..|s| - 1], s[|s| - 1];
      assert s == front + [last];
      LowerAppend(front, [last]);
      LowerOne(last);
      LowerCharIsLower(s[0]);
      LowerCharIsLower(last);
      LoweredIsNotEmpty(s[0]);
      LoweredIsNotEmpty(last);
    }
  }

  lemma MarkIsSpace()
    ensures IsSpace('\U{FEFF}')
  {
  }

  /** A normalised CSV header is the list of the header's words, the maximal runs without white space
      of its trimmed text, joined by single underscores and then lowered; a reduced header is the
      same for the lowered text, less all characters but letters, digits and underscores. */
  lemma OtherHeadersAreTheirWords(toLowerCase: string -> string, header: string)
    ensures NormalizeCsvHeader(toLowerCase, header) == toLowerCase(Join(Tokens(NOT_SPACE, Trim(header)), "_"))
    ensures ReduceHeader(header) == Filter(IS_NAME_CHAR, Join(Tokens(NOT_SPACE, Lower(Trim(header))), "_"))
  {
    hide Trim, Lower, Underscored, IsSpace, Filter;
    TrimTrims(header);
    assert StripMark(Trim(header)) == Trim(header) by { MarkIsSpace(); }
    UnderscoredJoins(Trim(header));
    LowerKeepsEnds(Trim(header));
    UnderscoredJoins(Lower(Trim(header)));
  }

  lemma {:induction false} FilteredNames(s: string)
    ensures forall i :: 0 <= i < |Filter(IS_NAME_CHAR, s)| ==> IS_NAME_CHAR(Filter(IS_NAME_CHAR, s)[i])
    ensures (forall i :: 0 <= i < |s| ==> IS_NAME_CHAR(s[i])) ==> Filter(IS_NAME_CHAR, s) == s
  {
    if s != "" {
      FilteredNames(s[1..]);
    }
  }

  /** A reduced header consists of lower-case letters, digits and underscores, and reducing it
      again changes nothing. */
  lemma ReducedHeaderIsFixed(header: string)
    ensures forall c :: c in ReduceHeader(header) ==> Alnum(c) || c == '_'
    ensures ReduceHeader(ReduceHeader(header)) == ReduceHeader(header)
  {
    hide Underscored, Lower, Trim, Filter;
    var name := ReduceHeader(header);
    FilteredNames(Underscored(Lower(Trim(header))));
    assert forall i :: 0 <= i < |name| ==> IS_NAME_CHAR(name[i]);
    NoSpaceTrims(name);
    WordsAreLower(name);
    UnderscoredIsFixed(name);
    FilteredNames(name);
  }

  // ----- numbering repeated names -----

  function Occurrences(names: seq<string>, name: string): nat {
    if names == [] then 0
    else Occurrences(names[..|names| - 1], name) + (if names[|names| - 1] == name then 1 else 0)
  }

  /** Which occurrence of its name entry `i` is, counting from 1. */
  function Occurrence(names: seq<string>, i: nat): nat
    requires i < |names|
  {
    Occurrences(names[..i], names[i]) + 1
  }

  /** The first occurrence keeps its name, the k-th becomes name_k. */
  function Numbered(names: seq<string>, i: nat): string
    requires i < |names|
  {
    if Occurrence(names, i) == 1 then names[i] else names[i] + "_" + Decimal(Occurrence(names, i))
  }

  ghost function Equals(names: seq<string>, n: nat, name: string): set<nat>
    requires n <= |names|
  {
    set j: nat | j < n && names[j] == name
  }

  lemma {:induction false} OccurrencesAre(names: seq<string>, n: nat, name: string)
    requires n <= |names|
    ensures Occurrences(names[..n], name) == |Equals(names, n, name)|
  {
    if n == 0 {
      assert Equals(names, 0, name) == {};
    } else {
      OccurrencesAre(names, n - 1, name);
      assert names[..n][..n - 1] == names[..n - 1];
      assert Equals(names, n, name) == Equals(names, n - 1, name) + (if names[n - 1] == name then {n - 1} else {});
    }
  }

  /** A name keeps its text unless it stands in the list before; then it gets the number of its
      occurrences so far, its own included, behind an underscore. */
  lemma NumberedIs(names: seq<string>, i: nat)
    requires i < |names|
    ensures (forall j :: 0 <= j < i ==> names[j] != names[i]) ==> Numbered(names, i) == names[i]
    ensures (exists j :: 0 <= j < i && names[j] == names[i]) ==>
      Numbered(names, i) == names[i] + "_" + Decimal(|set j: nat | j <= i && names[j] == names[i]|)
  {
    hide Occurrences, Decimal;
    var before := Equals(names, i, names[i]);
    OccurrencesAre(names, i, names[i]);
    assert (set j: nat | j <= i && names[j] == names[i]) == before + {i};
    if j: nat :| j < i && names[j] == names[i] {
      assert j in before;
    } else {
      assert before == {};
    }
  }

  ghost predicate Counts(seen: map<string, nat>, names: seq<string>) {
    forall name :: if name in seen then seen[name] == Occurrences(names, name) > 0 else Occurrences(names, name) == 0
  }

  lemma CountsNothing(names: seq<string>)
    ensures Counts(map[], names[..0])
  {
  }

  lemma CountsStep(seen: map<string, nat>, names: seq<string>, i: nat)
    requires i < |names| && Counts(seen, names[..i])
    ensures Occurrence(names, i) == (if names[i] in seen then seen[names[i]] else 0) + 1
    ensures names[i] in seen <==> Occurrence(names, i) > 1
    ensures Counts(seen[names[i] := Occurrence(names, i)], names[..i + 1])
  {
    assert names[..i + 1][..i] == names[..i];
  }

  /** The numbering loop of normalizeXlsxHeaders and normalizeCsvHeaders. */
  method NumberHeaders(names: seq<string>) returns (headers: seq<string>)
    ensures |headers| == |names|
    ensures forall i :: 0 <= i < |names| ==> headers[i] == Numbered(names, i)
  {
    CountsNothing(names);
    hide Counts, Occurrence, Decimal;
    var seen: map<string, nat> := map[];
    headers := [];
    for i := 0 to |names|
      invariant |headers| == i
      invariant Counts(seen, names[..i])
      invariant forall j :: 0 <= j < i ==> headers[j] == Numbered(names, j)
    {
      var normalized := names[i];
      var count := if normalized in seen then seen[normalized] else 0;
      CountsStep(seen, names, i);
      seen := seen[normalized := count + 1];
      headers := headers + [if count == 0 then normalized else normalized + "_" + Decimal(count + 1)];
    }
  }

  function CsvBaseName(toLowerCase: string -> string, header: string, index: nat): string {
    var name := NormalizeCsvHeader(toLowerCase, header);
    if name != "" then name else "column_" + Decimal(index + 1)
  }

  function CsvBaseNames(toLowerCase: string -> string, headers: seq<string>): seq<string> {
    seq(|headers|, i requires 0 <= i < |headers| => CsvBaseName(toLowerCase, headers[i], i))
  }

  method NormalizeCsvHeaders(toLowerCase: string -> string, headers: seq<string>) returns (normalized: seq<string>)
    ensures |normalized| == |headers|
    ensures forall i :: 0 <= i < |headers| ==> normalized[i] == Numbered(CsvBaseNames(toLowerCase, headers), i)
  {
    normalized := NumberHeaders(CsvBaseNames(toLowerCase, headers));
  }

  /** A CSV column is named by the words of its header, or by its position, counted from one, when
      nothing is left of them. */
  lemma CsvBaseNameIs(toLowerCase: string -> string, headers: seq<string>, i: nat)
    requires i < |headers|
    ensures var name := toLowerCase(Join(Tokens(NOT_SPACE, Trim(headers[i])), "_"));
      CsvBaseNames(toLowerCase, headers)[i] == if |name| == 0 then "column_" + Decimal(i + 1) else name
  {
    hide NormalizeCsvHeader, ReduceHeader, Trim, Join, Tokens;
    OtherHeadersAreTheirWords(toLowerCase, headers[i]);
  }

  function ReducedHeaders(headers: seq<string>): seq<string> {
    seq(|headers|, i requires 0 <= i < |headers| => ReduceHeader(headers[i]))
  }

  /** The names HeaderNormalizer reports as duplicates: those it had to number. */
  function Duplicates(names: seq<string>, n: nat): seq<string>
    requires n <= |names|
  {
    if n == 0 then []
    else Duplicates(names, n - 1) + (if Occurrence(names, n - 1) == 1 then [] else [Numbered(names, n - 1)])
  }

  lemma NoDuplicates(names: seq<string>)
    ensures Duplicates(names, 0) == []
  {
  }

  lemma NumberedStep(names: seq<string>, i: nat)
    requires i < |names|
    ensures var k := Occurrence(names, i);
      && Numbered(names, i) == (if k == 1 then names[i] else names[i] + "_" + Decimal(k))
      && Duplicates(names, i + 1) == Duplicates(names, i) + (if k == 1 then [] else [Numbered(names, i)])
  {
    hide Occurrence, Decimal;
  }

  /** The loop of HeaderNormalizer.normalize, which counts with has and get instead. */
  method NormalizeHeaders(headers: seq<string>) returns (normalizedHeaders: seq<string>, duplicateHeaders: seq<string>)
    ensures |normalizedHeaders| == |headers|
    ensures forall i :: 0 <= i < |headers| ==> normalizedHeaders[i] == Numbered(ReducedHeaders(headers), i)
    ensures duplicateHeaders == Duplicates(ReducedHeaders(headers), |headers|)
  {
    hide Counts, Occurrence, Decimal, ReduceHeader, Numbered, Duplicates;
    ghost var names := ReducedHeaders(headers);
    CountsNothing(names);
    NoDuplicates(names);
    var seenHeaders: map<string, nat> := map[];
    normalizedHeaders, duplicateHeaders := [], [];
    for i := 0 to |headers|
      invariant |normalizedHeaders| == i
      invariant Counts(seenHeaders, names[..i])
      invariant forall j :: 0 <= j < i ==> normalizedHeaders[j] == Numbered(names, j)
      invariant duplicateHeaders == Duplicates(names, i)
    {
      var normalized := ReduceHeader(headers[i]);
      CountsStep(seenHeaders, names, i);
      NumberedStep(names, i);
      if normalized in seenHeaders {
        var count := seenHeaders[normalized] + 1;
        seenHeaders := seenHeaders[normalized := count];
        duplicateHeaders := duplicateHeaders + [normalized + "_" + Decimal(count)];
        normalized := normalized + "_" + Decimal(count);
      } else {
        seenHeaders := seenHeaders[normalized := 1];
      }
      normalizedHeaders := normalizedHeaders + [normalized];
    }
  }

  /** The positions whose name stands in the list before. */
  function Repeats(names: seq<string>): nat -> bool {
    (i: nat) => i < |names| && names[i] in names[..i]
  }

  lemma RepeatsHere(names: seq<string>, i: nat)
    requires i < |names|
    ensures Repeats(names)(i) <==> Occurrence(names, i) != 1
  {
    var before := Equals(names, i, names[i]);
    OccurrencesAre(names, i, names[i]);
    if names[i] in names[..i] {
      var j :| 0 <= j < i && names[j] == names[i];
      assert j in before;
    } else {
      assert forall j :: 0 <= j < i ==> names[..i][j] == names[j];
      assert before == {};
    }
  }

  /** The duplicates reported are the new names of the repeated positions, in order. */
  lemma {:induction false} DuplicatesAre(names: seq<string>, n: nat)
    requires n <= |names|
    ensures var repeated := Select(Repeats(names), n);
      && |Duplicates(names, n)| == |repeated|
      && forall k :: 0 <= k < |repeated| ==>
           repeated[k] < n && Duplicates(names, n)[k] == Numbered(names, repeated[k])
  {
    hide Numbered, Occurrence, Repeats;
    if n > 0 {
      DuplicatesAre(names, n - 1);
      RepeatsHere(names, n - 1);
    }
  }

  /** Some name in the list is what the numbering makes of a repeated one. */
  ghost predicate Collides(names: seq<string>) {
    exists i, j :: 0 <= i < |names| && 0 <= j < |names| && Occurrence(names, j) > 1 && names[i] == Numbered(names, j)
  }

  lemma SuffixUnique(a: string, d: string, b: string, e: string)
    requires a + "_" + d == b + "_" + e && '_' !in d && '_' !in e
    ensures a == b && d == e
  {
    var s := a + "_" + d;
    assert s[|a|] == '_' && s[|b|] == '_';
    assert s[..|a|] == a && (b + "_" + e)[..|b|] == b;
    assert s[|a| + 1..] == d && (b + "_" + e)[|b| + 1..] == e;
  }

  lemma {:induction false} OccurrencesGrow(names: seq<string>, i: nat, j: nat, name: string)
    requires i <= j <= |names|
    ensures Occurrences(names[..i], name) <= Occurrences(names[..j], name)
    ensures i < j && names[i] == name ==> Occurrences(names[..i], name) < Occurrences(names[..j], name)
    decreases j - i
  {
    if i < j {
      OccurrencesGrow(names, i + 1, j, name);
      assert names[..i + 1][..i] == names[..i];
    }
  }

  lemma {:induction false} FirstOccurrence(names: seq<string>, i: nat) returns (f: nat)
    requires i < |names|
    ensures f <= i && names[f] == names[i] && Occurrence(names, f) == 1
  {
    f := 0;
    while names[f] != names[i]
      invariant f <= i && Occurrences(names[..f], names[i]) == 0
      decreases i - f
    {
      assert names[..f + 1][..f] == names[..f];
      f := f + 1;
    }
  }

  lemma DecimalHasNoUnderscore(n: nat)
    ensures '_' !in Decimal(n)
  {
  }

  lemma EqualOnlyByCollision(names: seq<string>, i: nat, j: nat)
    requires i < j < |names| && Numbered(names, i) == Numbered(names, j)
    ensures Collides(names)
  {
    var k, l := Occurrence(names, i), Occurrence(names, j);
    if k == 1 && l == 1 {
      OccurrencesGrow(names, i, j, names[j]);
    } else if k == 1 {
      assert names[i] == Numbered(names, j);
    } else if l == 1 {
      assert names[j] == Numbered(names, i);
    } else {
      DecimalHasNoUnderscore(k);
      DecimalHasNoUnderscore(l);
      SuffixUnique(names[i], Decimal(k), names[j], Decimal(l));
      DecimalValue(k);
      DecimalValue(l);
      OccurrencesGrow(names, i, j, names[j]);
    }
  }

  /** The numbered names are pairwise distinct exactly when no name in the list equals a
      generated one; repeated names alone never clash. */
  lemma NumberingIsInjectiveIff(names: seq<string>)
    ensures (forall i, j :: 0 <= i < j < |names| ==> Numbered(names, i) != Numbered(names, j)) <==> !Collides(names)
  {
    if Collides(names) {
      var i, j :| 0 <= i < |names| && 0 <= j < |names| && Occurrence(names, j) > 1 && names[i] == Numbered(names, j);
      var f := FirstOccurrence(names, i);
      assert Numbered(names, f) == Numbered(names, j) && f != j;
    } else {
      forall i, j | 0 <= i < j < |names| ensures Numbered(names, i) != Numbered(names, j) {
        if Numbered(names, i) == Numbered(names, j) {
          EqualOnlyByCollision(names, i, j);
        }
      }
    }
  }

  /** The smallest clash: the third header is already called what the second one becomes. */
  lemma NumberingCanClash()
    ensures var names := ["a", "a", "a_2"]; Numbered(names, 1) == Numbered(names, 2)
  {
    var names := ["a", "a", "a_2"];
    assert names[..1] == ["a"] && names[..2] == ["a", "a"];
    assert ["a"][..0] == [] && ["a", "a"][..1] == ["a"];
    assert Occurrences(["a"], "a") == 1 && Occurrences(["a", "a"], "a_2") == 0;
    assert Decimal(2) == "2";
  }
}
