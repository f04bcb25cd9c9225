/** The scheduler's two naming helpers, over ASCII: `make_snake` (two
    regular-expression substitutions, then lower-casing) and `to_camel_case`
    (split on '_', title-case every component after the first, join). */
module Casing {

  predicate IsUpper(c: char) { 'A' <= c <= 'Z' }
  predicate IsLower(c: char) { 'a' <= c <= 'z' }
  predicate IsDigit(c: char) { '0' <= c <= '9' }
  predicate IsCased(c: char) { IsUpper(c) || IsLower(c) }

  function ToLower(c: char): (r: char)
    ensures !IsUpper(r)
    ensures r == '_' <==> c == '_'
  {
    if IsUpper(c) then (c as int + 32) as char else c
  }

  function ToUpper(c: char): (r: char)
    ensures ToLower(r) == ToLower(c)
    ensures r == '_' <==> c == '_'
  {
    if IsLower(c) then (c as int - 32) as char else c
  }

  /** `str.lower()` */
  function Lower(s: string): (r: string)
    ensures |r| == |s|
    ensures forall i :: 0 <= i < |s| ==> r[i] == ToLower(s[i])
  {
    seq(|s|, i requires 0 <= i < |s| => ToLower(s[i]))
  }

  predicate HasNoUpper(s: string) {
    forall i :: 0 <= i < |s| ==> !IsUpper(s[i])
  }

  /** The string with every '_' removed. */
  function DropUnderscores(s: string): (r: string)
    ensures '_' !in r
  {
    if s == [] then []
    else if s[0] == '_' then DropUnderscores(s[1..])
    else [s[0]] + DropUnderscores(s[1..])
  }

  lemma {:induction false} DropUnderscoresConcat(a: string, b: string)
    ensures DropUnderscores(a + b) == DropUnderscores(a) + DropUnderscores(b)
  {
    if a != [] {
      assert (a + b)[0] == a[0];
      assert (a + b)[1..] == a[1..] + b;
      DropUnderscoresConcat(a[1..], b);
    } else {
      assert a + b == b;
    }
  }

  lemma {:induction false} DropUnderscoresLower(s: string)
    ensures DropUnderscores(Lower(s)) == Lower(DropUnderscores(s))
  {
    if s != [] {
      assert Lower(s)[1..] == Lower(s[1..]);
      DropUnderscoresLower(s[1..]);
      if s[0] != '_' {
        assert Lower([s[0]] + DropUnderscores(s[1..])) == [ToLower(s[0])] + Lower(DropUnderscores(s[1..]));
      }
    }
  }

  // ---------------------------------------------------------------------
  // make_snake

  /** The length of the run of lower-case letters `s` starts with: what the
      greedy `[a-z]+` consumes. */
  function LowerRun(s: string): (k: nat)
    ensures k <= |s|
    ensures forall i :: 0 <= i < k ==> IsLower(s[i])
    ensures k < |s| ==> !IsLower(s[k])
  {
    if s != [] && IsLower(s[0]) then 1 + LowerRun(s[1..]) else 0
  }

  /** `re.sub('(.)([A-Z][a-z]+)', r'\1_\2', s)`: scanning left to right, a
      character other than a newline followed by a capitalised word gets an
      '_' after it; matching resumes after the word. */
  function SplitBeforeWords(s: string): string
    decreases |s|
  {
    if |s| >= 3 && s[0] != '\n' && IsUpper(s[1]) && IsLower(s[2]) then
      var end := 2 + LowerRun(s[2..]);
      [s[0], '_'] + s[1..end] + SplitBeforeWords(s[end..])
    else if s == [] then []
    else [s[0]] + SplitBeforeWords(s[1..])
  }

  /** `re.sub('([a-z0-9])([A-Z])', r'\1_\2', s)`: an '_' between a lower-case
      letter or digit and the capital that follows it; matching resumes after
      the capital. */
  function SplitAfterLowers(s: string): string
    decreases |s|
  {
    if |s| >= 2 && (IsLower(s[0]) || IsDigit(s[0])) && IsUpper(s[1]) then
      [s[0], '_', s[1]] + SplitAfterLowers(s[2..])
    else if s == [] then []
    else [s[0]] + SplitAfterLowers(s[1..])
  }

  /** `make_snake(name)`: the result has no upper-case letter. */
  function MakeSnake(name: string): (r: string)
    ensures HasNoUpper(r)
  {
    Lower(SplitAfterLowers(SplitBeforeWords(name)))
  }

  lemma {:induction false} SplitBeforeWordsOnlyAddsUnderscores(s: string)
    ensures DropUnderscores(SplitBeforeWords(s)) == DropUnderscores(s)
    decreases |s|
  {
    if |s| >= 3 && s[0] != '\n' && IsUpper(s[1]) && IsLower(s[2]) {
      var end := 2 + LowerRun(s[2..]);
      SplitBeforeWordsOnlyAddsUnderscores(s[end..]);
      DropUnderscoresConcat([s[0], '_'] + s[1..end], SplitBeforeWords(s[end..]));
      DropUnderscoresConcat([s[0], '_'], s[1..end]);
      DropUnderscoresConcat([s[0]], s[1..end]);
      DropUnderscoresConcat(s[..end], s[end..]);
      assert [s[0]] + s[1..end] == s[..end];
      assert s[..end] + s[end..] == s;
      assert DropUnderscores([s[0], '_']) == DropUnderscores([s[0]]);
    } else if s != [] {
      SplitBeforeWordsOnlyAddsUnderscores(s[1..]);
      DropUnderscoresConcat([s[0]], SplitBeforeWords(s[1..]));
    }
  }

  lemma {:induction false} SplitAfterLowersOnlyAddsUnderscores(s: string)
    ensures DropUnderscores(SplitAfterLowers(s)) == DropUnderscores(s)
    decreases |s|
  {
    if |s| >= 2 && (IsLower(s[0]) || IsDigit(s[0])) && IsUpper(s[1]) {
      SplitAfterLowersOnlyAddsUnderscores(s[2..]);
      DropUnderscoresConcat([s[0], '_', s[1]], SplitAfterLowers(s[2..]));
      assert s[1..][1..] == s[2..];
      assert DropUnderscores([s[0], '_', s[1]]) == [s[0], s[1]] by {
        assert [s[0], '_', s[1]][1..] == ['_', s[1]];
        assert ['_', s[1]][1..] == [s[1]];
        assert [s[1]][1..] == [];
        assert DropUnderscores([s[1]]) == [s[1]];
      }
      assert DropUnderscores(s) == [s[0]] + DropUnderscores(s[1..]);
      assert DropUnderscores(s[1..]) == [s[1]] + DropUnderscores(s[2..]);
    } else if s != [] {
      SplitAfterLowersOnlyAddsUnderscores(s[1..]);
      DropUnderscoresConcat([s[0]], SplitAfterLowers(s[1..]));
    }
  }

  /** What the first substitution leaves behind: a capital followed by a
      lower-case letter is preceded by an '_', a newline (which `.` does not
      match) or the lower-case end of the word matched just before it. */
  predicate WordsSeparated(s: string) {
    forall i :: 1 <= i < |s| - 1 && IsUpper(s[i]) && IsLower(s[i + 1]) ==>
      s[i - 1] == '_' || s[i - 1] == '\n' || IsLower(s[i - 1])
  }

  /** What the second substitution leaves behind: no lower-case letter or
      digit is directly followed by a capital. */
  predicate NoLowerBeforeUpper(s: string) {
    forall i :: 0 <= i < |s| - 1 ==> !((IsLower(s[i]) || IsDigit(s[i])) && IsUpper(s[i + 1]))
  }

  /** The first substitution starts with the same character, and its second
      character is either the inserted '_' or the input's second one. */
  lemma {:induction false} SplitBeforeWordsStart(s: string)
    ensures |SplitBeforeWords(s)| >= |s|
    ensures s != [] ==> SplitBeforeWords(s)[0] == s[0]
    ensures |s| >= 2 ==> SplitBeforeWords(s)[1] == '_' || SplitBeforeWords(s)[1] == s[1]
    decreases |s|
  {
    if |s| >= 3 && s[0] != '\n' && IsUpper(s[1]) && IsLower(s[2]) {
      var end := 2 + LowerRun(s[2..]);
      SplitBeforeWordsStart(s[end..]);
    } else if s != [] {
      SplitBeforeWordsStart(s[1..]);
    }
  }

  /** The first substitution puts an '_' before every capitalised word it
      can reach. */
  lemma {:induction false} SplitBeforeWordsSeparates(s: string)
    ensures WordsSeparated(SplitBeforeWords(s))
    decreases |s|
  {
    var r := SplitBeforeWords(s);
    if |s| >= 3 && s[0] != '\n' && IsUpper(s[1]) && IsLower(s[2]) {
      var end := 2 + LowerRun(s[2..]);
      var word := [s[0], '_'] + s[1..end];
      var rest := SplitBeforeWords(s[end..]);
      SplitBeforeWordsSeparates(s[end..]);
      SplitBeforeWordsStart(s[end..]);
      assert r == word + rest;
      forall i | 1 <= i < |r| - 1 && IsUpper(r[i]) && IsLower(r[i + 1])
        ensures r[i - 1] == '_' || r[i - 1] == '\n' || IsLower(r[i - 1])
      {
        if i > end + 1 {
          assert r[i - 1] == rest[i - 1 - |word|] && r[i] == rest[i - |word|] && r[i + 1] == rest[i + 1 - |word|];
        } else if i == end + 1 {
          assert r[i - 1] == s[end - 1];
        }
      }
    } else if s != [] {
      var rest := SplitBeforeWords(s[1..]);
      SplitBeforeWordsSeparates(s[1..]);
      SplitBeforeWordsStart(s[1..]);
      assert r == [s[0]] + rest;
      forall i | 1 <= i < |r| - 1 && IsUpper(r[i]) && IsLower(r[i + 1])
        ensures r[i - 1] == '_' || r[i - 1] == '\n' || IsLower(r[i - 1])
      {
        if i >= 2 {
          assert r[i - 1] == rest[i - 2] && r[i] == rest[i - 1] && r[i + 1] == rest[i];
        } else {
          assert r[1] == s[1] && r[2] == rest[1];
          if rest[1] == s[2] {
            assert s[0] == '\n';
          }
        }
      }
    }
  }

  /** The second substitution splits every lower-case letter or digit from
      a capital that directly follows it. */
  lemma {:induction false} SplitAfterLowersSeparates(s: string)
    ensures NoLowerBeforeUpper(SplitAfterLowers(s))
    decreases |s|
  {
    var r := SplitAfterLowers(s);
    if |s| >= 2 && (IsLower(s[0]) || IsDigit(s[0])) && IsUpper(s[1]) {
      var rest := SplitAfterLowers(s[2..]);
      SplitAfterLowersSeparates(s[2..]);
      assert r == [s[0], '_', s[1]] + rest;
      forall i | 0 <= i < |r| - 1
        ensures !((IsLower(r[i]) || IsDigit(r[i])) && IsUpper(r[i + 1]))
      {
        if i >= 3 {
          assert r[i] == rest[i - 3] && r[i + 1] == rest[i - 2];
        }
      }
    } else if s != [] {
      var rest := SplitAfterLowers(s[1..]);
      SplitAfterLowersSeparates(s[1..]);
      assert r == [s[0]] + rest;
      forall i | 0 <= i < |r| - 1
        ensures !((IsLower(r[i]) || IsDigit(r[i])) && IsUpper(r[i + 1]))
      {
        if i >= 1 {
          assert r[i] == rest[i - 1] && r[i + 1] == rest[i];
        } else {
          assert r[1] == s[1];
        }
      }
    }
  }

  /** Two names as `make_snake` turns them: a capital after a lower-case
      letter (the second substitution) and a capitalised word after another
      character (the first). */
  lemma MakeSnakeExamples()
    ensures MakeSnake("aB") == "a_b"
    ensures MakeSnake("xHi") == "x_hi"
  {
    assert SplitBeforeWords("B") == "B";
    assert SplitBeforeWords("aB") == "aB";
    assert SplitAfterLowers("aB") == "a_B";
    assert SplitBeforeWords("xHi") == "x_Hi";
    assert SplitAfterLowers("_Hi") == "_Hi";
    assert SplitAfterLowers("x_Hi") == "x_Hi";
  }

  /** `make_snake` only lower-cases letters and inserts underscores: with the
      underscores removed, its result is the lower-cased input with the
      underscores removed. */
  lemma MakeSnakeOnlyInsertsUnderscores(name: string)
    ensures DropUnderscores(MakeSnake(name)) == Lower(DropUnderscores(name))
  {
    var once := SplitBeforeWords(name);
    SplitBeforeWordsOnlyAddsUnderscores(name);
    SplitAfterLowersOnlyAddsUnderscores(once);
    DropUnderscoresLower(SplitAfterLowers(once));
  }

  lemma {:induction false} SplitBeforeWordsKeepsLowerCase(s: string)
    requires HasNoUpper(s)
    ensures SplitBeforeWords(s) == s
    decreases |s|
  {
    if s != [] {
      SplitBeforeWordsKeepsLowerCase(s[1..]);
    }
  }

  lemma {:induction false} SplitAfterLowersKeepsLowerCase(s: string)
    requires HasNoUpper(s)
    ensures SplitAfterLowers(s) == s
    decreases |s|
  {
    if s != [] {
      SplitAfterLowersKeepsLowerCase(s[1..]);
    }
  }

  /** A name with no capital letter (a snake-case name in particular) is
      left as it is; hence `make_snake` is idempotent. */
  lemma MakeSnakeFixesLowerCase(name: string)
    requires HasNoUpper(name)
    ensures MakeSnake(name) == name
  {
    SplitBeforeWordsKeepsLowerCase(name);
    SplitAfterLowersKeepsLowerCase(name);
  }

  lemma MakeSnakeIdempotent(name: string)
    ensures MakeSnake(MakeSnake(name)) == MakeSnake(name)
  {
    MakeSnakeFixesLowerCase(MakeSnake(name));
  }

  // ---------------------------------------------------------------------
  // to_camel_case

  /** `s.split(sep)`: never empty; no part holds the separator; the first
      part is the text before the first separator. */
  function Split(s: string, sep: char): (parts: seq<string>)
    ensures |parts| >= 1
    ensures forall i :: 0 <= i < |parts| ==> sep !in parts[i]
    ensures |parts[0]| <= |s| && parts[0] == s[..|parts[0]|]
    ensures |parts[0]| < |s| ==> s[|parts[0]|] == sep
    decreases |s|
  {
    if s == [] then [[]]
    else
      var rest := Split(s[1..], sep);
      if s[0] == sep then [[]] + rest
      else [[s[0]] + rest[0]] + rest[1..]
  }

  /** `sep.join(parts)` */
  function Join(parts: seq<string>, sep: char): string
    requires |parts| >= 1
  {
    if |parts| == 1 then parts[0] else parts[0] + [sep] + Join(parts[1..], sep)
  }

  /** Joining the parts of a split gives back the original text. */
  lemma {:induction false} JoinSplit(s: string, sep: char)
    ensures Join(Split(s, sep), sep) == s
    decreases |s|
  {
    if s != [] {
      var rest := Split(s[1..], sep);
      JoinSplit(s[1..], sep);
      if s[0] == sep {
        assert Split(s, sep)[1..] == rest;
      } else {
        var parts := Split(s, sep);
        if |rest| == 1 {
        } else {
          assert parts[1..] == rest[1..];
          assert Join(parts, sep) == [s[0]] + rest[0] + [sep] + Join(rest[1..], sep);
        }
      }
    }
  }

  /** `str.title()`: a letter is upper-cased when the character before it is
      not a letter, lower-cased when it is. */
  function TitleFrom(s: string, previousCased: bool): (r: string)
    ensures |r| == |s|
  {
    if s == [] then []
    else
      var c := if previousCased then ToLower(s[0]) else ToUpper(s[0]);
      [c] + TitleFrom(s[1..], IsCased(s[0]))
  }

  function Title(s: string): string {
    TitleFrom(s, false)
  }

  /** `''.join(x.title() for x in parts)` */
  function ConcatTitled(parts: seq<string>): string {
    if parts == [] then [] else Title(parts[0]) + ConcatTitled(parts[1..])
  }

  /** `to_camel_case(snake)`: no '_' is left, and the text before the first
      '_' is kept unchanged at the front. */
  function ToCamelCase(snake: string): (r: string)
    ensures '_' !in r
    ensures var head := Split(snake, '_')[0];
      |head| <= |r| && r[..|head|] == head
  {
    var parts := Split(snake, '_');
    TitleHasNoUnderscores(parts[1..]);
    parts[0] + ConcatTitled(parts[1..])
  }

  /** Each letter of `title()`'s result is upper-cased exactly when the
      character before it (or, at the start, the given state) is not a
      letter, and lower-cased otherwise. */
  lemma {:induction false} TitleFromCases(s: string, previousCased: bool)
    ensures var r := TitleFrom(s, previousCased);
      forall i :: 0 <= i < |s| ==>
        r[i] == (if (if i == 0 then previousCased else IsCased(s[i - 1])) then ToLower(s[i]) else ToUpper(s[i]))
  {
    if s != [] {
      var r := TitleFrom(s, previousCased);
      var rest := TitleFrom(s[1..], IsCased(s[0]));
      TitleFromCases(s[1..], IsCased(s[0]));
      assert r == [r[0]] + rest;
      forall i | 1 <= i < |s|
        ensures r[i] == (if IsCased(s[i - 1]) then ToLower(s[i]) else ToUpper(s[i]))
      {
        assert r[i] == rest[i - 1] && s[1..][i - 1] == s[i];
        if i >= 2 {
          assert s[1..][i - 2] == s[i - 1];
        }
      }
    }
  }

  lemma {:induction false} TitleFromNoUnderscore(s: string, previousCased: bool)
    requires '_' !in s
    ensures '_' !in TitleFrom(s, previousCased)
  {
    if s != [] {
      assert s[0] != '_';
      TitleFromNoUnderscore(s[1..], IsCased(s[0]));
    }
  }

  lemma {:induction false} TitleHasNoUnderscores(parts: seq<string>)
    requires forall i :: 0 <= i < |parts| ==> '_' !in parts[i]
    ensures '_' !in ConcatTitled(parts)
  {
    if parts != [] {
      TitleFromNoUnderscore(parts[0], false);
      TitleHasNoUnderscores(parts[1..]);
    }
  }

  lemma {:induction false} TitleFromOnlyChangesCase(s: string, previousCased: bool)
    ensures Lower(TitleFrom(s, previousCased)) == Lower(s)
  {
    if s != [] {
      TitleFromOnlyChangesCase(s[1..], IsCased(s[0]));
    }
  }

  function Concat(parts: seq<string>): string {
    if parts == [] then [] else parts[0] + Concat(parts[1..])
  }

  lemma {:induction false} ConcatTitledOnlyChangesCase(parts: seq<string>)
    ensures Lower(ConcatTitled(parts)) == Lower(Concat(parts))
  {
    if parts != [] {
      TitleFromOnlyChangesCase(parts[0], false);
      ConcatTitledOnlyChangesCase(parts[1..]);
      LowerConcat(Title(parts[0]), ConcatTitled(parts[1..]));
      LowerConcat(parts[0], Concat(parts[1..]));
    }
  }

  lemma LowerConcat(a: string, b: string)
    ensures Lower(a + b) == Lower(a) + Lower(b)
  {
  }

  lemma {:induction false} ConcatSplitDropsSeparators(s: string)
    ensures Concat(Split(s, '_')) == DropUnderscores(s)
    decreases |s|
  {
    if s != [] {
      ConcatSplitDropsSeparators(s[1..]);
      var rest := Split(s[1..], '_');
      if s[0] == '_' {
        assert Split(s, '_') == [[]] + rest;
        assert Concat([[]] + rest) == [] + Concat(rest);
      } else {
        var parts := Split(s, '_');
        assert parts[1..] == rest[1..];
        assert Concat(rest) == rest[0] + Concat(rest[1..]);
      }
    }
  }

  /** `to_camel_case` changes only the case of letters and drops the
      underscores: lower-cased, its result is the lower-cased input without
      underscores. */
  lemma ToCamelCaseOnlyDropsUnderscores(snake: string)
    ensures Lower(ToCamelCase(snake)) == Lower(DropUnderscores(snake))
  {
    var parts := Split(snake, '_');
    ConcatTitledOnlyChangesCase(parts[1..]);
    ConcatSplitDropsSeparators(snake);
    LowerConcat(parts[0], ConcatTitled(parts[1..]));
    LowerConcat(parts[0], Concat(parts[1..]));
    assert Concat(parts) == parts[0] + Concat(parts[1..]);
  }

  lemma {:induction false} SplitWithoutSeparator(a: string, sep: char)
    requires sep !in a
    ensures Split(a, sep) == [a]
    decreases |a|
  {
    if a != [] {
      SplitWithoutSeparator(a[1..], sep);
      assert [a[0]] + a[1..] == a;
    }
  }

  lemma {:induction false} SplitAfterPart(a: string, sep: char, rest: string)
    requires sep !in a
    ensures Split(a + [sep] + rest, sep) == [a] + Split(rest, sep)
    decreases |a|
  {
    var s := a + [sep] + rest;
    if a == [] {
      assert s[1..] == rest;
    } else {
      assert s[1..] == a[1..] + [sep] + rest;
      SplitAfterPart(a[1..], sep, rest);
      assert [a[0]] + a[1..] == a;
    }
  }

  /** Splitting parts that hold no separator, once joined, gives the parts
      back. */
  lemma {:induction false} SplitJoin(parts: seq<string>, sep: char)
    requires |parts| >= 1 && forall i :: 0 <= i < |parts| ==> sep !in parts[i]
    ensures Split(Join(parts, sep), sep) == parts
    decreases |parts|
  {
    if |parts| == 1 {
      SplitWithoutSeparator(parts[0], sep);
    } else {
      SplitJoin(parts[1..], sep);
      SplitAfterPart(parts[0], sep, Join(parts[1..], sep));
      assert [parts[0]] + parts[1..] == parts;
    }
  }

  /** `to_camel_case` of parts joined by '_' keeps the first part and
      title-cases each later part; `Casing.TitleFromCases` says which letters
      that upper-cases. */
  lemma ToCamelCaseJoined(parts: seq<string>)
    requires |parts| >= 1 && forall i :: 0 <= i < |parts| ==> '_' !in parts[i]
    ensures ToCamelCase(Join(parts, '_')) == parts[0] + ConcatTitled(parts[1..])
  {
    SplitJoin(parts, '_');
  }

  /** A name as `to_camel_case` turns it. */
  lemma ToCamelCaseExample()
    ensures ToCamelCase("ab_cd") == "abCd"
  {
    assert Join(["ab", "cd"], '_') == "ab_cd";
    ToCamelCaseJoined(["ab", "cd"]);
    assert TitleFrom("d", true) == "d";
    assert Title("cd") == "Cd";
    assert ConcatTitled(["cd"]) == "Cd";
  }

}
